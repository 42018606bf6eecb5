/** Sorting with respect to a total order: the library sorts used by the DNS matcher and the
    scan classifier, and why comparing sorted copies compares multisets. */
module Sorting {

  ghost predicate TotalOrder<T(!new)>(le: (T, T) -> bool) {
    && (forall x, y :: le(x, y) || le(y, x))
    && (forall x, y :: le(x, y) && le(y, x) ==> x == y)
    && (forall x, y, z :: le(x, y) && le(y, z) ==> le(x, z))
  }

  predicate Ordered<T>(le: (T, T) -> bool, s: seq<T>) {
    forall i, j :: 0 <= i < j < |s| ==> le(s[i], s[j])
  }

  function Place<T>(le: (T, T) -> bool, x: T, s: seq<T>): seq<T> {
    if s == [] || le(x, s[0]) then [x] + s else [s[0]] + Place(le, x, s[1..])
  }

  function Sort<T>(le: (T, T) -> bool, s: seq<T>): seq<T> {
    if s == [] then [] else Place(le, s[0], Sort(le, s[1..]))
  }

  lemma {:induction false} PlacePermutes<T>(le: (T, T) -> bool, x: T, s: seq<T>)
    ensures multiset(Place(le, x, s)) == multiset(s) + multiset{x}
  {
    if s != [] && !le(x, s[0]) {
      PlacePermutes(le, x, s[1..]);
      assert s == [s[0]] + s[1..];
    }
  }

  lemma {:induction false} PlaceOrders<T(!new)>(le: (T, T) -> bool, x: T, s: seq<T>)
    requires TotalOrder(le) && Ordered(le, s)
    ensures Ordered(le, Place(le, x, s))
  {
    if s != [] && !le(x, s[0]) {
      var rest := Place(le, x, s[1..]);
      PlaceOrders(le, x, s[1..]);
      PlacePermutes(le, x, s[1..]);
      forall y | y in rest ensures le(s[0], y) {
        assert y in multiset(rest);
        assert y == x || y in s[1..];
      }
    }
  }

  /** The library contract: an ordered permutation. */
  lemma {:induction false} SortIsOrderedPermutation<T(!new)>(le: (T, T) -> bool, s: seq<T>)
    requires TotalOrder(le)
    ensures multiset(Sort(le, s)) == multiset(s) && Ordered(le, Sort(le, s)) && |Sort(le, s)| == |s|
  {
    if s != [] {
      SortIsOrderedPermutation(le, s[1..]);
      PlacePermutes(le, s[0], Sort(le, s[1..]));
      PlaceOrders(le, s[0], Sort(le, s[1..]));
      assert s == [s[0]] + s[1..];
    }
    assert |multiset(Sort(le, s))| == |Sort(le, s)|;
  }

  /** The first element of an ordered list is at most every element of a permutation of it. */
  lemma FirstIsLeast<T(!new)>(le: (T, T) -> bool, a: seq<T>, b: seq<T>)
    requires TotalOrder(le) && Ordered(le, a) && a != [] && b != [] && multiset(a) == multiset(b)
    ensures le(a[0], b[0])
  {
    assert b[0] in multiset(b);
    var i :| 0 <= i < |a| && a[i] == b[0];
  }

  lemma RestPermutes<T>(a: seq<T>, b: seq<T>)
    requires a != [] && b != [] && a[0] == b[0] && multiset(a) == multiset(b)
    ensures multiset(a[1..]) == multiset(b[1..])
  {
    assert a == [a[0]] + a[1..] && b == [b[0]] + b[1..];
    assert multiset(a[1..]) == multiset(a) - multiset{a[0]};
    assert multiset(b[1..]) == multiset(b) - multiset{b[0]};
  }

  lemma {:induction false} OrderedUnique<T(!new)>(le: (T, T) -> bool, a: seq<T>, b: seq<T>)
    requires TotalOrder(le) && Ordered(le, a) && Ordered(le, b) && multiset(a) == multiset(b)
    ensures a == b
  {
    assert |multiset(a)| == |a| && |multiset(b)| == |b|;
    if a != [] {
      FirstIsLeast(le, a, b);
      FirstIsLeast(le, b, a);
      RestPermutes(a, b);
      OrderedUnique(le, a[1..], b[1..]);
      assert a == [a[0]] + a[1..] && b == [b[0]] + b[1..];
    }
  }

  /** Sorted copies are equal exactly when the originals are equal as multisets. */
  lemma SortedEqualIffSameMultiset<T(!new)>(le: (T, T) -> bool, a: seq<T>, b: seq<T>)
    requires TotalOrder(le)
    ensures Sort(le, a) == Sort(le, b) <==> multiset(a) == multiset(b)
  {
    SortIsOrderedPermutation(le, a);
    SortIsOrderedPermutation(le, b);
    if multiset(a) == multiset(b) {
      OrderedUnique(le, Sort(le, a), Sort(le, b));
    }
  }

  const INT_AT_MOST: (int, int) -> bool := (x, y) => x <= y

  lemma IntAtMostIsTotal()
    ensures TotalOrder(INT_AT_MOST)
  {
  }

  /** Stands for the in-place library sorts. */
  method SortInPlace<T>(le: (T, T) -> bool, a: array<T>)
    requires |Sort(le, a[..])| == a.Length
    modifies a
    ensures a[..] == Sort(le, old(a[..]))
  {
    var sorted := Sort(le, a[..]);
    forall i | 0 <= i < a.Length {
      a[i] := sorted[i];
    }
  }
}
