/** Matching the values a DNS lookup returned against the values a monitor expects. */
module DnsMatch {
  import opened Basics
  import opened Sorting

  // ---- Strings --------------------------------------------------------------------

  function LowerAll(lower: char -> char, ss: seq<string>): seq<string> {
    seq(|ss|, i requires 0 <= i < |ss| => Lower(lower, ss[i]))
  }

  /** The table neither makes nor removes commas. */
  ghost predicate KeepsCommas(lower: char -> char) {
    forall c :: lower(c) == ',' <==> c == ','
  }

  predicate StringAtMost(a: string, b: string) {
    a == [] || (b != [] && (a[0] < b[0] || (a[0] == b[0] && StringAtMost(a[1..], b[1..]))))
  }

  const STRING_AT_MOST: (string, string) -> bool := (a, b) => StringAtMost(a, b)

  lemma {:induction false} StringsComparable(a: string, b: string)
    ensures StringAtMost(a, b) || StringAtMost(b, a)
    ensures StringAtMost(a, b) && StringAtMost(b, a) ==> a == b
  {
    if a != [] && b != [] {
      StringsComparable(a[1..], b[1..]);
      assert a == [a[0]] + a[1..] && b == [b[0]] + b[1..];
    }
  }

  lemma {:induction false} StringsTransitive(a: string, b: string, c: string)
    requires StringAtMost(a, b) && StringAtMost(b, c)
    ensures StringAtMost(a, c)
  {
    if a != [] && a[0] == b[0] && b[0] == c[0] {
      StringsTransitive(a[1..], b[1..], c[1..]);
    }
  }

  lemma StringAtMostIsTotal()
    ensures TotalOrder(STRING_AT_MOST)
  {
    forall a, b ensures STRING_AT_MOST(a, b) || STRING_AT_MOST(b, a) {
      StringsComparable(a, b);
    }
    forall a, b | STRING_AT_MOST(a, b) && STRING_AT_MOST(b, a) ensures a == b {
      StringsComparable(a, b);
    }
    forall a, b, c | STRING_AT_MOST(a, b) && STRING_AT_MOST(b, c) ensures STRING_AT_MOST(a, c) {
      StringsTransitive(a, b, c);
    }
  }

  // ---- Joining with commas and splitting at them ----------------------------------

  function Join(ss: seq<string>): string {
    if ss == [] then "" else if |ss| == 1 then ss[0] else ss[0] + "," + Join(ss[1..])
  }

  /** The pieces of a text with one more character in front. */
  function Prefixed(c: char, pieces: seq<string>): seq<string>
    requires pieces != []
  {
    if c == ',' then [""] + pieces else [[c] + pieces[0]] + pieces[1..]
  }

  function Split(s: string): (pieces: seq<string>)
    ensures |pieces| >= 1
  {
    if s == [] then [""] else Prefixed(s[0], Split(s[1..]))
  }

  /** Every value cut at its commas. Joining an empty list gives the empty text, which reads
      back as one empty value. */
  function Pieces(ss: seq<string>): seq<string> {
    if ss == [] then [""] else if |ss| == 1 then Split(ss[0]) else Split(ss[0]) + Pieces(ss[1..])
  }

  predicate CommaFree(ss: seq<string>) {
    forall s :: s in ss ==> ',' !in s
  }

  lemma JoinPrefixed(c: char, pieces: seq<string>)
    requires pieces != []
    ensures Join(Prefixed(c, pieces)) == [c] + Join(pieces)
  {
  }

  lemma {:induction false} JoinOfSplit(s: string)
    ensures Join(Split(s)) == s
  {
    if s != [] {
      JoinOfSplit(s[1..]);
      JoinPrefixed(s[0], Split(s[1..]));
      assert s == [s[0]] + s[1..];
    }
  }

  lemma PrefixedAppend(c: char, head: seq<string>, tail: seq<string>)
    requires head != []
    ensures Prefixed(c, head + tail) == Prefixed(c, head) + tail
  {
    assert (head + tail)[1..] == head[1..] + tail;
  }

  lemma {:induction false} SplitAtComma(s: string, t: string)
    ensures Split(s + "," + t) == Split(s) + Split(t)
  {
    var whole := s + "," + t;
    if s == [] {
      assert whole == "," + t && whole[1..] == t;
    } else {
      SplitAtComma(s[1..], t);
      assert whole[1..] == s[1..] + "," + t;
      PrefixedAppend(s[0], Split(s[1..]), Split(t));
    }
  }

  lemma {:induction false} SplitOfJoin(ss: seq<string>)
    ensures Split(Join(ss)) == Pieces(ss)
  {
    if |ss| > 1 {
      SplitOfJoin(ss[1..]);
      SplitAtComma(ss[0], Join(ss[1..]));
    }
  }

  /** What a joined text determines, for every pair of lists: the values cut at commas. */
  lemma JoinedEqualIffSamePieces(a: seq<string>, b: seq<string>)
    ensures Join(a) == Join(b) <==> Pieces(a) == Pieces(b)
  {
    SplitOfJoin(a);
    SplitOfJoin(b);
    JoinOfSplit(Join(a));
    JoinOfSplit(Join(b));
  }

  lemma {:induction false} SplitCommaFree(s: string)
    requires ',' !in s
    ensures Split(s) == [s]
  {
    if s != [] {
      SplitCommaFree(s[1..]);
      assert s == [s[0]] + s[1..];
    }
  }

  lemma {:induction false} PiecesCommaFree(ss: seq<string>)
    requires CommaFree(ss)
    ensures Pieces(ss) == if ss == [] then [""] else ss
  {
    if ss != [] {
      SplitCommaFree(ss[0]);
      PiecesCommaFree(ss[1..]);
      assert ss == [ss[0]] + ss[1..];
    }
  }

  // ---- The matcher ----------------------------------------------------------------

  datatype Failure = NoFailure | Missing(value: string) | ExactFailed | NoneFound

  /** A lower-cased, sorted copy. */
  method SortedLower(lower: char -> char, ss: seq<string>) returns (out: array<string>)
    ensures fresh(out) && out[..] == Sort(STRING_AT_MOST, LowerAll(lower, ss))
  {
    out := new string[|ss|](_ => "");
    for i := 0 to |ss|
      invariant forall j :: 0 <= j < i ==> out[j] == Lower(lower, ss[j])
    {
      out[i] := Lower(lower, ss[i]);
    }
    assert out[..] == LowerAll(lower, ss);
    StringAtMostIsTotal();
    SortIsOrderedPermutation(STRING_AT_MOST, LowerAll(lower, ss));
    SortInPlace(STRING_AT_MOST, out);
  }

  /** Equal texts up to upper and lower case. */
  predicate SameText(lower: char -> char, a: string, b: string) {
    |a| == |b| && forall i :: 0 <= i < |a| ==> lower(a[i]) == lower(b[i])
  }

  /** Some value of the list is the text, up to case. */
  predicate Holds(lower: char -> char, values: seq<string>, e: string) {
    exists i :: 0 <= i < |values| && SameText(lower, values[i], e)
  }

  lemma LowerEqualIffSameText(lower: char -> char, a: string, b: string)
    ensures Lower(lower, a) == Lower(lower, b) <==> SameText(lower, a, b)
  {
    if Lower(lower, a) == Lower(lower, b) {
      assert |Lower(lower, a)| == |a| && |Lower(lower, b)| == |b|;
      assert forall i :: 0 <= i < |a| ==> Lower(lower, a)[i] == lower(a[i]) && Lower(lower, b)[i] == lower(b[i]);
    }
  }

  lemma InLowerAllIffHolds(lower: char -> char, values: seq<string>, e: string)
    ensures Lower(lower, e) in LowerAll(lower, values) <==> Holds(lower, values, e)
  {
    assert forall i :: 0 <= i < |values| ==> LowerAll(lower, values)[i] == Lower(lower, values[i]);
    forall i | 0 <= i < |values| ensures Lower(lower, values[i]) == Lower(lower, e) <==> SameText(lower, values[i], e) {
      LowerEqualIffSameText(lower, values[i], e);
    }
  }

  ghost predicate AcceptsAll(lower: char -> char, returned: seq<string>, expected: seq<string>) {
    forall e :: e in expected ==> Holds(lower, returned, e)
  }

  ghost predicate AcceptsAny(lower: char -> char, returned: seq<string>, expected: seq<string>) {
    exists e :: e in expected && Holds(lower, returned, e)
  }

  ghost predicate AcceptsExact(lower: char -> char, returned: seq<string>, expected: seq<string>) {
    Join(Sort(STRING_AT_MOST, LowerAll(lower, returned))) == Join(Sort(STRING_AT_MOST, LowerAll(lower, expected)))
  }

  method LowerSet(lower: char -> char, values: seq<string>) returns (found: set<string>)
    ensures forall v :: v in found <==> v in LowerAll(lower, values)
  {
    found := {};
    for i := 0 to |values|
      invariant forall v :: v in found <==> v in LowerAll(lower, values)[..i]
    {
      found := found + {LowerAll(lower, values)[i]};
    }
  }

  method MatchValues(lower: char -> char, returned: seq<string>, expected: seq<string>, mode: string)
    returns (ok: bool, failure: Failure)
    ensures mode == "all" ==> (ok <==> AcceptsAll(lower, returned, expected))
    ensures mode == "exact" ==> (ok <==> AcceptsExact(lower, returned, expected))
    ensures mode != "all" && mode != "exact" ==> (ok <==> AcceptsAny(lower, returned, expected))
    ensures ok <==> failure == NoFailure
    ensures !ok && mode != "all" ==> failure == if mode == "exact" then ExactFailed else NoneFound
    ensures mode == "all" && !ok ==>
              exists i :: 0 <= i < |expected| && failure == Missing(expected[i])
                          && !Holds(lower, returned, expected[i])
                          && AcceptsAll(lower, returned, expected[..i])
  {
    forall i | 0 <= i < |expected|
      ensures Lower(lower, expected[i]) in LowerAll(lower, returned) <==> Holds(lower, returned, expected[i])
    {
      InLowerAllIffHolds(lower, returned, expected[i]);
    }
    var retSet := LowerSet(lower, returned);
    if mode == "all" {
      for i := 0 to |expected|
        invariant forall j :: 0 <= j < i ==> Holds(lower, returned, expected[j])
      {
        if Lower(lower, expected[i]) !in retSet {
          return false, Missing(expected[i]);
        }
      }
      return true, NoFailure;
    } else if mode == "exact" {
      var sortedRet := SortedLower(lower, returned);
      var sortedExp := SortedLower(lower, expected);
      if Join(sortedRet[..]) != Join(sortedExp[..]) {
        return false, ExactFailed;
      }
      return true, NoFailure;
    } else {
      for i := 0 to |expected|
        invariant forall j :: 0 <= j < i ==> !Holds(lower, returned, expected[j])
      {
        if Lower(lower, expected[i]) in retSet {
          return true, NoFailure;
        }
      }
      return false, NoneFound;
    }
  }

  // ---- What exact mode means ------------------------------------------------------

  /** One list is empty and the other holds only the empty value. */
  predicate EmptyAgainstBlank(returned: seq<string>, expected: seq<string>) {
    (returned == [] && expected == [""]) || (returned == [""] && expected == [])
  }

  lemma LowerKeepsCommaFree(lower: char -> char, ss: seq<string>)
    requires KeepsCommas(lower) && CommaFree(ss)
    ensures CommaFree(LowerAll(lower, ss))
    ensures LowerAll(lower, ss) == [""] <==> ss == [""]
  {
    forall s | s in LowerAll(lower, ss) ensures ',' !in s {
      var i :| 0 <= i < |ss| && s == Lower(lower, ss[i]);
      assert ss[i] in ss;
      forall j | 0 <= j < |s| ensures s[j] != ',' {
        assert ss[i][j] in ss[i];
      }
    }
    if LowerAll(lower, ss) == [""] {
      assert LowerAll(lower, ss)[0] == Lower(lower, ss[0]) == "";
      assert |Lower(lower, ss[0])| == |ss[0]|;
    }
  }

  lemma SortKeepsCommaFree(ss: seq<string>)
    requires CommaFree(ss)
    ensures CommaFree(Sort(STRING_AT_MOST, ss)) && |Sort(STRING_AT_MOST, ss)| == |ss|
    ensures Sort(STRING_AT_MOST, ss) == [""] <==> ss == [""]
  {
    StringAtMostIsTotal();
    SortIsOrderedPermutation(STRING_AT_MOST, ss);
    forall s | s in Sort(STRING_AT_MOST, ss) ensures ',' !in s {
      assert s in multiset(ss);
    }
    if |ss| == 1 {
      assert ss[0] in multiset(Sort(STRING_AT_MOST, ss));
    }
  }

  /** The meaning of exact mode on values without commas: the lower-cased lists are equal as
      multisets, except that no value and one empty value are taken for each other. */
  lemma ExactIffSameMultiset(lower: char -> char, returned: seq<string>, expected: seq<string>)
    requires KeepsCommas(lower) && CommaFree(returned) && CommaFree(expected)
    ensures AcceptsExact(lower, returned, expected) <==>
              || multiset(LowerAll(lower, returned)) == multiset(LowerAll(lower, expected))
              || EmptyAgainstBlank(returned, expected)
  {
    var a, b := LowerAll(lower, returned), LowerAll(lower, expected);
    LowerKeepsCommaFree(lower, returned);
    LowerKeepsCommaFree(lower, expected);
    SortKeepsCommaFree(a);
    SortKeepsCommaFree(b);
    PiecesCommaFree(Sort(STRING_AT_MOST, a));
    PiecesCommaFree(Sort(STRING_AT_MOST, b));
    JoinedEqualIffSamePieces(Sort(STRING_AT_MOST, a), Sort(STRING_AT_MOST, b));
    StringAtMostIsTotal();
    SortedEqualIffSameMultiset(STRING_AT_MOST, a, b);
  }

  /** The comparison the code's comment promises. */
  ghost predicate SameSet(lower: char -> char, returned: seq<string>, expected: seq<string>) {
    (forall e :: e in expected ==> Holds(lower, returned, e)) && forall r :: r in returned ==> Holds(lower, expected, r)
  }

  lemma SameSetOfLower(lower: char -> char, returned: seq<string>, expected: seq<string>)
    ensures SameSet(lower, returned, expected)
       <==> forall v :: v in LowerAll(lower, returned) <==> v in LowerAll(lower, expected)
  {
    var a, b := LowerAll(lower, returned), LowerAll(lower, expected);
    IncludedIffHeld(lower, returned, expected);
    IncludedIffHeld(lower, expected, returned);
    assert (forall v :: v in a <==> v in b) <==> (forall v :: v in a ==> v in b) && (forall v :: v in b ==> v in a);
  }

  lemma IncludedIffHeld(lower: char -> char, values: seq<string>, others: seq<string>)
    ensures (forall o :: o in others ==> Holds(lower, values, o))
       <==> forall v :: v in LowerAll(lower, others) ==> v in LowerAll(lower, values)
  {
    var b := LowerAll(lower, others);
    forall i | 0 <= i < |others| ensures b[i] in LowerAll(lower, values) <==> Holds(lower, values, others[i]) {
      InLowerAllIffHolds(lower, values, others[i]);
    }
    if forall v :: v in b ==> v in LowerAll(lower, values) {
      forall o | o in others ensures Holds(lower, values, o) {
        var i :| 0 <= i < |others| && others[i] == o;
        assert b[i] in b;
      }
    }
  }

  /** On values without commas exact mode does what its comment promises if and only if the
      lists are not the blank exception and, should they hold the same values, hold each of
      them equally often. */
  lemma ExactIsSetEqualityIff(lower: char -> char, returned: seq<string>, expected: seq<string>)
    requires KeepsCommas(lower) && CommaFree(returned) && CommaFree(expected)
    ensures var a, b := multiset(LowerAll(lower, returned)), multiset(LowerAll(lower, expected));
            (AcceptsExact(lower, returned, expected) <==> SameSet(lower, returned, expected))
            <==> !EmptyAgainstBlank(returned, expected)
                 && (SameSet(lower, returned, expected) ==> forall v :: v in a ==> a[v] == b[v])
  {
    var a, b := LowerAll(lower, returned), LowerAll(lower, expected);
    ExactIffSameMultiset(lower, returned, expected);
    SameSetOfLower(lower, returned, expected);
    assert forall v :: v in a <==> v in multiset(a);
    assert forall v :: v in b <==> v in multiset(b);
    if EmptyAgainstBlank(returned, expected) {
      BlankIsNotEmpty(lower);
    } else if SameSet(lower, returned, expected) {
      assert (forall v :: v in multiset(a) ==> multiset(a)[v] == multiset(b)[v]) ==> multiset(a) == multiset(b);
    }
  }

  lemma BlankIsNotEmpty(lower: char -> char)
    ensures !SameSet(lower, [], [""]) && !SameSet(lower, [""], [])
  {
    assert "" in [""] && !Holds(lower, [], "");
  }

  lemma {:induction false} DistinctMultiplicity(ss: seq<string>, s: string)
    requires Distinct(ss)
    ensures multiset(ss)[s] == if s in ss then 1 else 0
  {
    if ss != [] {
      var before, last := ss[..|ss| - 1], ss[|ss| - 1];
      DistinctMultiplicity(before, s);
      assert ss == before + [last];
      assert last !in before;
    }
  }

  /** In particular it does so on lists without repeats, up to the blank exception. */
  lemma ExactIsSetEqualityWithoutRepeats(lower: char -> char, returned: seq<string>, expected: seq<string>)
    requires KeepsCommas(lower) && CommaFree(returned) && CommaFree(expected)
    requires Distinct(LowerAll(lower, returned)) && Distinct(LowerAll(lower, expected))
    ensures AcceptsExact(lower, returned, expected) <==>
              SameSet(lower, returned, expected) || EmptyAgainstBlank(returned, expected)
  {
    var a, b := LowerAll(lower, returned), LowerAll(lower, expected);
    ExactIffSameMultiset(lower, returned, expected);
    ExactIsSetEqualityIff(lower, returned, expected);
    SameSetOfLower(lower, returned, expected);
    forall v | v in multiset(a) && SameSet(lower, returned, expected) ensures multiset(a)[v] == multiset(b)[v] {
      DistinctMultiplicity(a, v);
      DistinctMultiplicity(b, v);
    }
  }

  /** On all values, with commas or without: exact mode accepts if and only if the sorted lists
      agree once every value is cut at its commas. Equal multisets always agree; unequal ones
      agree only with a comma among the values or in the blank exception. */
  lemma ExactOnAllValues(lower: char -> char, returned: seq<string>, expected: seq<string>)
    ensures var a, b := LowerAll(lower, returned), LowerAll(lower, expected);
            var sameCut := Pieces(Sort(STRING_AT_MOST, a)) == Pieces(Sort(STRING_AT_MOST, b));
            && (AcceptsExact(lower, returned, expected) <==> sameCut)
            && (multiset(a) == multiset(b) ==> sameCut)
            && (sameCut && multiset(a) != multiset(b) ==> !CommaFree(a) || !CommaFree(b) || EmptyAgainstBlank(a, b))
  {
    var a, b := LowerAll(lower, returned), LowerAll(lower, expected);
    JoinedEqualIffSamePieces(Sort(STRING_AT_MOST, a), Sort(STRING_AT_MOST, b));
    StringAtMostIsTotal();
    SortedEqualIffSameMultiset(STRING_AT_MOST, a, b);
    if CommaFree(a) && CommaFree(b) {
      SortKeepsCommaFree(a);
      SortKeepsCommaFree(b);
      PiecesCommaFree(Sort(STRING_AT_MOST, a));
      PiecesCommaFree(Sort(STRING_AT_MOST, b));
    }
  }

  /** On values without commas an exact match meets all expectations, unless nothing came back
      where one empty value was expected; and meeting all of at least one meets any. */
  lemma ExactImpliesAllImpliesAny(lower: char -> char, returned: seq<string>, expected: seq<string>)
    requires KeepsCommas(lower) && CommaFree(returned) && CommaFree(expected)
    ensures AcceptsExact(lower, returned, expected) ==>
              (AcceptsAll(lower, returned, expected) <==> !(returned == [] && expected == [""]))
    ensures AcceptsAll(lower, returned, expected) ==>
              (AcceptsAny(lower, returned, expected) <==> expected != [])
  {
    ExactIffSameMultiset(lower, returned, expected);
    var a, b := LowerAll(lower, returned), LowerAll(lower, expected);
    if multiset(a) == multiset(b) {
      assert |multiset(a)| == |a| && |multiset(b)| == |b|;
      forall e | e in expected ensures Holds(lower, returned, e) {
        var i :| 0 <= i < |expected| && expected[i] == e;
        assert b[i] in multiset(a);
        InLowerAllIffHolds(lower, returned, e);
      }
    }
    if expected != [] {
      assert expected[0] in expected;
    }
    if expected == [""] {
      assert "" in expected;
    }
  }

  const SAME_CASE: char -> char := c => c

  /** Commas and repeats break the promise: one value with a comma passes for two values, and a
      repeated answer fails against the same value expected once. */
  lemma ExactIsNotSetEquality()
    ensures AcceptsExact(SAME_CASE, ["a,b"], ["a", "b"]) && !AcceptsAll(SAME_CASE, ["a,b"], ["a", "b"])
    ensures !AcceptsExact(SAME_CASE, ["a", "a"], ["a"]) && SameSet(SAME_CASE, ["a", "a"], ["a"])
  {
    assert "a" in ["a", "b"] && !SameText(SAME_CASE, "a,b", "a");
    assert SameText(SAME_CASE, ["a", "a"][0], "a") && SameText(SAME_CASE, ["a"][0], "a");
  }
}
