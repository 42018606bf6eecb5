/** Host enumeration: the bit loop for the broadcast address and the walk over the range. */
module Hosts {
  import opened Basics
  import opened Bytes
  import opened Addresses

  // ---- The broadcast loop ---------------------------------------------------------

  /** a with its low h bits set. */
  function WithLowBits(a: nat, h: nat): nat {
    Shl(Shr(a, h), h) + Pow2(h) - 1
  }

  predicate BitSet(v: nat, i: nat) {
    Shr(v, i) % 2 == 1
  }

  lemma {:induction false} ShrAdds(v: nat, m: nat, n: nat)
    ensures Shr(v, m + n) == Shr(Shr(v, m), n)
  {
    if m > 0 {
      ShrAdds(v / 2, m - 1, n);
    }
  }

  lemma {:induction false} ShlAdds(q: nat, m: nat, n: nat)
    ensures Shl(q, m + n) == Shl(Shl(q, m), n)
  {
    if n > 0 {
      ShlAdds(q, m, n - 1);
    }
  }

  lemma {:induction false} Pow2Shifted(m: nat, n: nat)
    ensures Pow2(m + n) == Shl(Pow2(m), n)
  {
    if n > 0 {
      Pow2Shifted(m, n - 1);
    }
  }

  /** Adding a number of more than `bit` zero low bits does not change a bit. */
  lemma {:induction false} LowBitUnchanged(hi: nat, b: nat, k: nat, bit: nat)
    requires bit < k
    ensures BitSet(Shl(hi, k) + b, bit) <==> BitSet(b, bit)
  {
    if bit > 0 {
      LowBitUnchanged(hi, b / 2, k - 1, bit - 1);
    }
  }

  // ---- Bits of bytes --------------------------------------------------------------

  lemma ShlBytes(x: nat)
    ensures Shl(x, 0) == x && Shl(x, 8) == 256 * x && Shl(x, 16) == 65536 * x && Shl(x, 24) == 16777216 * x
  {
    ShlByte(x);
    ShlAdds(x, 8, 8);
    ShlByte(256 * x);
    ShlAdds(x, 16, 8);
    ShlByte(65536 * x);
  }

  lemma ShlByte(x: nat)
    ensures Shl(x, 8) == 256 * x && Pow2(8) == 256
  {
    assert Shl(x, 1) == 2 * x && Pow2(1) == 2;
    assert Shl(x, 2) == 4 * x && Pow2(2) == 4;
    assert Shl(x, 4) == 16 * x && Pow2(4) == 16;
    assert Shl(x, 6) == 64 * x && Pow2(6) == 64;
  }

  lemma NextWeight(b: Byte, bit: nat)
    requires 0 < bit < 8
    ensures Weight(bit) == 2 * Weight(bit - 1) && b / Weight(bit) == b / Weight(bit - 1) / 2
  {
  }

  lemma {:induction false} BitOfByte(b: Byte, bit: nat)
    requires bit < 8
    ensures Weight(bit) == Pow2(bit) && Shr(b, bit) == b / Weight(bit)
  {
    if bit > 0 {
      BitOfByte(b, bit - 1);
      NextWeight(b, bit);
      ShrAdds(b, bit - 1, 1);
      ShrOne(Shr(b, bit - 1));
    }
  }

  lemma ShrOne(n: nat)
    ensures Shr(n, 1) == n / 2
  {
    assert Shr(n / 2, 0) == n / 2;
  }

  /** The number of the bytes up to the one at `j`. */
  function Head(b: seq<Byte>, j: nat): nat
    requires |b| == 4 && j < 4
  {
    if j == 0 then b[0] else Head(b, j - 1) * 256 + b[j]
  }

  lemma {:induction false} HeadIsShifted(b: seq<Byte>, j: nat)
    requires |b| == 4 && j < 4
    ensures Shr(FromBytes(b), 8 * (3 - j)) == Head(b, j)
    decreases 3 - j
  {
    if j == 3 {
      assert Head(b, 1) == b[0] as int * 256 + b[1] as int;
      assert Head(b, 2) == Head(b, 1) * 256 + b[2];
    } else {
      HeadIsShifted(b, j + 1);
      ShrAdds(FromBytes(b), 8 * (2 - j), 8);
      ShlByte(Head(b, j));
      ShrIsInterval(Head(b, j + 1), 8, Head(b, j));
    }
  }

  /** Bit i of the number is bit i % 8 of byte 3 - i / 8. */
  lemma BitOfNumber(b: seq<Byte>, j: nat, bit: nat)
    requires |b| == 4 && j < 4 && bit < 8
    ensures BitSet(FromBytes(b), 8 * (3 - j) + bit) <==> BitSet(b[j], bit)
  {
    HeadIsShifted(b, j);
    ShrAdds(FromBytes(b), 8 * (3 - j), bit);
    var above := if j == 0 then 0 else Head(b, j - 1);
    ShlByte(above);
    LowBitUnchanged(above, b[j], 8, bit);
  }

  lemma BytesPlus(b: seq<Byte>, j: nat, w: nat)
    requires |b| == 4 && j < 4 && b[j] + w < 256
    ensures FromBytes(b[j := b[j] + w]) == FromBytes(b) + Shl(w, 8 * (3 - j))
  {
    ShlBytes(w);
    var b' := b[j := b[j] + w];
    assert forall k :: 0 <= k < 4 && k != j ==> b'[k] == b[k];
  }

  /** Setting bit i % 8 of byte 3 - i / 8 sets bit i of the number. */
  lemma SetBitOfNumber(b: seq<Byte>, i: nat)
    requires |b| == 4 && i < 32
    ensures FromBytes(b[3 - i / 8 := SetBit(b[3 - i / 8], i % 8)])
         == FromBytes(b) + if BitSet(FromBytes(b), i) then 0 else Pow2(i)
  {
    var j, bit := 3 - i / 8, i % 8;
    assert 8 * (3 - j) + bit == i;
    BitOfNumber(b, j, bit);
    BitOfByte(b[j], bit);
    if BitSet(b[j], bit) {
      assert b[j := b[j]] == b;
    } else {
      BitRoom(b[j], bit);
      BytesPlus(b, j, Weight(bit));
      Pow2Shifted(bit, 8 * (3 - j));
    }
  }

  // ---- The loop -------------------------------------------------------------------

  lemma {:induction false} ShlHalf(q: nat, i: nat)
    ensures Shl(q, i) == Shl(q / 2, i + 1) + if q % 2 == 1 then Pow2(i) else 0
  {
    if i > 0 {
      ShlHalf(q, i - 1);
    } else {
      assert Shl(q / 2, 1) == 2 * Shl(q / 2, 0);
    }
  }

  lemma LowBitsGrow(a: nat, i: nat)
    ensures WithLowBits(a, i + 1) == WithLowBits(a, i) + if BitSet(WithLowBits(a, i), i) then 0 else Pow2(i)
  {
    ShrIsInterval(WithLowBits(a, i), i, Shr(a, i));
    ShrAdds(a, i, 1);
    assert Shr(a, i + 1) == Shr(a, i) / 2;
    ShlHalf(Shr(a, i), i);
  }

  /** The byte loop: it sets the host bits one by one, in place, and so computes the address
      with all of them set. */
  method SetHostBits(b: array<Byte>, hostBits: nat)
    requires b.Length == 4 && hostBits <= 32
    modifies b
    ensures FromBytes(b[..]) == WithLowBits(old(FromBytes(b[..])), hostBits)
  {
    ghost var a := FromBytes(b[..]);
    for i := 0 to hostBits
      invariant FromBytes(b[..]) == WithLowBits(a, i)
    {
      var byteIdx := 3 - i / 8;
      var bitIdx := i % 8;
      ghost var before := b[..];
      SetBitOfNumber(before, i);
      LowBitsGrow(a, i);
      b[byteIdx] := SetBit(b[byteIdx], bitIdx);
      assert b[..] == before[byteIdx := SetBit(before[byteIdx], bitIdx)];
    }
  }

  lemma AddressSpace()
    ensures Pow2(32) == 4294967296
  {
    ShlByte(256);
    Pow2Shifted(8, 24);
    ShlBytes(256);
  }

  method Broadcast(first: nat, bits: nat) returns (broadcast: nat)
    requires first < Pow2(32) && bits <= 32
    ensures broadcast == WithLowBits(first, 32 - bits)
  {
    AddressSpace();
    var bytes := ToBytes(first);
    var b := new Byte[4](i requires 0 <= i < 4 => bytes[i]);
    assert b[..] == bytes;
    SetHostBits(b, 32 - bits);
    broadcast := FromBytes(b[..]);
  }

  // ---- The walk -------------------------------------------------------------------

  datatype Enumeration = InvalidCidr | Ipv6Unsupported | Addresses(addrs: seq<Addr>)

  /** The IPv4 addresses lo, lo + 1, .., hi - 1. */
  function Interval(lo: nat, hi: nat): (s: seq<Addr>)
    ensures |s| == if lo <= hi then hi - lo else 0
    ensures forall k :: 0 <= k < |s| ==> s[k] == V4(lo + k)
  {
    seq(if lo <= hi then hi - lo else 0, k requires k >= 0 => V4(lo + k))
  }

  lemma IntervalGrows(lo: nat, n: nat)
    requires lo <= n
    ensures Interval(lo, n + 1) == Interval(lo, n) + [V4(n)]
  {
  }

  function FirstHost(p: Prefix): nat
    requires p.Valid()
  {
    if p.Trims() then p.addr.n + 1 else p.addr.n
  }

  /** One past the last host. */
  function HostLimit(p: Prefix): nat
    requires p.Valid()
  {
    if p.Trims() then p.Last() else p.Last() + 1
  }

  /** Lists the hosts of an IPv4 prefix; None stands for text that does not parse. It
      terminates on every prefix, also on ranges that end at 255.255.255.255. */
  method EnumerateIPv4Hosts(cidr: Option<Prefix>) returns (r: Enumeration)
    requires cidr.Some? ==> cidr.value.Valid()
    ensures cidr.None? ==> r == InvalidCidr
    ensures cidr.Some? && cidr.value.addr.V6? ==> r == Ipv6Unsupported
    ensures cidr.Some? && cidr.value.addr.V4? ==>
              r == Addresses(Interval(FirstHost(cidr.value), HostLimit(cidr.value)))
  {
    if cidr.None? {
      return InvalidCidr;
    }
    var p := cidr.value;
    if !p.addr.V4? {
      return Ipv6Unsupported;
    }
    var first := p.addr;
    var broadcast := Nowhere;
    WalkStart(p);
    if p.bits < 31 {
      var last := Broadcast(first.n, p.bits);
      broadcast := V4(last);
      first := Successor(first);
    }
    assert broadcast == BroadcastOf(p);
    var out := [];
    var cur := first;
    ghost var lo, n := FirstHost(p), FirstHost(p);
    while p.Contains(cur)
      invariant lo <= n && cur == At(n) && Reached(p, n)
      invariant out == Interval(lo, n)
      decreases Pow2(32) - n
    {
      WalkStep(p, n);
      if p.bits < 31 && cur == broadcast {
        break;
      }
      out := out + [cur];
      cur := Successor(cur);
      n := n + 1;
    }
    WalkEnd(p, n);
    return Addresses(out);
  }

  /** The address a loop over the range stops at. */
  function BroadcastOf(p: Prefix): Addr
    requires p.Valid()
  {
    if p.Trims() then V4(p.Last()) else Nowhere
  }

  /** The n-th IPv4 address, or no address past the top. */
  function At(n: nat): Addr {
    if n < Pow2(32) then V4(n) else Nowhere
  }

  /** How far the walk can be: at its start, or at most one past the last host. */
  ghost predicate Reached(p: Prefix, n: nat)
    requires p.Valid()
  {
    p.Network() <= n && (n <= HostLimit(p) || n == FirstHost(p))
  }

  lemma WalkStart(p: Prefix)
    requires p.Valid() && p.addr.V4?
    ensures At(FirstHost(p)) == (if p.Trims() then Successor(p.addr) else p.addr)
    ensures Reached(p, FirstHost(p)) && Interval(FirstHost(p), FirstHost(p)) == []
    ensures BroadcastOf(p) == if p.bits < 31 then V4(WithLowBits(p.addr.n, 32 - p.bits)) else Nowhere
  {
    RangeFacts(p);
  }

  lemma WalkStep(p: Prefix, n: nat)
    requires p.Valid() && p.addr.V4? && Reached(p, n) && p.Contains(At(n)) && FirstHost(p) <= n
    ensures n < Pow2(32) && At(n) == V4(n) && Successor(V4(n)) == At(n + 1)
    ensures Interval(FirstHost(p), n + 1) == Interval(FirstHost(p), n) + [V4(n)]
    ensures !(p.bits < 31 && At(n) == BroadcastOf(p)) ==> Reached(p, n + 1)
  {
    ContainsInRange(p, n);
    IntervalGrows(FirstHost(p), n);
  }

  lemma WalkEnd(p: Prefix, n: nat)
    requires p.Valid() && p.addr.V4? && Reached(p, n) && FirstHost(p) <= n
    requires !p.Contains(At(n)) || (p.bits < 31 && At(n) == BroadcastOf(p))
    ensures Interval(FirstHost(p), n) == Interval(FirstHost(p), HostLimit(p))
  {
    ContainsInRange(p, n);
  }

  lemma RangeFacts(p: Prefix)
    requires p.Valid() && p.addr.V4?
    ensures WithLowBits(p.addr.n, 32 - p.bits) == p.Last() < Pow2(32)
    ensures p.Network() <= p.addr.n <= p.Last()
  {
    LastFits(p);
    ContainsIsInterval(p, p.addr);
  }

  lemma ContainsInRange(p: Prefix, n: nat)
    requires p.Valid() && p.addr.V4? && n >= p.Network()
    ensures p.Contains(At(n)) <==> n <= p.Last()
    ensures p.Last() < Pow2(32)
  {
    LastFits(p);
    ContainsIsInterval(p, At(n));
  }

  /** On a masked IPv4 prefix the list holds every host exactly once, in ascending order, and
      nothing else. */
  lemma ListsExactlyTheHosts(p: Prefix)
    requires p.Valid() && p.addr.V4? && p.Masked() == p
    ensures var hosts := Interval(FirstHost(p), HostLimit(p));
            && (forall i, j :: 0 <= i < j < |hosts| ==> hosts[i].n < hosts[j].n)
            && (forall a :: a in hosts <==> p.IsHost(a))
  {
    var hosts := Interval(FirstHost(p), HostLimit(p));
    MaskedSameRange(p);
    forall a ensures a in hosts <==> p.IsHost(a) {
      ContainsIsInterval(p, a);
      if p.IsHost(a) {
        assert hosts[a.n - FirstHost(p)] == a;
      }
    }
  }

  /** What is listed for an unmasked prefix: the hosts after its address (from it, when the
      range is not trimmed). The addresses before it are skipped. */
  lemma UnmaskedListsTheRest(p: Prefix)
    requires p.Valid() && p.addr.V4?
    ensures p.Masked().Valid()
    ensures forall a :: a in Interval(FirstHost(p), HostLimit(p)) <==>
              p.Masked().IsHost(a) && a.n >= FirstHost(p)
  {
    MaskedSameRange(p);
    ContainsIsInterval(p, p.addr);
    var hosts := Interval(FirstHost(p), HostLimit(p));
    forall a ensures a in hosts <==> p.Masked().IsHost(a) && a.n >= FirstHost(p) {
      ContainsIsInterval(p, a);
      if p.Masked().IsHost(a) && a.n >= FirstHost(p) {
        assert hosts[a.n - FirstHost(p)] == a;
      }
    }
  }

  /** A trimmed range has at least four addresses. */
  lemma SmallestRange(p: Prefix)
    requires p.Valid() && p.Trims()
    ensures p.Last() >= p.Network() + 3
  {
    var h := p.HostBits();
    assert Pow2(h) == 2 * Pow2(h - 1) && Pow2(h - 1) == 2 * Pow2(h - 2);
  }

  /** The first host of the masked range comes before the walk over an unmasked prefix. */
  lemma FirstIsSkipped(p: Prefix) returns (skipped: Addr)
    requires p.Valid() && p.addr.V4? && p.Masked() != p
    ensures p.Masked().Valid() && p.Masked().IsHost(skipped) && skipped.n < FirstHost(p)
  {
    MaskedSameRange(p);
    RangeFacts(p);
    if p.Trims() {
      SmallestRange(p);
    }
    skipped := V4(if p.Trims() then p.Network() + 1 else p.Network());
    ContainsIsInterval(p.Masked(), skipped);
  }

  /** So the list is complete if and only if the prefix is masked. */
  lemma CompleteIffMasked(p: Prefix)
    requires p.Valid() && p.addr.V4?
    ensures p.Masked().Valid()
    ensures (forall a :: p.Masked().IsHost(a) ==> a in Interval(FirstHost(p), HostLimit(p))) <==> p.Masked() == p
  {
    UnmaskedListsTheRest(p);
    if p.Masked() == p {
      ListsExactlyTheHosts(p);
    } else {
      var skipped := FirstIsSkipped(p);
      assert skipped !in Interval(FirstHost(p), HostLimit(p));
    }
  }

  /** For instance the scan of 0.0.0.5/29 skips its hosts 0.0.0.1 to 0.0.0.5. */
  lemma UnmaskedSkips()
    ensures var p := Prefix(V4(5), 29);
            && p.Valid() && p.Masked().Valid()
            && Interval(FirstHost(p), HostLimit(p)) == [V4(6)]
            && forall n :: 1 <= n <= 5 ==> p.Masked().IsHost(V4(n))
  {
    var p := Prefix(V4(5), 29);
    AddressSpace();
    assert Shr(5, 3) == 0 by {
      assert Shr(2, 2) == Shr(1, 1) == Shr(0, 0) == 0;
    }
    assert Pow2(3) == 8 && Shl(0, 3) == 0;
    assert p.Network() == 0 && p.Last() == 7;
    MaskedSameRange(p);
    forall n | 1 <= n <= 5 ensures p.Masked().IsHost(V4(n)) {
      ContainsIsInterval(p, V4(n));
    }
  }
}
