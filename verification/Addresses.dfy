/** IP addresses as a family and a number, and prefixes in the CIDR notation of section 3.1 of
    RFC 4632. */
module Addresses {

  function Pow2(n: nat): (p: nat)
    ensures p >= 1
  {
    if n == 0 then 1 else 2 * Pow2(n - 1)
  }

  /** n without its low h bits, and q with h zero bits behind it. */
  function Shr(n: nat, h: nat): nat {
    if h == 0 then n else Shr(n / 2, h - 1)
  }

  function Shl(q: nat, h: nat): nat {
    if h == 0 then q else 2 * Shl(q, h - 1)
  }

  /** The numbers that agree but for their low h bits are an interval. */
  lemma {:induction false} ShrIsInterval(n: nat, h: nat, q: nat)
    ensures Shr(n, h) == q <==> Shl(q, h) <= n < Shl(q, h) + Pow2(h)
  {
    if h > 0 {
      ShrIsInterval(n / 2, h - 1, q);
    }
  }

  /** Blocks of 2^h numbers do not straddle the end of a range of 2^w. */
  lemma {:induction false} BlockFits(n: nat, h: nat, w: nat)
    requires h <= w && n < Pow2(w)
    ensures Shl(Shr(n, h), h) + Pow2(h) <= Pow2(w)
  {
    if h > 0 {
      BlockFits(n / 2, h - 1, w - 1);
    } else {
      assert Pow2(0) == 1;
    }
  }

  /** `Nowhere` is the zero address: what the successor of the top address is. */
  datatype Addr = Nowhere | V4(n: nat) | V6(n: nat)

  function Width(a: Addr): nat {
    match a case Nowhere => 0 case V4(_) => 32 case V6(_) => 128
  }

  predicate ValidAddr(a: Addr) {
    !a.Nowhere? && a.n < Pow2(Width(a))
  }

  function Successor(a: Addr): Addr {
    match a
    case Nowhere => Nowhere
    case V4(n) => if n + 1 < Pow2(32) then V4(n + 1) else Nowhere
    case V6(n) => if n + 1 < Pow2(128) then V6(n + 1) else Nowhere
  }

  /** A parsed prefix; the address need not be the network address. */
  datatype Prefix = Prefix(addr: Addr, bits: nat) {
    predicate Valid() {
      ValidAddr(addr) && bits <= Width(addr)
    }

    function HostBits(): nat
      requires Valid()
    {
      Width(addr) - bits
    }

    function Network(): nat
      requires Valid()
    {
      Shl(Shr(addr.n, HostBits()), HostBits())
    }

    /** The last address of the range: all host bits set. */
    function Last(): nat
      requires Valid()
    {
      Network() + Pow2(HostBits()) - 1
    }

    predicate Contains(a: Addr)
      requires Valid()
    {
      !a.Nowhere? && a.V4? == addr.V4? && Shr(a.n, HostBits()) == Shr(addr.n, HostBits())
    }

    function Masked(): (p: Prefix)
      requires Valid()
    {
      Prefix(if addr.V4? then V4(Network()) else V6(Network()), bits)
    }

    /** An IPv4 range of at least four addresses loses its first and last; section 2.1 of
        RFC 3021 makes both addresses of a /31 usable. */
    predicate Trims()
    {
      addr.V4? && bits < 31
    }

    /** What a host of the prefix is. */
    predicate IsHost(a: Addr)
      requires Valid()
    {
      Contains(a) && (Trims() ==> a.n != Network() && a.n != Last())
    }
  }

  /** Membership is an interval. */
  lemma ContainsIsInterval(p: Prefix, a: Addr)
    requires p.Valid()
    ensures p.Contains(a) <==> !a.Nowhere? && a.V4? == p.addr.V4? && p.Network() <= a.n <= p.Last()
    ensures p.Network() <= p.addr.n <= p.Last()
  {
    var q := Shr(p.addr.n, p.HostBits());
    ShrIsInterval(p.addr.n, p.HostBits(), q);
    if !a.Nowhere? {
      ShrIsInterval(a.n, p.HostBits(), q);
    }
  }

  /** The range ends within the address space. */
  lemma LastFits(p: Prefix)
    requires p.Valid()
    ensures p.Last() < Pow2(Width(p.addr))
  {
    BlockFits(p.addr.n, p.HostBits(), Width(p.addr));
  }

  /** Masking keeps the range and is already done on a network address. */
  lemma MaskedSameRange(p: Prefix)
    requires p.Valid()
    ensures p.Masked().Valid() && p.Masked().Network() == p.Network() && p.Masked().Last() == p.Last()
    ensures p.Masked().Masked() == p.Masked() && p.Masked().addr.n == p.Network()
    ensures forall a :: p.Masked().Contains(a) <==> p.Contains(a)
  {
    ContainsIsInterval(p, p.addr);
    LastFits(p);
    ShrIsInterval(p.Network(), p.HostBits(), Shr(p.addr.n, p.HostBits()));
  }
}
