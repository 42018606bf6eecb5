/** The next available address of a prefix, repeated allocation, and utilization counts: three
    computations that must agree on what a host is. */
module Allocation {
  import opened Basics
  import opened Addresses
  import opened Hosts

  datatype NextResult = BadCidr | Exhausted | Available(addr: Addr)

  /** The addresses among the stored texts; None stands for text that does not parse. */
  function Parsed(existing: seq<Option<Addr>>): set<Addr> {
    set o | o in existing && o.Some? :: o.value
  }

  /** The promise: the least host not in use, and failure only if every host is in use. */
  ghost predicate IsNext(p: Prefix, used: set<Addr>, r: NextResult)
    requires p.Valid()
  {
    match r
    case BadCidr => false
    case Exhausted => forall b :: p.IsHost(b) ==> b in used
    case Available(a) => p.IsHost(a) && a !in used && forall b :: p.IsHost(b) && b.n < a.n ==> b in used
  }

  /** The n-th address of the prefix's family, or no address past the top. */
  function InFamily(p: Prefix, n: nat): Addr
    requires p.Valid()
  {
    if n >= Pow2(Width(p.addr)) then Nowhere else if p.addr.V4? then V4(n) else V6(n)
  }

  lemma ContainsInFamily(p: Prefix, n: nat)
    requires p.Valid() && n >= p.Network()
    ensures p.Contains(InFamily(p, n)) <==> n <= p.Last()
    ensures p.Last() < Pow2(Width(p.addr))
    ensures p.Contains(InFamily(p, n)) ==> InFamily(p, n).n == n && Successor(InFamily(p, n)) == InFamily(p, n + 1)
  {
    LastFits(p);
    ContainsIsInterval(p, InFamily(p, n));
  }

  lemma HostNumber(p: Prefix, b: Addr)
    requires p.Valid() && p.IsHost(b)
    ensures b == InFamily(p, b.n) && p.Network() <= b.n <= p.Last()
  {
    LastFits(p);
    ContainsIsInterval(p, b);
  }

  /** The lookup set of the addresses in use. */
  method BuildSet(existing: seq<Option<Addr>>) returns (existingSet: set<Addr>)
    ensures existingSet == Parsed(existing)
  {
    existingSet := {};
    for i := 0 to |existing|
      invariant existingSet == Parsed(existing[..i])
    {
      assert existing[..i + 1] == existing[..i] + [existing[i]];
      if existing[i].Some? {
        existingSet := existingSet + {existing[i].value};
      }
    }
    assert existing[..|existing|] == existing;
  }

  /** Every host below n is in use. */
  ghost predicate UsedBelow(p: Prefix, used: set<Addr>, n: nat)
    requires p.Valid()
  {
    forall b :: p.IsHost(b) && b.n < n ==> b in used
  }

  /** The search stands at n: past the network address of a trimmed range, all used below. */
  ghost predicate Searched(p: Prefix, used: set<Addr>, n: nat)
    requires p.Valid()
  {
    n >= p.Network() && (p.Trims() ==> n > p.Network()) && UsedBelow(p, used, n)
  }

  lemma SearchStarts(p: Prefix, used: set<Addr>)
    requires p.Valid() && p.Masked() == p
    ensures if p.Trims() then Successor(p.addr) == InFamily(p, p.addr.n + 1) && Searched(p, used, p.addr.n + 1)
            else p.addr == InFamily(p, p.addr.n) && Searched(p, used, p.addr.n)
    ensures BroadcastOf(p) == if p.addr.V4? && p.bits < 31 then V4(WithLowBits(p.addr.n, 32 - p.bits)) else Nowhere
    ensures p.addr.V4? ==> p.addr.n < Pow2(32)
  {
    MaskedSameRange(p);
    LastFits(p);
    ContainsIsInterval(p, p.addr);
    forall b | p.IsHost(b) ensures b.n >= p.Network() {
      HostNumber(p, b);
    }
  }

  lemma SearchFinds(p: Prefix, used: set<Addr>, n: nat)
    requires p.Valid() && Searched(p, used, n) && p.Contains(InFamily(p, n)) && InFamily(p, n) !in used
    requires InFamily(p, n) != BroadcastOf(p)
    ensures IsNext(p, used, Available(InFamily(p, n)))
  {
  }

  lemma SearchMoves(p: Prefix, used: set<Addr>, n: nat)
    requires p.Valid() && Searched(p, used, n) && p.Contains(InFamily(p, n)) && InFamily(p, n) in used
    ensures Searched(p, used, n + 1) && Successor(InFamily(p, n)) == InFamily(p, n + 1) && n < Pow2(Width(p.addr))
  {
  }

  lemma SearchEnds(p: Prefix, used: set<Addr>, n: nat)
    requires p.Valid() && Searched(p, used, n)
    requires !p.Contains(InFamily(p, n)) || InFamily(p, n) == BroadcastOf(p)
    ensures IsNext(p, used, Exhausted)
  {
    ContainsInFamily(p, n);
    forall b | p.IsHost(b) ensures b in used {
      HostNumber(p, b);
    }
  }

  /** The search over a masked prefix. */
  method FindFree(p: Prefix, existingSet: set<Addr>) returns (r: NextResult)
    requires p.Valid() && p.Masked() == p
    ensures IsNext(p, existingSet, r)
  {
    SearchStarts(p, existingSet);
    var broadcast := Nowhere;
    ghost var n := p.addr.n;
    var currentIP := p.addr;
    if p.addr.V4? && p.bits < 31 {
      var last := Broadcast(p.addr.n, p.bits);
      broadcast := V4(last);
      currentIP := Successor(currentIP);
      n := n + 1;
    }
    while p.Contains(currentIP)
      invariant currentIP == InFamily(p, n) && Searched(p, existingSet, n)
      decreases Pow2(Width(p.addr)) - n
    {
      if currentIP == broadcast {
        SearchEnds(p, existingSet, n);
        return Exhausted;
      }
      if currentIP !in existingSet {
        SearchFinds(p, existingSet, n);
        return Available(currentIP);
      }
      SearchMoves(p, existingSet, n);
      currentIP := Successor(currentIP);
      n := n + 1;
    }
    SearchEnds(p, existingSet, n);
    return Exhausted;
  }

  method GetNextAvailableIP(cidr: Option<Prefix>, existing: seq<Option<Addr>>) returns (r: NextResult)
    requires cidr.Some? ==> cidr.value.Valid()
    ensures cidr.None? <==> r == BadCidr
    ensures cidr.Some? ==> cidr.value.Masked().Valid() && IsNext(cidr.value.Masked(), Parsed(existing), r)
  {
    if cidr.None? {
      return BadCidr;
    }
    MaskedSameRange(cidr.value);
    var existingSet := BuildSet(existing);
    r := FindFree(cidr.value.Masked(), existingSet);
  }

  // ---- Agreement with the enumeration ---------------------------------------------

  function HostList(p: Prefix): seq<Addr>
    requires p.Valid()
  {
    Interval(FirstHost(p), HostLimit(p))
  }

  function FirstUnused(hosts: seq<Addr>, used: set<Addr>): NextResult {
    if hosts == [] then Exhausted else if hosts[0] in used then FirstUnused(hosts[1..], used) else Available(hosts[0])
  }

  predicate Ascending(hosts: seq<Addr>) {
    forall i, j :: 0 <= i < j < |hosts| ==> hosts[i].V4? && hosts[j].V4? && hosts[i].n < hosts[j].n
  }

  lemma AscendingTail(hosts: seq<Addr>)
    requires hosts != [] && Ascending(hosts)
    ensures Ascending(hosts[1..])
    ensures forall b :: b in hosts[1..] ==> hosts[0].V4? && b.V4? && hosts[0].n < b.n
  {
    var tail := hosts[1..];
    forall i, j | 0 <= i < j < |tail| ensures tail[i].V4? && tail[j].V4? && tail[i].n < tail[j].n {
      assert tail[i] == hosts[i + 1] && tail[j] == hosts[j + 1];
    }
    forall b | b in tail ensures hosts[0].V4? && b.V4? && hosts[0].n < b.n {
      var i :| 0 <= i < |tail| && tail[i] == b;
      assert hosts[i + 1] == b;
    }
  }

  lemma {:induction false} FirstUnusedMeans(hosts: seq<Addr>, used: set<Addr>)
    requires Ascending(hosts)
    ensures match FirstUnused(hosts, used)
            case BadCidr => false
            case Exhausted => forall b :: b in hosts ==> b in used
            case Available(a) =>
              a in hosts && a !in used && forall b :: b in hosts && b != a && b !in used ==> a.n < b.n
  {
    if hosts != [] {
      AscendingTail(hosts);
      forall b | b in hosts && b != hosts[0] ensures b in hosts[1..] {
        var i :| 0 <= i < |hosts| && hosts[i] == b;
        assert hosts[1..][i - 1] == b;
      }
      if hosts[0] in used {
        FirstUnusedMeans(hosts[1..], used);
        assert FirstUnused(hosts, used) == FirstUnused(hosts[1..], used);
        assert forall b :: b in hosts[1..] ==> b in hosts;
      } else {
        assert FirstUnused(hosts, used) == Available(hosts[0]);
      }
    }
  }

  /** The search and the enumeration agree: for a masked IPv4 prefix the next available
      address is the first enumerated host that is not in use. */
  lemma NextIsFirstUnusedHost(p: Prefix, used: set<Addr>, r: NextResult)
    requires p.Valid() && p.addr.V4? && p.Masked() == p
    ensures IsNext(p, used, r) <==> r == FirstUnused(HostList(p), used)
  {
    ListsExactlyTheHosts(p);
    var hosts := HostList(p);
    FirstUnusedMeans(hosts, used);
    var first := FirstUnused(hosts, used);
    if first.Available? {
      assert p.IsHost(first.addr);
      forall b | p.IsHost(b) && b.n < first.addr.n ensures b in used {
        assert b in hosts;
      }
      if IsNext(p, used, r) {
        if r.Available? {
          assert r.addr in hosts;
          assert r.addr.n >= first.addr.n;
          assert !(first.addr.n < r.addr.n);
        }
      }
    } else {
      assert forall b :: p.IsHost(b) ==> b in used;
    }
  }

  // ---- Repeated allocation --------------------------------------------------------

  /** Addresses handed out one after the other, each stored before the next request. */
  ghost predicate AllocationRun(p: Prefix, given: seq<Addr>)
    requires p.Valid()
  {
    forall i :: 0 <= i < |given| ==> IsNext(p, SetOf(given[..i]), Available(given[i]))
  }

  function SetOf(s: seq<Addr>): set<Addr> {
    set a | a in s
  }

  lemma {:induction false} FirstUnusedAfterPrefix(hosts: seq<Addr>, k: nat, used: set<Addr>)
    requires k <= |hosts|
    requires forall i :: 0 <= i < k ==> hosts[i] in used
    requires forall i :: k <= i < |hosts| ==> hosts[i] !in used
    ensures FirstUnused(hosts, used) == if k < |hosts| then Available(hosts[k]) else Exhausted
  {
    if k > 0 {
      FirstUnusedAfterPrefix(hosts[1..], k - 1, used);
    }
  }

  /** Once the first hosts of the list are given out, the next request gives the one after. */
  lemma NextAfterPrefix(p: Prefix, given: seq<Addr>, r: NextResult)
    requires p.Valid() && p.addr.V4? && p.Masked() == p
    requires given <= HostList(p) && IsNext(p, SetOf(given), r)
    ensures r == if |given| < |HostList(p)| then Available(HostList(p)[|given|]) else Exhausted
  {
    ListsExactlyTheHosts(p);
    GivenAreUsed(HostList(p), given);
    FirstUnusedAfterPrefix(HostList(p), |given|, SetOf(given));
    NextIsFirstUnusedHost(p, SetOf(given), r);
  }

  lemma GivenAreUsed(hosts: seq<Addr>, given: seq<Addr>)
    requires given <= hosts && Ascending(hosts)
    ensures forall i :: 0 <= i < |hosts| ==> (hosts[i] in SetOf(given) <==> i < |given|)
  {
  }

  /** From an empty prefix, repeated allocation hands out the hosts in ascending order, each
      once: a run of requests gives exactly the first hosts of the list. */
  lemma {:induction false} AllocationWalksTheHosts(p: Prefix, given: seq<Addr>)
    requires p.Valid() && p.addr.V4? && p.Masked() == p && AllocationRun(p, given)
    ensures given <= HostList(p)
  {
    if given != [] {
      var before, last := given[..|given| - 1], given[|given| - 1];
      RunPrefix(p, given);
      AllocationWalksTheHosts(p, before);
      NextAfterPrefix(p, before, Available(last));
      PrefixGrows(HostList(p), given);
    }
  }

  lemma PrefixGrows(hosts: seq<Addr>, given: seq<Addr>)
    requires given != []
    requires var n := |given| - 1; given[..n] <= hosts && n < |hosts| && given[n] == hosts[n]
    ensures given <= hosts
  {
  }

  lemma RunPrefix(p: Prefix, given: seq<Addr>)
    requires p.Valid() && given != [] && AllocationRun(p, given)
    ensures AllocationRun(p, given[..|given| - 1])
    ensures IsNext(p, SetOf(given[..|given| - 1]), Available(given[|given| - 1]))
  {
  }

  /** Allocation succeeds exactly as often as the closed-form count of hosts: after any run
      that started empty, the next request fails if and only if the run is that long. */
  lemma AllocationsUntilTotal(p: Prefix, given: seq<Addr>, r: NextResult)
    requires p.Valid() && p.addr.V4? && p.Masked() == p
    requires AllocationRun(p, given) && IsNext(p, SetOf(given), r)
    ensures |given| <= |HostList(p)|
    ensures r == Exhausted <==> |given| == |HostList(p)|
    ensures |HostList(p)| == if p.bits == 32 then 1 else if p.bits == 31 then 2 else Pow2(32 - p.bits) - 2
  {
    AllocationWalksTheHosts(p, given);
    NextAfterPrefix(p, given, r);
    TotalIsHostCount(p);
  }

  // ---- Utilization ----------------------------------------------------------------

  datatype StoredIp = StoredIp(addr: Addr, status: Option<string>)
  datatype Usage = Usage(total: int, used: int, free: int, percentUsed: real)

  predicate Marked(ip: StoredIp) {
    ip.status == Some("available")
  }

  /** Rows marked available. */
  function AvailableRows(rows: seq<StoredIp>): nat {
    if rows == [] then 0 else AvailableRows(rows[..|rows| - 1]) + if Marked(rows[|rows| - 1]) then 1 else 0
  }

  /** The positions of the rows that count as taken: all but those whose status is "available",
      so also those without a status. */
  function TakenRows(rows: seq<StoredIp>): set<nat> {
    set i: nat | i < |rows| && (rows[i].status.None? || rows[i].status.value != "available")
  }

  lemma TakenOneMore(rows: seq<StoredIp>, row: StoredIp)
    ensures |TakenRows(rows + [row])| == |TakenRows(rows)| + if Marked(row) then 0 else 1
  {
    var more: set<nat> := if Marked(row) then {} else {|rows|};
    assert TakenRows(rows + [row]) == TakenRows(rows) + more;
  }

  lemma {:induction false} TakenAreTheRest(rows: seq<StoredIp>)
    ensures |TakenRows(rows)| == |rows| - AvailableRows(rows)
  {
    if rows != [] {
      var before, last := rows[..|rows| - 1], rows[|rows| - 1];
      TakenAreTheRest(before);
      TakenOneMore(before, last);
      assert rows == before + [last];
    }
  }

  /** One shifted left in 64-bit two's complement. */
  function ShiftedOne64(h: nat): int {
    var top: int := Pow2(63);
    if h < 63 then Pow2(h) else if h == 63 then -top else 0
  }

  /** That is the one number of the 64-bit range that differs from 2^h by a multiple of 2^64. */
  lemma ShiftedOne64Wraps(h: nat)
    ensures var top: int := Pow2(63);
            && -top <= ShiftedOne64(h) < top
            && exists k: int :: Pow2(h) as int - ShiftedOne64(h) == k * (2 * top)
  {
    var top: int := Pow2(63);
    if h < 63 {
      Pow2Grows(h, 62);
      assert Pow2(h) as int - ShiftedOne64(h) == 0 * (2 * top);
    } else if h == 63 {
      assert Pow2(h) as int - ShiftedOne64(h) == 1 * (2 * top);
    } else {
      assert Pow2(64) == 2 * Pow2(63);
      Pow2Multiple(64, h - 64);
      assert Pow2(h) as int - ShiftedOne64(h) == Pow2(h - 64) * (2 * top);
    }
  }

  lemma {:induction false} Pow2Grows(m: nat, n: nat)
    requires m <= n
    ensures Pow2(m) <= Pow2(n)
    decreases n
  {
    if m < n {
      Pow2Grows(m, n - 1);
    }
  }

  lemma {:induction false} Pow2Multiple(m: nat, n: nat)
    ensures Pow2(m + n) == Pow2(n) * Pow2(m)
  {
    if n == 0 {
      assert Pow2(0) == 1;
    } else {
      Pow2Multiple(m, n - 1);
      assert Pow2(n) * Pow2(m) == 2 * (Pow2(n - 1) * Pow2(m));
    }
  }

  method CountTaken(rows: seq<StoredIp>) returns (taken: int)
    ensures taken == |TakenRows(rows)| == |rows| - AvailableRows(rows)
  {
    TakenAreTheRest(rows);
    taken := 0;
    for i := 0 to |rows|
      invariant taken == i - AvailableRows(rows[..i])
    {
      assert rows[..i + 1][..i] == rows[..i];
      if rows[i].status.None? || rows[i].status.value != "available" {
        taken := taken + 1;
      }
    }
    assert rows[..|rows|] == rows;
  }

  /** The closed form by host bits; for IPv4 it is the number of enumerated hosts. */
  method TotalHosts(p: Prefix) returns (total: int)
    requires p.Valid()
    ensures p.addr.V4? ==> p.Masked().Valid() && total == |HostList(p.Masked())|
    ensures p.addr.V6? ==> total == if p.bits == 128 then 1 else ShiftedOne64(128 - p.bits)
  {
    TotalIsHostCount(p);
    var hostBits := p.HostBits();
    if hostBits <= 0 {
      total := 1;
    } else if p.addr.V4? && hostBits >= 2 {
      total := Pow2(hostBits) - 2;
    } else {
      total := ShiftedOne64(hostBits);
    }
  }

  method Utilization(cidr: Option<Prefix>, rows: seq<StoredIp>) returns (u: Usage)
    requires cidr.Some? ==> cidr.value.Valid()
    ensures u.used == |TakenRows(rows)| == |rows| - AvailableRows(rows)
    ensures cidr.None? ==> u.total == 0
    ensures cidr.Some? && cidr.value.addr.V4? ==>
              cidr.value.Masked().Valid() && u.total == |HostList(cidr.value.Masked())|
    ensures cidr.Some? && cidr.value.addr.V6? ==>
              u.total == if cidr.value.bits == 128 then 1 else ShiftedOne64(128 - cidr.value.bits)
    ensures u.free == if u.used <= u.total then u.total - u.used else 0
    ensures u.total > 0 ==> u.percentUsed == (u.used as real / u.total as real) * 100.0
    ensures u.total <= 0 ==> u.percentUsed == 0.0
  {
    var taken := CountTaken(rows);
    var total := 0;
    if cidr.Some? {
      total := TotalHosts(cidr.value);
    }
    var free := total - taken;
    if free < 0 {
      free := 0;
    }
    var pct := 0.0;
    if total > 0 {
      pct := (taken as real / total as real) * 100.0;
    }
    u := Usage(total, taken, free, pct);
  }

  /** The closed-form count is the number of enumerated hosts, at every prefix length. */
  lemma TotalIsHostCount(p: Prefix)
    requires p.Valid()
    ensures p.Masked().Valid()
    ensures p.addr.V4? ==>
              |HostList(p.Masked())| == (if p.bits == 32 then 1 else if p.bits == 31 then 2 else Pow2(32 - p.bits) - 2)
    ensures Pow2(0) == 1 && Pow2(1) == 2
  {
    MaskedSameRange(p);
    assert Pow2(1) == 2;
    if p.addr.V4? {
      MaskedListLength(p.Masked());
    }
  }

  lemma MaskedListLength(p: Prefix)
    requires p.Valid() && p.addr.V4? && p.Masked() == p
    ensures |HostList(p)| == if p.Trims() then Pow2(32 - p.bits) - 2 else Pow2(32 - p.bits)
  {
    assert p.Last() == p.addr.n + Pow2(32 - p.bits) - 1;
    if p.Trims() {
      SmallestRange(p);
    }
  }

  function RowAddrs(rows: seq<StoredIp>): seq<Addr> {
    seq(|rows|, i requires 0 <= i < |rows| => rows[i].addr)
  }

  /** The rows of a prefix: distinct hosts of it. */
  ghost predicate RowsOf(p: Prefix, rows: seq<StoredIp>)
    requires p.Valid()
  {
    Distinct(RowAddrs(rows)) && forall a :: a in RowAddrs(rows) ==> p.IsHost(a)
  }

  lemma {:induction false} DistinctSize(s: seq<Addr>)
    requires Distinct(s)
    ensures |SetOf(s)| == |s|
  {
    if s != [] {
      var before, last := s[..|s| - 1], s[|s| - 1];
      DistinctSize(before);
      assert s == before + [last];
      assert last !in before;
      assert SetOf(s) == SetOf(before) + {last};
    }
  }

  lemma {:induction false} AvailableAtMost(rows: seq<StoredIp>)
    ensures AvailableRows(rows) <= |rows|
  {
    if rows != [] {
      AvailableAtMost(rows[..|rows| - 1]);
    }
  }

  /** Accounting: the rows of a prefix never outnumber its hosts, so the clamp at zero is
      never needed; allocated and free addresses add up to the hosts, and free ones are those
      without a row plus the rows marked available. */
  lemma FreeIsUnrowedPlusMarked(p: Prefix, rows: seq<StoredIp>)
    requires p.Valid() && p.addr.V4? && p.Masked() == p && RowsOf(p, rows)
    ensures var hosts := HostList(p);
            var taken := |rows| - AvailableRows(rows);
            var unrowed := |SetOf(hosts) - SetOf(RowAddrs(rows))|;
            && |SetOf(hosts)| == |hosts| && 0 <= taken <= |hosts|
            && |hosts| - taken == unrowed + AvailableRows(rows)
  {
    var hosts, addrs := HostList(p), RowAddrs(rows);
    ListsExactlyTheHosts(p);
    assert Distinct(hosts);
    DistinctSize(hosts);
    DistinctSize(addrs);
    forall a | a in addrs ensures a in hosts {
      assert p.IsHost(a);
    }
    SubsetSize(SetOf(addrs), SetOf(hosts));
    AvailableAtMost(rows);
  }

  /** Where the two endpoints disagree: allocation treats every row as taken, the free count
      does not. A prefix reports free addresses while allocation fails if and only if every
      host has a row and some row is marked available. */
  lemma FreeYetExhausted(p: Prefix, rows: seq<StoredIp>, r: NextResult)
    requires p.Valid() && p.addr.V4? && p.Masked() == p && RowsOf(p, rows)
    requires IsNext(p, SetOf(RowAddrs(rows)), r)
    ensures (r == Exhausted && |HostList(p)| - (|rows| - AvailableRows(rows)) > 0)
       <==> (forall a :: p.IsHost(a) ==> a in RowAddrs(rows)) && AvailableRows(rows) > 0
  {
    var hosts, addrs := HostList(p), RowAddrs(rows);
    FreeIsUnrowedPlusMarked(p, rows);
    ListsExactlyTheHosts(p);
    if forall a :: p.IsHost(a) ==> a in addrs {
      assert SetOf(hosts) - SetOf(addrs) == {};
    }
  }

  /** For instance a /32 whose one row is marked available: one free address, none to hand out. */
  lemma FreeButNoneAvailable(n: nat, r: NextResult)
    requires n < Pow2(32) && IsNext(Prefix(V4(n), 32), {V4(n)}, r)
    ensures var p, rows := Prefix(V4(n), 32), [StoredIp(V4(n), Some("available"))];
            && p.Masked() == p && RowsOf(p, rows)
            && r == Exhausted && |HostList(p)| - (|rows| - AvailableRows(rows)) == 1
  {
    var p, rows := Prefix(V4(n), 32), [StoredIp(V4(n), Some("available"))];
    assert p.Network() == n && p.Last() == n;
    assert RowAddrs(rows) == [V4(n)];
    assert rows[..0] == [] && AvailableRows(rows[..0]) == 0;
    forall b | p.IsHost(b) ensures b == V4(n) {
      ContainsIsInterval(p, b);
    }
    ContainsIsInterval(p, V4(n));
  }
}
