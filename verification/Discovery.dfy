/** The discovery scan: classification, the worker pool, and the stale sweep. */
module Discovery {
  import opened Basics
  import Sorting

  type Address = nat

  /** The canonical form a stored address is indexed under; text that is no address stays text. */
  datatype Key = Parsed(address: Address) | Text(text: string)
  datatype IpRow = IpRow(key: Key, status: string)
  datatype Probe = Probe(seen: bool, ports: seq<int>)
  datatype Classification = New | Known | Changed | Stale
  datatype Finding = Finding(address: Address, classification: Classification, ports: seq<int>)

  predicate Sweepable(status: string) {
    status == "assigned" || status == "discovered" || status == "dhcp" || status == "active"
  }

  function Classify(probe: Probe, hasRow: bool, prior: seq<int>): Classification {
    if !hasRow then New
    else if prior != [] && multiset(prior) != multiset(probe.ports) then Changed
    else Known
  }

  method IntSliceEq(a: seq<int>, b: seq<int>) returns (equal: bool)
    ensures equal <==> a == b
  {
    if |a| != |b| {
      return false;
    }
    for i := 0 to |a|
      invariant a[..i] == b[..i]
    {
      if a[i] != b[i] {
        return false;
      }
    }
    return true;
  }

  /** Compares sorted copies of the prior and the current ports. */
  method ClassifySeen(probe: Probe, hasRow: bool, prior: seq<int>) returns (c: Classification)
    ensures c == Classify(probe, hasRow, prior)
    ensures c == New <==> !hasRow
    ensures c == Changed <==> hasRow && prior != [] && multiset(prior) != multiset(probe.ports)
    ensures c == Known || c == New || c == Changed
  {
    if !hasRow {
      return New;
    }
    var prevSorted := Sorting.Sort(Sorting.INT_AT_MOST, prior);
    var curSorted := Sorting.Sort(Sorting.INT_AT_MOST, probe.ports);
    var equal := IntSliceEq(prevSorted, curSorted);
    Sorting.IntAtMostIsTotal();
    Sorting.SortedEqualIffSameMultiset(Sorting.INT_AT_MOST, prior, probe.ports);
    Sorting.SortIsOrderedPermutation(Sorting.INT_AT_MOST, prior);
    if |prevSorted| > 0 && !equal {
      return Changed;
    }
    return Known;
  }

  /** The ports of the most recent stored finding for an address, none if there is none. */
  function LatestPorts(table: seq<Finding>, a: Address): seq<int> {
    if table == [] then []
    else if table[|table| - 1].address == a then table[|table| - 1].ports
    else LatestPorts(table[..|table| - 1], a)
  }

  /** Finding i is the most recent one for its address. */
  predicate LatestAt(table: seq<Finding>, i: int, a: Address) {
    0 <= i < |table| && table[i].address == a && forall j :: i < j < |table| ==> table[j].address != a
  }

  lemma {:induction false} LatestPortsAt(table: seq<Finding>, i: int, a: Address)
    requires LatestAt(table, i, a)
    ensures LatestPorts(table, a) == table[i].ports
  {
    if i < |table| - 1 {
      LatestPortsAt(table[..|table| - 1], i, a);
    }
  }

  lemma {:induction false} SomeLatestOrNone(table: seq<Finding>, a: Address)
    ensures (exists i :: LatestAt(table, i, a)) || LatestPorts(table, a) == []
  {
    if table != [] {
      var n := |table| - 1;
      if table[n].address == a {
        assert LatestAt(table, n, a);
      } else {
        SomeLatestOrNone(table[..n], a);
        if i :| LatestAt(table[..n], i, a) {
          assert LatestAt(table, i, a);
        }
      }
    }
  }

  /** The prior ports are those of the one most recent finding, and none without a finding. */
  lemma LatestPortsMeans(table: seq<Finding>, a: Address)
    ensures forall i :: LatestAt(table, i, a) ==> LatestPorts(table, a) == table[i].ports
    ensures (exists i :: LatestAt(table, i, a)) || LatestPorts(table, a) == []
  {
    forall i | LatestAt(table, i, a) ensures LatestPorts(table, a) == table[i].ports {
      LatestPortsAt(table, i, a);
    }
    SomeLatestOrNone(table, a);
  }

  /** What a responding address is classified as: new without a row; changed if it has one and its
      most recent finding had ports, other ones; known otherwise. */
  ghost predicate ClassifiedAs(c: Classification, hasRow: bool, table: seq<Finding>, a: Address, ports: seq<int>) {
    && (c == New <==> !hasRow)
    && (c == Changed <==>
          hasRow && exists i :: LatestAt(table, i, a) && table[i].ports != []
                                && multiset(table[i].ports) != multiset(ports))
    && c != Stale
  }

  lemma ClassifyMeans(probe: Probe, hasRow: bool, table: seq<Finding>, a: Address)
    ensures ClassifiedAs(Classify(probe, hasRow, LatestPorts(table, a)), hasRow, table, a, probe.ports)
    ensures forall c :: ClassifiedAs(c, hasRow, table, a, probe.ports) ==>
              c == Classify(probe, hasRow, LatestPorts(table, a))
  {
    LatestPortsMeans(table, a);
  }

  function IndexOf(rows: seq<IpRow>): map<Key, IpRow> {
    if rows == [] then map[] else IndexOf(rows[..|rows| - 1])[rows[|rows| - 1].key := rows[|rows| - 1]]
  }

  lemma IndexOneMore(rows: seq<IpRow>, row: IpRow)
    ensures IndexOf(rows + [row]) == IndexOf(rows)[row.key := row]
  {
    assert (rows + [row])[..|rows|] == rows;
  }

  /** The address index the scan builds; a later row with the same key wins. */
  method BuildIndex(rows: seq<IpRow>) returns (index: map<Key, IpRow>)
    ensures index == IndexOf(rows)
  {
    index := map[];
    for i := 0 to |rows|
      invariant index == IndexOf(rows[..i])
    {
      IndexOneMore(rows[..i], rows[i]);
      assert rows[..i + 1] == rows[..i] + [rows[i]];
      index := index[rows[i].key := rows[i]];
    }
    assert rows[..|rows|] == rows;
  }

  /** Row i is the last one with its key. */
  predicate LastWith(rows: seq<IpRow>, i: int, key: Key) {
    0 <= i < |rows| && rows[i].key == key && forall j :: i < j < |rows| ==> rows[j].key != key
  }

  /** The index holds, for every key of a row, the last row with that key, and no other key. */
  lemma {:induction false} IndexKeepsLast(rows: seq<IpRow>, key: Key)
    ensures key in IndexOf(rows) ==> exists i :: LastWith(rows, i, key) && IndexOf(rows)[key] == rows[i]
    ensures key !in IndexOf(rows) ==> forall i :: 0 <= i < |rows| ==> rows[i].key != key
  {
    if rows != [] {
      var n := |rows| - 1;
      var before := rows[..n];
      IndexKeepsLast(before, key);
      if rows[n].key == key {
        assert LastWith(rows, n, key);
      } else if key in IndexOf(before) {
        var i :| LastWith(before, i, key) && IndexOf(before)[key] == before[i];
        assert LastWith(rows, i, key);
      } else {
        assert forall i :: 0 <= i < n ==> rows[i] == before[i];
      }
    }
  }

  // ---- A scan ---------------------------------------------------------------------

  /** The fixed inputs of a scan: the enumerated hosts, the index, what probing each host
      would report, and the findings stored before the scan. */
  datatype Scan = Scan(hosts: seq<Address>, index: map<Key, IpRow>, probes: map<Address, Probe>, prior: seq<Finding>) {
    predicate Valid() {
      Distinct(hosts) && forall h :: h in hosts ==> h in probes
    }

    predicate Responds(a: Address) {
      a in hosts && a in probes && probes[a].seen
    }

    predicate GoesStale(a: Address) {
      Parsed(a) in index && Sweepable(index[Parsed(a)].status) && !Responds(a)
    }

    function SeenFinding(a: Address): Finding
      requires a in probes
    {
      Finding(a, Classify(probes[a], Parsed(a) in index, LatestPorts(prior, a)), probes[a].ports)
    }

    /** The sequential specification: the finding every address gets, if any. */
    function Expected(a: Address): Option<Finding> {
      if Responds(a) then Some(SeenFinding(a))
      else if GoesStale(a) then Some(Finding(a, Stale, []))
      else None
    }
  }

  /** A worker waits on the channel, has an address to probe, has seen it respond, has marked
      it seen, has read the latest prior ports, or has returned. */
  datatype Worker =
    | Waiting
    | Taken(a: Address)
    | Marked(a: Address)
    | Read(a: Address, priorPorts: seq<int>)
    | Done

  datatype Main = Joining | Sweeping(rest: set<Key>) | Finished

  datatype State = State(work: seq<Address>, workers: seq<Worker>, seen: set<Address>, found: seq<Finding>,
                         done: set<Address>, main: Main)

  datatype Move = Take(i: nat) | ProbeHost(i: nat) | ReadPrior(i: nat) | Persist(i: nat) | Leave(i: nat)
                | Join | Sweep(key: Key) | Complete

  predicate Enabled(c: Scan, s: State, mv: Move) {
    match mv
    case Take(i) => i < |s.workers| && s.workers[i].Waiting? && s.work != []
    case ProbeHost(i) => i < |s.workers| && s.workers[i].Taken? && s.workers[i].a in c.probes
    case ReadPrior(i) => i < |s.workers| && s.workers[i].Marked?
    case Persist(i) => i < |s.workers| && s.workers[i].Read? && s.workers[i].a in c.probes
    case Leave(i) => i < |s.workers| && s.workers[i].Waiting? && s.work == []
    case Join => s.main.Joining? && forall v :: v in s.workers ==> v.Done?
    case Sweep(key) => s.main.Sweeping? && key in s.main.rest && key in c.index
    case Complete => s.main.Sweeping? && s.main.rest == {}
  }

  function Apply(c: Scan, s: State, mv: Move): State
    requires Enabled(c, s, mv)
  {
    match mv
    case Take(i) => s.(work := s.work[1..], workers := s.workers[i := Taken(s.work[0])])
    case ProbeHost(i) =>
      var a := s.workers[i].a;
      if c.probes[a].seen then s.(workers := s.workers[i := Marked(a)], seen := s.seen + {a})
      else s.(workers := s.workers[i := Waiting], done := s.done + {a})
    case ReadPrior(i) =>
      var a := s.workers[i].a;
      s.(workers := s.workers[i := Read(a, if Parsed(a) in c.index then LatestPorts(c.prior + s.found, a) else [])])
    case Persist(i) =>
      var a := s.workers[i].a;
      var probe := c.probes[a];
      var finding := Finding(a, Classify(probe, Parsed(a) in c.index, s.workers[i].priorPorts), probe.ports);
      s.(workers := s.workers[i := Waiting], found := s.found + [finding], done := s.done + {a})
    case Leave(i) => s.(workers := s.workers[i := Done])
    case Join => s.(main := Sweeping(c.index.Keys))
    case Sweep(key) =>
      var swept := s.(main := Sweeping(s.main.rest - {key}));
      if key.Parsed? && key.address !in s.seen && Sweepable(c.index[key].status)
      then swept.(found := s.found + [Finding(key.address, Stale, [])])
      else swept
    case Complete => s.(main := Finished)
  }

  function Next(c: Scan, s: State, mv: Move): State {
    if Enabled(c, s, mv) then Apply(c, s, mv) else s
  }

  function Exec(c: Scan, s: State, moves: seq<Move>): State {
    if moves == [] then s else Next(c, Exec(c, s, moves[..|moves| - 1]), moves[|moves| - 1])
  }

  /** A configured worker count of zero or less runs one worker. */
  function Start(c: Scan, workerCount: int): State {
    State(c.hosts, seq(if workerCount <= 0 then 1 else workerCount, _ => Waiting), {}, [], {}, Joining)
  }

  // ---- Counting -------------------------------------------------------------------

  predicate Holds(v: Worker, a: Address) {
    (v.Taken? || v.Marked? || v.Read?) && v.a == a
  }

  function Held(ws: seq<Worker>, a: Address): nat {
    if ws == [] then 0 else One(Holds(ws[0], a)) + Held(ws[1..], a)
  }

  function Count(found: seq<Finding>, a: Address): nat {
    if found == [] then 0 else Count(found[..|found| - 1], a) + One(found[|found| - 1].address == a)
  }

  lemma {:induction false} HeldUpdate(ws: seq<Worker>, i: nat, v: Worker, a: Address)
    requires i < |ws|
    ensures Held(ws[i := v], a) + One(Holds(ws[i], a)) == Held(ws, a) + One(Holds(v, a))
  {
    if i == 0 {
      assert ws[0 := v][1..] == ws[1..];
    } else {
      assert ws[i := v][1..] == ws[1..][i - 1 := v];
      HeldUpdate(ws[1..], i - 1, v, a);
    }
  }

  lemma HeldUpdates(ws: seq<Worker>, i: nat, v: Worker)
    requires i < |ws|
    ensures forall a :: Held(ws[i := v], a) + One(Holds(ws[i], a)) == Held(ws, a) + One(Holds(v, a))
  {
    forall a ensures Held(ws[i := v], a) + One(Holds(ws[i], a)) == Held(ws, a) + One(Holds(v, a)) {
      HeldUpdate(ws, i, v, a);
    }
  }

  lemma {:induction false} HeldNone(ws: seq<Worker>, a: Address)
    requires forall v :: v in ws ==> !Holds(v, a)
    ensures Held(ws, a) == 0
  {
    if ws != [] {
      assert ws[0] in ws;
      HeldNone(ws[1..], a);
    }
  }

  lemma HeldPositive(ws: seq<Worker>, i: nat, a: Address)
    requires i < |ws| && Holds(ws[i], a)
    ensures Held(ws, a) >= 1
  {
    HeldUpdate(ws, i, Waiting, a);
  }

  lemma {:induction false} CountWitness(found: seq<Finding>, a: Address)
    requires Count(found, a) >= 1
    ensures exists f :: f in found && f.address == a
  {
    var last := found[|found| - 1];
    if last.address == a {
      assert last in found;
    } else {
      CountWitness(found[..|found| - 1], a);
    }
  }

  lemma {:induction false} CountAt(found: seq<Finding>, i: nat)
    requires i < |found|
    ensures Count(found, found[i].address) >= 1
    ensures forall j :: 0 <= j < i && found[j].address == found[i].address ==> Count(found, found[i].address) >= 2
  {
    var a, before := found[i].address, found[..|found| - 1];
    if i == |found| - 1 {
      forall j | 0 <= j < i && found[j].address == a ensures Count(found, a) >= 2 {
        CountAt(before, j);
        assert before[j] == found[j];
      }
    } else {
      CountAt(before, i);
      assert before[i] == found[i];
      forall j | 0 <= j < i && found[j].address == a ensures Count(found, a) >= 2 {
        assert before[j] == found[j];
      }
    }
  }

  lemma {:induction false} LatestIgnores(prior: seq<Finding>, found: seq<Finding>, a: Address)
    requires Count(found, a) == 0
    ensures LatestPorts(prior + found, a) == LatestPorts(prior, a)
  {
    if found == [] {
      assert prior + found == prior;
    } else {
      assert (prior + found)[..|prior + found| - 1] == prior + found[..|found| - 1];
      LatestIgnores(prior, found[..|found| - 1], a);
    }
  }

  // ---- The invariant --------------------------------------------------------------

  function SweptKeys(c: Scan, main: Main): set<Key> {
    match main
    case Joining => {}
    case Sweeping(rest) => c.index.Keys - rest
    case Finished => c.index.Keys
  }

  /** Whether address a has its finding already. */
  predicate Recorded(c: Scan, done: set<Address>, main: Main, a: Address) {
    if c.Responds(a) then a in done else c.GoesStale(a) && Parsed(a) in SweptKeys(c, main)
  }

  ghost predicate FoundInv(c: Scan, found: seq<Finding>, done: set<Address>, main: Main) {
    && (forall a :: Count(found, a) == One(Recorded(c, done, main, a)))
    && (forall f :: f in found ==> c.Expected(f.address) == Some(f))
  }

  /** Every host taken from the channel is with exactly one worker or done. */
  ghost predicate WorkInv(c: Scan, work: seq<Address>, workers: seq<Worker>, done: set<Address>) {
    && |work| <= |c.hosts| && work == c.hosts[|c.hosts| - |work|..]
    && (forall a :: One(a in c.hosts[..|c.hosts| - |work|]) == Held(workers, a) + One(a in done))
  }

  ghost predicate WorkerInv(c: Scan, seen: set<Address>, v: Worker) {
    match v
    case Taken(a) => a in c.hosts
    case Marked(a) => a in seen && c.Responds(a)
    case Read(a, priorPorts) =>
      a in seen && c.Responds(a) && (Parsed(a) in c.index ==> priorPorts == LatestPorts(c.prior, a))
    case _ => true
  }

  ghost predicate Inv(c: Scan, s: State) {
    && c.Valid()
    && WorkInv(c, s.work, s.workers, s.done)
    && FoundInv(c, s.found, s.done, s.main)
    && (forall a :: a in s.seen ==> c.Responds(a))
    && (forall a :: a in s.done && c.Responds(a) ==> a in s.seen)
    && (forall v :: v in s.workers ==> WorkerInv(c, s.seen, v))
    && (forall v :: v in s.workers && v.Done? ==> s.work == [])
    && (!s.main.Joining? ==> s.work == [] && forall v :: v in s.workers ==> v.Done?)
  }

  lemma InvTake(c: Scan, s: State, i: nat)
    requires Inv(c, s) && Enabled(c, s, Take(i))
    ensures Inv(c, Apply(c, s, Take(i)))
  {
    var s' := Apply(c, s, Take(i));
    var k := |c.hosts| - |s.work|;
    HeldUpdates(s.workers, i, s'.workers[i]);
    assert s.work[0] == c.hosts[k] && c.hosts[..k + 1] == c.hosts[..k] + [c.hosts[k]];
    assert c.hosts[k] !in c.hosts[..k];
    assert s.workers[i] in s.workers;
  }

  predicate HasAddress(v: Worker) {
    v.Taken? || v.Marked? || v.Read?
  }

  /** While a worker has an address, nothing is recorded for it. */
  lemma HeldIsUnrecorded(c: Scan, s: State, i: nat)
    requires Inv(c, s) && i < |s.workers| && HasAddress(s.workers[i])
    ensures var a := s.workers[i].a;
            a in c.hosts && a !in s.done && s.main.Joining? && Count(s.found, a) == 0 && Held(s.workers, a) == 1
  {
    var a := s.workers[i].a;
    HeldPositive(s.workers, i, a);
    assert s.workers[i] in s.workers;
    assert One(a in c.hosts[..|c.hosts| - |s.work|]) == Held(s.workers, a) + One(a in s.done);
    assert Count(s.found, a) == One(Recorded(c, s.done, s.main, a));
  }

  lemma WorkerFinishes(c: Scan, s: State, i: nat)
    requires Inv(c, s) && i < |s.workers| && HasAddress(s.workers[i])
    ensures WorkInv(c, s.work, s.workers[i := Waiting], s.done + {s.workers[i].a})
  {
    var a := s.workers[i].a;
    HeldIsUnrecorded(c, s, i);
    HeldUpdates(s.workers, i, Waiting);
    forall b
      ensures One(b in c.hosts[..|c.hosts| - |s.work|]) == Held(s.workers[i := Waiting], b) + One(b in s.done + {a})
    {
      assert One(b in c.hosts[..|c.hosts| - |s.work|]) == Held(s.workers, b) + One(b in s.done);
    }
  }

  lemma InvProbe(c: Scan, s: State, i: nat)
    requires Inv(c, s) && Enabled(c, s, ProbeHost(i))
    ensures Inv(c, Apply(c, s, ProbeHost(i)))
  {
    var s', a := Apply(c, s, ProbeHost(i)), s.workers[i].a;
    HeldIsUnrecorded(c, s, i);
    HeldUpdates(s.workers, i, s'.workers[i]);
    if !c.probes[a].seen {
      WorkerFinishes(c, s, i);
      forall b ensures Recorded(c, s'.done, s'.main, b) == Recorded(c, s.done, s.main, b) {
      }
    }
    forall v | v in s'.workers ensures WorkerInv(c, s'.seen, v) {
      assert v == s'.workers[i] || v in s.workers;
    }
  }

  lemma InvRead(c: Scan, s: State, i: nat)
    requires Inv(c, s) && Enabled(c, s, ReadPrior(i))
    ensures Inv(c, Apply(c, s, ReadPrior(i)))
  {
    HeldIsUnrecorded(c, s, i);
    HeldUpdates(s.workers, i, Apply(c, s, ReadPrior(i)).workers[i]);
    assert s.workers[i] in s.workers;
    LatestIgnores(c.prior, s.found, s.workers[i].a);
  }

  lemma FoundGrows(c: Scan, found: seq<Finding>, done: set<Address>, main: Main,
                   f: Finding, done': set<Address>, main': Main)
    requires FoundInv(c, found, done, main) && c.Expected(f.address) == Some(f)
    requires forall a :: One(Recorded(c, done', main', a)) == One(Recorded(c, done, main, a)) + One(a == f.address)
    ensures FoundInv(c, found + [f], done', main')
  {
  }

  lemma InvPersist(c: Scan, s: State, i: nat)
    requires Inv(c, s) && Enabled(c, s, Persist(i))
    ensures Inv(c, Apply(c, s, Persist(i)))
  {
    var s', a := Apply(c, s, Persist(i)), s.workers[i].a;
    HeldIsUnrecorded(c, s, i);
    WorkerFinishes(c, s, i);
    assert s.workers[i] in s.workers;
    FoundGrows(c, s.found, s.done, s.main, c.SeenFinding(a), s'.done, s'.main);
    assert s'.found == s.found + [c.SeenFinding(a)];
  }

  lemma InvSweep(c: Scan, s: State, key: Key)
    requires Inv(c, s) && Enabled(c, s, Sweep(key))
    ensures Inv(c, Apply(c, s, Sweep(key)))
  {
    var s' := Apply(c, s, Sweep(key));
    AllDone(c, s);
    assert SweptKeys(c, s'.main) == SweptKeys(c, s.main) + {key};
    assert key !in SweptKeys(c, s.main);
    if key.Parsed? && c.GoesStale(key.address) {
      var f := Finding(key.address, Stale, []);
      FoundGrows(c, s.found, s.done, s.main, f, s'.done, s'.main);
      assert s'.found == s.found + [f];
    } else {
      assert s'.found == s.found;
      forall a ensures Recorded(c, s'.done, s'.main, a) == Recorded(c, s.done, s.main, a) {
      }
    }
  }

  /** After the join every host is done, and the seen set is exactly the responders. */
  lemma AllDone(c: Scan, s: State)
    requires Inv(c, s) && !s.main.Joining?
    ensures forall a :: a in s.done <==> a in c.hosts
    ensures forall a :: a in s.seen <==> c.Responds(a)
  {
    assert c.hosts[..|c.hosts|] == c.hosts;
    forall a ensures a in s.done <==> a in c.hosts {
      HeldNone(s.workers, a);
      assert One(a in c.hosts[..|c.hosts| - |s.work|]) == Held(s.workers, a) + One(a in s.done);
    }
  }

  lemma InvRest(c: Scan, s: State, mv: Move)
    requires Inv(c, s) && Enabled(c, s, mv) && (mv.Leave? || mv.Join? || mv.Complete?)
    requires |s.workers| > 0
    ensures Inv(c, Apply(c, s, mv))
  {
    var s' := Apply(c, s, mv);
    if mv.Leave? {
      HeldUpdates(s.workers, mv.i, Done);
    } else {
      assert s.workers[0] in s.workers;
      assert SweptKeys(c, s'.main) == SweptKeys(c, s.main);
      forall a ensures Recorded(c, s'.done, s'.main, a) == Recorded(c, s.done, s.main, a) {
      }
    }
  }

  lemma InvStep(c: Scan, s: State, mv: Move)
    requires Inv(c, s) && |s.workers| > 0
    ensures Inv(c, Next(c, s, mv)) && |Next(c, s, mv).workers| == |s.workers|
  {
    if Enabled(c, s, mv) {
      match mv {
        case Take(i) => InvTake(c, s, i);
        case ProbeHost(i) => InvProbe(c, s, i);
        case ReadPrior(i) => InvRead(c, s, i);
        case Persist(i) => InvPersist(c, s, i);
        case Sweep(key) => InvSweep(c, s, key);
        case _ => InvRest(c, s, mv);
      }
    }
  }

  lemma {:induction false} InvForever(c: Scan, workerCount: int, moves: seq<Move>)
    requires c.Valid()
    ensures Inv(c, Exec(c, Start(c, workerCount), moves)) && |Exec(c, Start(c, workerCount), moves).workers| > 0
  {
    var s := Start(c, workerCount);
    if moves == [] {
      forall a ensures Held(s.workers, a) == 0 {
        HeldNone(s.workers, a);
      }
    } else {
      InvForever(c, workerCount, moves[..|moves| - 1]);
      InvStep(c, Exec(c, s, moves[..|moves| - 1]), moves[|moves| - 1]);
    }
  }

  // ---- Results --------------------------------------------------------------------

  /** What the scan owes an address: one finding with the probed ports and their classification
      against the findings stored before the scan if the host responded; a stale one if it did
      not and has a row in one of the four statuses. */
  ghost predicate Owed(c: Scan, f: Finding)
    requires c.Valid()
  {
    if f.address in c.hosts && c.probes[f.address].seen then
      && f.ports == c.probes[f.address].ports
      && ClassifiedAs(f.classification, Parsed(f.address) in c.index, c.prior, f.address, f.ports)
    else
      && Parsed(f.address) in c.index
      && c.index[Parsed(f.address)].status in {"assigned", "discovered", "dhcp", "active"}
      && f == Finding(f.address, Stale, [])
  }

  lemma ExpectedIsOwed(c: Scan, f: Finding)
    requires c.Valid()
    ensures c.Expected(f.address) == Some(f) <==> Owed(c, f)
  {
    if c.Responds(f.address) {
      ClassifyMeans(c.probes[f.address], Parsed(f.address) in c.index, c.prior, f.address);
    }
  }

  /** When a scan has finished, for any number of workers and any interleaving, the findings
      are exactly those owed, one per address at most: every responding host once, every unseen
      row in one of the four statuses once as stale, nothing else. */
  lemma {:induction false} ScanFindsExactlyExpected(c: Scan, workerCount: int, moves: seq<Move>)
    requires c.Valid() && Exec(c, Start(c, workerCount), moves).main.Finished?
    ensures var found := Exec(c, Start(c, workerCount), moves).found;
            && (forall i, j :: 0 <= i < j < |found| ==> found[i].address != found[j].address)
            && (forall f: Finding :: f in found <==> Owed(c, f))
  {
    FindsExpected(c, workerCount, moves);
    forall f: Finding ensures c.Expected(f.address) == Some(f) <==> Owed(c, f) {
      ExpectedIsOwed(c, f);
    }
  }

  lemma {:induction false} FindsExpected(c: Scan, workerCount: int, moves: seq<Move>)
    requires c.Valid() && Exec(c, Start(c, workerCount), moves).main.Finished?
    ensures var found := Exec(c, Start(c, workerCount), moves).found;
            && (forall i, j :: 0 <= i < j < |found| ==> found[i].address != found[j].address)
            && (forall f: Finding :: f in found <==> c.Expected(f.address) == Some(f))
  {
    InvForever(c, workerCount, moves);
    var s := Exec(c, Start(c, workerCount), moves);
    AllDone(c, s);
    forall i, j | 0 <= i < j < |s.found| ensures s.found[i].address != s.found[j].address {
      CountAt(s.found, j);
      assert Count(s.found, s.found[j].address) <= 1;
    }
    forall f: Finding | c.Expected(f.address) == Some(f) ensures f in s.found {
      assert Count(s.found, f.address) == 1;
      CountWitness(s.found, f.address);
      var g :| g in s.found && g.address == f.address;
      assert c.Expected(g.address) == Some(g);
    }
  }

  lemma {:induction false} DistinctSameElements<T>(a: seq<T>, b: seq<T>)
    requires Distinct(a) && Distinct(b) && forall x :: x in a <==> x in b
    ensures multiset(a) == multiset(b)
  {
    forall x ensures multiset(a)[x] == multiset(b)[x] {
      DistinctOnce(a, x);
      DistinctOnce(b, x);
    }
  }

  lemma {:induction false} DistinctOnce<T>(s: seq<T>, x: T)
    requires Distinct(s)
    ensures multiset(s)[x] == One(x in s)
  {
    if s != [] {
      assert s == [s[0]] + s[1..];
      DistinctOnce(s[1..], x);
    }
  }

  /** Confluence: two finished scans over the same inputs store the same findings, whatever
      their worker counts and interleavings. */
  lemma {:induction false} ScansAgree(c: Scan, n1: int, moves1: seq<Move>, n2: int, moves2: seq<Move>)
    requires c.Valid()
    requires Exec(c, Start(c, n1), moves1).main.Finished? && Exec(c, Start(c, n2), moves2).main.Finished?
    ensures multiset(Exec(c, Start(c, n1), moves1).found) == multiset(Exec(c, Start(c, n2), moves2).found)
  {
    FindsExpected(c, n1, moves1);
    FindsExpected(c, n2, moves2);
    DistinctSameElements(Exec(c, Start(c, n1), moves1).found, Exec(c, Start(c, n2), moves2).found);
  }

  // ---- Every scan finishes --------------------------------------------------------

  function Rank(v: Worker): nat {
    match v
    case Done => 0
    case Waiting => 1
    case Read(_, _) => 2
    case Marked(_) => 3
    case Taken(_) => 4
  }

  function Ranks(ws: seq<Worker>): nat {
    if ws == [] then 0 else Rank(ws[0]) + Ranks(ws[1..])
  }

  /** An upper bound on the moves a scan has left. */
  function MovesLeft(c: Scan, s: State): nat {
    4 * |s.work| + Ranks(s.workers)
    + match s.main
      case Joining => |c.index| + 2
      case Sweeping(rest) => |rest| + 1
      case Finished => 0
  }

  lemma {:induction false} RanksUpdate(ws: seq<Worker>, i: nat, v: Worker)
    requires i < |ws|
    ensures Ranks(ws[i := v]) + Rank(ws[i]) == Ranks(ws) + Rank(v)
  {
    if i == 0 {
      assert ws[0 := v][1..] == ws[1..];
    } else {
      assert ws[i := v][1..] == ws[1..][i - 1 := v];
      RanksUpdate(ws[1..], i - 1, v);
    }
  }

  lemma {:induction false} RanksAtStart(ws: seq<Worker>)
    requires forall v :: v in ws ==> v.Waiting?
    ensures Ranks(ws) == |ws|
  {
    if ws != [] {
      assert ws[0] in ws;
      RanksAtStart(ws[1..]);
    }
  }

  lemma MoveUsesUp(c: Scan, s: State, mv: Move)
    requires Enabled(c, s, mv)
    ensures MovesLeft(c, Apply(c, s, mv)) < MovesLeft(c, s)
  {
    var s' := Apply(c, s, mv);
    if !mv.Join? && !mv.Sweep? && !mv.Complete? {
      RanksUpdate(s.workers, mv.i, s'.workers[mv.i]);
    }
    assert |c.index| == |c.index.Keys|;
  }

  /** The keys still to be swept are keys of the index. */
  predicate SweepsIndex(c: Scan, main: Main) {
    main.Sweeping? ==> main.rest <= c.index.Keys
  }

  lemma SomethingToDo(c: Scan, s: State) returns (mv: Move)
    requires Inv(c, s) && SweepsIndex(c, s.main) && !s.main.Finished?
    ensures Enabled(c, s, mv)
  {
    if i: nat :| i < |s.workers| && !s.workers[i].Done? {
      assert s.workers[i] in s.workers;
      mv := match s.workers[i]
            case Waiting => if s.work == [] then Leave(i) else Take(i)
            case Taken(_) => ProbeHost(i)
            case Marked(_) => ReadPrior(i)
            case _ => Persist(i);
    } else if s.main.Joining? {
      mv := Join;
    } else if s.main.rest == {} {
      mv := Complete;
    } else {
      var key :| key in s.main.rest;
      mv := Sweep(key);
    }
  }

  /** A run without moves that are not enabled. */
  predicate Effective(c: Scan, s: State, moves: seq<Move>) {
    moves == []
    || (Effective(c, s, moves[..|moves| - 1]) && Enabled(c, Exec(c, s, moves[..|moves| - 1]), moves[|moves| - 1]))
  }

  lemma {:induction false} EffectiveRunUsesUp(c: Scan, s: State, moves: seq<Move>)
    requires Effective(c, s, moves)
    ensures |moves| + MovesLeft(c, Exec(c, s, moves)) <= MovesLeft(c, s)
  {
    if moves != [] {
      EffectiveRunUsesUp(c, s, moves[..|moves| - 1]);
      MoveUsesUp(c, Exec(c, s, moves[..|moves| - 1]), moves[|moves| - 1]);
    }
  }

  lemma {:induction false} SweepsIndexForever(c: Scan, s: State, moves: seq<Move>)
    requires SweepsIndex(c, s.main)
    ensures SweepsIndex(c, Exec(c, s, moves).main)
  {
    if moves != [] {
      SweepsIndexForever(c, s, moves[..|moves| - 1]);
    }
  }

  /** For every number of workers and every interleaving a scan takes at most so many steps, and
      until it has finished it can take another one: so it always finishes. */
  lemma {:induction false} ScanFinishes(c: Scan, workerCount: int, moves: seq<Move>)
    requires c.Valid() && Effective(c, Start(c, workerCount), moves)
    ensures |moves| <= 4 * |c.hosts| + |Start(c, workerCount).workers| + |c.index| + 2
    ensures var s := Exec(c, Start(c, workerCount), moves); (exists mv :: Enabled(c, s, mv)) <==> !s.main.Finished?
  {
    var s := Exec(c, Start(c, workerCount), moves);
    EffectiveRunUsesUp(c, Start(c, workerCount), moves);
    RanksAtStart(Start(c, workerCount).workers);
    InvForever(c, workerCount, moves);
    SweepsIndexForever(c, Start(c, workerCount), moves);
    if s.main.Finished? {
      assert forall i: nat :: i < |s.workers| ==> s.workers[i] in s.workers;
    } else {
      var mv := SomethingToDo(c, s);
    }
  }

  // ---- Imperative form of the writers ---------------------------------------------

  /** The findings table a scan appends to. */
  class FindingStore {
    var findings: seq<Finding>

    method PersistSeen(a: Address, probe: Probe, index: map<Key, IpRow>)
      modifies this
      ensures |findings| == |old(findings)| + 1 && old(findings) <= findings
      ensures findings[|old(findings)|].address == a && findings[|old(findings)|].ports == probe.ports
      ensures ClassifiedAs(findings[|old(findings)|].classification, Parsed(a) in index, old(findings), a, probe.ports)
    {
      var hasRow := Parsed(a) in index;
      var prior := [];
      if hasRow {
        prior := LatestPorts(findings, a);
      }
      var classification := ClassifySeen(probe, hasRow, prior);
      ClassifyMeans(probe, hasRow, findings, a);
      findings := findings + [Finding(a, classification, probe.ports)];
    }

    method PersistStale(a: Address)
      modifies this
      ensures findings == old(findings) + [Finding(a, Stale, [])]
    {
      findings := findings + [Finding(a, Stale, [])];
    }

    /** The sweep over the index, in whatever order the index is walked. */
    method SweepStale(index: map<Key, IpRow>, seen: set<Address>)
      modifies this
      ensures old(findings) <= findings
      ensures var swept := findings[|old(findings)|..];
              && (forall i, j :: 0 <= i < j < |swept| ==> swept[i].address != swept[j].address)
              && (forall f: Finding :: f in swept <==>
                    f == Finding(f.address, Stale, []) && Parsed(f.address) in index && f.address !in seen
                    && index[Parsed(f.address)].status in {"assigned", "discovered", "dhcp", "active"})
    {
      var rest := index.Keys;
      ghost var swept: seq<Finding> := [];
      while rest != {}
        invariant rest <= index.Keys
        invariant findings == old(findings) + swept
        invariant forall i, j :: 0 <= i < j < |swept| ==> swept[i].address != swept[j].address
        invariant forall f: Finding :: f in swept <==>
                    f == Finding(f.address, Stale, []) && Parsed(f.address) in index.Keys - rest
                    && f.address !in seen && Sweepable(index[Parsed(f.address)].status)
        decreases rest
      {
        var key :| key in rest;
        rest := rest - {key};
        if key.Parsed? && key.address !in seen && Sweepable(index[key].status) {
          PersistStale(key.address);
          swept := swept + [Finding(key.address, Stale, [])];
        }
      }
      assert findings[|old(findings)|..] == swept;
    }
  }
}
