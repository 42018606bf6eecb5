/** Bounded overtaking in the interleaved scheduler: when workers do not get in between a fetch
    and the end of its pass and no edit puts a check time back, no monitor is accepted twice while
    a due one waits. */
module Overtaking {
  import opened Basics
  import opened Incidents
  import opened Lifecycle
  import opened Requests
  import opened Interleaving
  import opened Exclusion
  import opened EnqueuePass

  /** Ascending check time, never-checked first. */
  predicate NotAfter(a: Option<int>, b: Option<int>) {
    a.None? || (b.Some? && a.value <= b.value)
  }

  function CheckTimes(w: World): map<MonitorId, Option<int>> {
    map id | id in w.rows :: w.rows[id].lastCheckedAt
  }

  /** The order of the due query. */
  ghost predicate InQueryOrder(due: seq<Job>, checked: map<MonitorId, Option<int>>) {
    && (forall j :: j in due ==> j.id in checked)
    && (forall i, j :: 0 <= i < j < |due| ==> NotAfter(checked[due[i].id], checked[due[j].id]))
  }

  /** In that order monitors never checked come first and the others follow by check time; and it
      is a total preorder, so every set of rows can be listed in it. */
  lemma NeverCheckedFirst(a: Option<int>, b: Option<int>, c: Option<int>)
    ensures NotAfter(a, b) <==> (b.None? ==> a.None?) && (a.Some? && b.Some? ==> a.value <= b.value)
    ensures NotAfter(a, b) || NotAfter(b, a)
    ensures NotAfter(a, b) && NotAfter(b, c) ==> NotAfter(a, c)
  {
  }

  // ---- Runs in which x waits ------------------------------------------------------

  /** A tick with its whole pass, or one move of anybody else. */
  datatype Block = Tick(due: seq<Job>, pass: seq<Move>) | Other(mv: Move)

  function AfterBlock(s: State, b: Block): State {
    match b
    case Tick(due, pass) => Exec(Next(s, Fetch(due)), pass)
    case Other(mv) => Next(s, mv)
  }

  /** A stamp that is later than the last check of x. */
  predicate StampsLater(s: State, x: MonitorId, at: int)
    requires x in s.w.rows
  {
    !NotAfter(Some(at), s.w.rows[x].lastCheckedAt)
  }

  /** An update that does not put a check time back: the row still has the one that was read,
      or, for a monitor other than x, the one read is later than x's. */
  predicate KeepsStamp(s: State, id: MonitorId, m: Row, x: MonitorId)
    requires x in s.w.rows
  {
    id in s.w.rows ==>
      || s.w.rows[id].lastCheckedAt == m.lastCheckedAt
      || (id != x && m.lastCheckedAt.Some? && StampsLater(s, x, m.lastCheckedAt.value))
  }

  /** The other moves: checks succeed, the set of monitors stays, x is not stamped, the clock has
      moved on since x was last checked, and no edit spans a stamp of its monitor. */
  predicate Regular(s: State, mv: Move, x: MonitorId)
    requires x in s.w.rows
  {
    match mv
    case Advance(i, probe, at) =>
      i < |s.workers| && s.workers[i].Busy? ==>
        var v := s.workers[i];
        && s.w.Has(v.job.id)
        && (v.phase.Begin? ==> RunVerdict(v.job.m, probe, at).Some?)
        && (v.phase.Decided? ==> StampsLater(s, x, at))
    case Abort(i) => i < |s.workers| && s.workers[i].Busy? ==> s.workers[i].phase.Hooking?
    case Beat(id, _, at) => id != x && StampsLater(s, x, at)
    case Api(a) =>
      (match a
       case Create(_, _, _, _) => false
       case Delete(_) => false
       case Heartbeat(id, _, at) => id != x && StampsLater(s, x, at)
       case ManualTest(id, _, at) => id != x && StampsLater(s, x, at)
       case _ => true)
    case RequestWrite(r, at) =>
      (match r
       case Editing(id, m, _) => KeepsStamp(s, id, m, x)
       case Stamping(id, _) => id != x && StampsLater(s, x, at)
       case Recording(id, _, _) => id != x && StampsLater(s, x, at)
       case _ => true)
    case Fetch(_) => false
    case Consider => false
    case Send => false
    case Unmark => false
    case _ => true
  }

  /** x is stored, due at every tick, and not accepted. */
  ghost predicate Waits(s: State, blocks: seq<Block>, x: MonitorId)
    decreases |blocks|
  {
    && x in s.w.rows && x !in s.inProgress
    && (blocks != [] ==>
          && (match blocks[0]
              case Tick(due, pass) =>
                && Enabled(s, Fetch(due)) && DistinctIds(due) && InQueryOrder(due, CheckTimes(s.w))
                && x in IdsOf(due) && LoopOnly(pass) && AfterBlock(s, blocks[0]).loop.Selecting?
              case Other(mv) => Regular(s, mv, x))
          && Waits(AfterBlock(s, blocks[0]), blocks[1..], x))
  }

  function AfterBlocks(s: State, blocks: seq<Block>): State
    decreases |blocks|
  {
    if blocks == [] then s else AfterBlocks(AfterBlock(s, blocks[0]), blocks[1..])
  }

  function Ids(jobs: seq<Job>): seq<MonitorId> {
    seq(|jobs|, i requires 0 <= i < |jobs| => jobs[i].id)
  }

  // ---- The invariant --------------------------------------------------------------

  /** The monitors whose running check has not written its row yet. */
  function Unwritten(ws: seq<Worker>): set<MonitorId> {
    set v | v in ws && v.Busy? && !v.phase.Hooking? :: v.job.id
  }

  ghost predicate CheckedAfter(w: World, y: MonitorId, x: MonitorId) {
    y in w.rows && x in w.rows && !NotAfter(w.rows[y].lastCheckedAt, w.rows[x].lastCheckedAt)
  }

  ghost predicate Underway(s: State, y: MonitorId, x: MonitorId) {
    y in IdsOf(s.queue) || y in Unwritten(s.workers) || CheckedAfter(s.w, y, x)
  }

  /** Since `from`, everything accepted is other than x, accepted once, and still to be written
      or checked after x. */
  ghost predicate Overtaken(s: State, from: nat, x: MonitorId) {
    && Protocol(s) && x in s.w.rows && from <= |s.accepted|
    && DistinctIds(s.accepted[from..])
    && (forall j :: j in s.accepted[from..] ==> j.id != x && j.id in s.w.rows && Underway(s, j.id, x))
  }

  // ---- Ticks ----------------------------------------------------------------------

  lemma {:induction false} UnmarkedInOrder(due: seq<Job>, inProgress: set<MonitorId>,
                                           checked: map<MonitorId, Option<int>>)
    requires InQueryOrder(due, checked)
    ensures InQueryOrder(Unmarked(due, inProgress), checked)
  {
    if due != [] {
      var tail := due[1..];
      assert forall i :: 0 <= i < |tail| ==> tail[i] == due[i + 1] && tail[i] in due;
      UnmarkedInOrder(tail, inProgress, checked);
      UnmarkedMeans(tail, inProgress);
      var rest := Unmarked(tail, inProgress);
      if due[0].id in inProgress {
        assert Unmarked(due, inProgress) == rest;
      } else {
        assert due[0] in due;
        InOrderCons(due[0], rest, checked);
      }
    }
  }

  lemma InOrderCons(j: Job, rest: seq<Job>, checked: map<MonitorId, Option<int>>)
    requires InQueryOrder(rest, checked) && j.id in checked
    requires forall r :: r in rest ==> NotAfter(checked[j.id], checked[r.id])
    ensures InQueryOrder([j] + rest, checked)
  {
  }

  /** The first rows of a list that leaves x out come before x. */
  lemma TakenBefore(free: seq<Job>, room: int, p: int, checked: map<MonitorId, Option<int>>)
    requires InQueryOrder(free, checked) && 0 <= p < |free| && free[p].id !in IdsOf(Take(free, room))
    ensures forall j :: j in Take(free, room) ==> j.id in checked && NotAfter(checked[j.id], checked[free[p].id])
  {
    var taken := Take(free, room);
    assert forall q :: 0 <= q < |taken| ==> taken[q] == free[q] && taken[q].id in IdsOf(taken);
    forall j | j in taken ensures j.id in checked && NotAfter(checked[j.id], checked[free[p].id]) {
      var i :| 0 <= i < |taken| && taken[i] == j;
      assert free[i] in free;
    }
  }

  /** If x was fetched but not accepted, everything accepted was fetched before x. */
  lemma AcceptedBefore(due: seq<Job>, inProgress: set<MonitorId>, room: int, x: MonitorId,
                       checked: map<MonitorId, Option<int>>)
    requires InQueryOrder(due, checked) && x in IdsOf(due) && x !in inProgress
    requires x !in IdsOf(Take(Unmarked(due, inProgress), room))
    ensures x in checked
    ensures forall j :: j in Take(Unmarked(due, inProgress), room) ==>
              j.id in checked && NotAfter(checked[j.id], checked[x])
  {
    var free := Unmarked(due, inProgress);
    UnmarkedMeans(due, inProgress);
    UnmarkedInOrder(due, inProgress, checked);
    var waiting :| waiting in due && waiting.id == x;
    var p :| 0 <= p < |free| && free[p] == waiting;
    TakenBefore(free, room, p, checked);
  }

  /** What a pass over the fetched rows accepts. */
  function Taken(s: State, due: seq<Job>): seq<Job> {
    Take(Unmarked(due, s.inProgress), s.Capacity() - |s.queue|)
  }

  lemma PassTakesTaken(s: State, due: seq<Job>)
    requires Protocol(s) && DistinctIds(due)
    ensures Pass(s.inProgress, s.queue, s.Capacity(), due)
         == (s.inProgress + IdsOf(Taken(s, due)), s.queue + Taken(s, due))
  {
    PassTakesFirstUnmarked(s.inProgress, s.queue, s.Capacity(), due);
  }

  lemma TakePart(free: seq<Job>, n: int)
    ensures forall j :: j in Take(free, n) ==> j in free
    ensures DistinctIds(free) ==> DistinctIds(Take(free, n))
    ensures forall j :: j in Take(free, n) ==> j.id in IdsOf(Take(free, n))
  {
  }

  /** While x waits, a tick accepts distinct stored unmarked monitors, last checked no later
      than x. */
  lemma TickAccepts(s: State, due: seq<Job>, x: MonitorId)
    requires Enabled(s, Fetch(due)) && DistinctIds(due) && InQueryOrder(due, CheckTimes(s.w))
    requires x in IdsOf(due) && x !in s.inProgress && x !in IdsOf(Taken(s, due))
    ensures DistinctIds(Taken(s, due)) && x in s.w.rows
    ensures forall j :: j in Taken(s, due) ==>
              j.id != x && j.id in s.w.rows && j.id !in s.inProgress && !CheckedAfter(s.w, j.id, x)
  {
    var room := s.Capacity() - |s.queue|;
    UnmarkedMeans(due, s.inProgress);
    AcceptedBefore(due, s.inProgress, room, x, CheckTimes(s.w));
    TakePart(Unmarked(due, s.inProgress), room);
  }

  /** A monitor that is still to be written is marked. */
  lemma UnwrittenIsMarked(s: State, y: MonitorId)
    requires Protocol(s) && (y in IdsOf(s.queue) || y in Unwritten(s.workers))
    ensures y in s.inProgress
  {
    MarkedMeansHeld(s, y);
    if y in Unwritten(s.workers) {
      var v :| v in s.workers && v.Busy? && v.job.id == y;
      var i :| 0 <= i < |s.workers| && s.workers[i] == v;
      assert Holds(s.workers[i], y);
    } else {
      var j :| j in s.queue && j.id == y;
      var a :| 0 <= a < |s.queue| && s.queue[a] == j;
    }
  }

  lemma AppendDistinct(earlier: seq<Job>, taken: seq<Job>)
    requires DistinctIds(earlier) && DistinctIds(taken)
    requires forall j, k :: j in earlier && k in taken ==> j.id != k.id
    ensures DistinctIds(earlier + taken)
  {
  }

  lemma OvertakenTick(s: State, from: nat, x: MonitorId, due: seq<Job>, pass: seq<Move>)
    requires Overtaken(s, from, x) && x !in s.inProgress && Waits(s, [Tick(due, pass)], x)
    ensures Overtaken(AfterBlock(s, Tick(due, pass)), from, x)
  {
    var s1 := Next(s, Fetch(due));
    var t := Exec(s1, pass);
    assert [Tick(due, pass)][0] == Tick(due, pass);
    ProtocolStep(s, Fetch(due));
    ProtocolForever(s1, pass);
    UninterruptedLoopIsPass(s1, pass);
    assert x !in t.inProgress;
    PassTakesTaken(s, due);
    TickAccepts(s, due, x);
    var taken := Taken(s, due);
    assert t.queue[|s.queue|..] == taken && t.accepted == s.accepted + taken;
    OvertakenMore(s, t, from, x, taken);
  }

  lemma OvertakenMore(s: State, t: State, from: nat, x: MonitorId, taken: seq<Job>)
    requires Overtaken(s, from, x) && Protocol(t) && DistinctIds(taken)
    requires t.w == s.w && t.workers == s.workers
    requires t.queue == s.queue + taken && t.accepted == s.accepted + taken
    requires forall j :: j in taken ==>
               j.id != x && j.id in s.w.rows && j.id !in s.inProgress && !CheckedAfter(s.w, j.id, x)
    ensures Overtaken(t, from, x)
  {
    var before := s.accepted[from..];
    assert t.accepted[from..] == before + taken;
    forall j, k | j in before && k in taken ensures j.id != k.id {
      if j.id == k.id && !CheckedAfter(s.w, j.id, x) {
        UnwrittenIsMarked(s, j.id);
      }
    }
    AppendDistinct(before, taken);
    forall j | j in before + taken ensures j.id != x && j.id in t.w.rows && Underway(t, j.id, x) {
      QueueGrows(s.queue, taken, j);
    }
  }

  lemma QueueGrows(queue: seq<Job>, taken: seq<Job>, j: Job)
    ensures j.id in IdsOf(queue) ==> j.id in IdsOf(queue + taken)
    ensures j in taken ==> j.id in IdsOf(queue + taken)
  {
    if j.id in IdsOf(queue) {
      var q :| q in queue && q.id == j.id;
      assert q in queue + taken;
    }
    if j in taken {
      assert j in queue + taken;
    }
  }

  // ---- Other moves ----------------------------------------------------------------

  lemma OvertakenOther(s: State, from: nat, x: MonitorId, mv: Move)
    requires Overtaken(s, from, x) && x !in s.inProgress && Regular(s, mv, x)
    ensures Overtaken(Next(s, mv), from, x)
  {
    var t := Next(s, mv);
    ProtocolStep(s, mv);
    RegularKeepsAccepted(s, mv, x);
    forall j | j in s.accepted[from..] ensures j.id in t.w.rows && Underway(t, j.id, x) {
      UnderwayStep(s, mv, x, j.id);
    }
  }

  lemma RegularKeepsAccepted(s: State, mv: Move, x: MonitorId)
    requires x in s.w.rows && Regular(s, mv, x)
    ensures Next(s, mv).accepted == s.accepted && Next(s, mv).w.rows.Keys == s.w.rows.Keys
  {
    if Enabled(s, mv) && mv.Advance? {
      CheckStepStamps(s.w, s.workers[mv.i].job, s.workers[mv.i].phase, mv.probe, mv.at);
    } else if Enabled(s, mv) && mv.Api? {
      ApiStamps(s.w, mv.action);
    } else if Enabled(s, mv) && mv.BeatAdvance? {
      HookKeepsRows(s.w, mv.hook);
    } else if Enabled(s, mv) && mv.RequestWrite? {
      UpdateStamps(s.w, mv.request, mv.at);
    }
  }

  /** What the update of a request does to check times. */
  lemma UpdateStamps(w: World, r: Request, at: int)
    ensures var w' := Update(w, r, at).w;
            && w'.rows.Keys == w.rows.Keys
            && (forall y :: y in w.rows && w'.rows[y].lastCheckedAt != w.rows[y].lastCheckedAt ==>
                  || (r.Editing? && y == r.id && w'.rows[y].lastCheckedAt == r.m.lastCheckedAt)
                  || ((r.Stamping? || r.Recording?) && y == r.id && w'.rows[y].lastCheckedAt == Some(at)))
  {
  }

  lemma HookKeepsRows(w: World, h: Hook)
    ensures HookStep(w, h).0.rows == w.rows
  {
  }

  /** Only the status write of a check stamps, and it stamps its own monitor. */
  lemma CheckStepStamps(w: World, job: Job, phase: Phase, probe: Verdict, at: int)
    ensures var w' := CheckStep(w, job, phase, probe, at).0;
            && w'.rows.Keys == w.rows.Keys
            && (forall y :: y in w.rows && (y != job.id || !phase.Decided?) ==> w'.rows[y] == w.rows[y])
            && (phase.Decided? && job.id in w.rows ==> w'.rows[job.id].lastCheckedAt == Some(at))
    ensures w.Has(job.id) && (phase.Begin? ==> RunVerdict(job.m, probe, at).Some?)
            && !phase.Decided? && !phase.Hooking? ==>
              var next := CheckStep(w, job, phase, probe, at).1;
              next.Some? && !next.value.Hooking?
  {
    if phase.Hooking? {
      HookKeepsRows(w, phase.hook);
    }
  }

  lemma ApiStamps(w: World, a: Action)
    requires !a.Create? && !a.Delete? && !a.Check?
    ensures var w' := Lifecycle.Step(w, a);
            && w'.rows.Keys == w.rows.Keys
            && (forall y :: y in w.rows && w'.rows[y].lastCheckedAt != w.rows[y].lastCheckedAt ==>
                  (a.Heartbeat? || a.ManualTest?) && y == a.id && w'.rows[y].lastCheckedAt == Some(a.at))
  {
  }

  lemma UnderwayStep(s: State, mv: Move, x: MonitorId, y: MonitorId)
    requires Protocol(s) && x in s.w.rows && x !in s.inProgress && y != x && y in s.w.rows
    requires Regular(s, mv, x) && Underway(s, y, x)
    ensures Underway(Next(s, mv), y, x)
  {
    if Enabled(s, mv) {
      if mv.Advance? {
        UnderwayAdvance(s, mv, x, y);
      } else if mv.Receive? {
        UnderwayReceive(s, mv.i, x, y);
      } else if mv.Api? || mv.Beat? || mv.BeatAdvance? || mv.RequestWrite? {
        UnderwayRows(s, mv, x, y);
      } else {
        UnderwayWorker(s, mv, x, y);
      }
    }
  }

  /** A move that writes rows but leaves queue and workers alone. */
  lemma UnderwayRows(s: State, mv: Move, x: MonitorId, y: MonitorId)
    requires x in s.w.rows && y in s.w.rows && (mv.Api? || mv.Beat? || mv.BeatAdvance? || mv.RequestWrite?)
    requires Enabled(s, mv) && Regular(s, mv, x) && Underway(s, y, x)
    ensures Underway(Apply(s, mv), y, x)
  {
    var t := Apply(s, mv);
    RowsStayLater(s, mv, x, y);
    assert t.queue == s.queue && t.workers == s.workers;
  }

  lemma RowsStayLater(s: State, mv: Move, x: MonitorId, y: MonitorId)
    requires x in s.w.rows && y in s.w.rows && (mv.Api? || mv.Beat? || mv.BeatAdvance? || mv.RequestWrite?)
    requires Enabled(s, mv) && Regular(s, mv, x)
    ensures CheckedAfter(s.w, y, x) ==> CheckedAfter(Apply(s, mv).w, y, x)
  {
    if mv.Api? {
      ApiStamps(s.w, mv.action);
    } else if mv.BeatAdvance? {
      HookKeepsRows(s.w, mv.hook);
    } else if mv.RequestWrite? {
      UpdateStaysLater(s, mv.request, mv.at, x, y);
    }
  }

  lemma UpdateStaysLater(s: State, r: Request, at: int, x: MonitorId, y: MonitorId)
    requires x in s.w.rows && y in s.w.rows && Regular(s, RequestWrite(r, at), x)
    ensures CheckedAfter(s.w, y, x) ==> CheckedAfter(Update(s.w, r, at).w, y, x)
  {
    UpdateStamps(s.w, r, at);
  }

  /** A move that writes no row and takes nothing off the queue. */
  lemma UnderwayWorker(s: State, mv: Move, x: MonitorId, y: MonitorId)
    requires x in s.w.rows && y in s.w.rows && Enabled(s, mv) && Regular(s, mv, x) && Underway(s, y, x)
    requires !mv.Advance? && !mv.Receive? && !mv.Api? && !mv.Beat? && !mv.BeatAdvance? && !mv.RequestWrite?
    ensures Underway(Apply(s, mv), y, x)
  {
    if mv.WindowLost? || mv.Abort? || mv.Release? || mv.Exit? {
      UnwrittenUpdate(s.workers, mv.i, Apply(s, mv).workers[mv.i]);
    }
  }

  /** Replacing a worker takes away at most the monitor it had still to write. */
  lemma UnwrittenUpdate(ws: seq<Worker>, i: nat, v: Worker)
    requires i < |ws|
    ensures forall y :: y in Unwritten(ws) && !(ws[i].Busy? && ws[i].job.id == y) ==> y in Unwritten(ws[i := v])
    ensures v.Busy? && !v.phase.Hooking? ==> v.job.id in Unwritten(ws[i := v])
    ensures ws[i].Busy? && ws[i].phase.Hooking? ==> Unwritten(ws) <= Unwritten(ws[i := v])
  {
    assert ws[i := v][i] in ws[i := v];
    forall u | u in ws && u != ws[i] ensures u in ws[i := v] {
      var k :| 0 <= k < |ws| && ws[k] == u;
      assert ws[i := v][k] == u;
    }
  }

  lemma UnderwayReceive(s: State, i: nat, x: MonitorId, y: MonitorId)
    requires Enabled(s, Receive(i)) && Underway(s, y, x)
    ensures Underway(Apply(s, Receive(i)), y, x)
  {
    var t := Apply(s, Receive(i));
    UnwrittenUpdate(s.workers, i, t.workers[i]);
    assert forall j :: j in s.queue ==> j == s.queue[0] || j in s.queue[1..];
  }

  lemma UnderwayAdvance(s: State, mv: Move, x: MonitorId, y: MonitorId)
    requires Protocol(s) && x in s.w.rows && x !in s.inProgress && y in s.w.rows
    requires mv.Advance? && Enabled(s, mv) && Regular(s, mv, x) && Underway(s, y, x)
    ensures Underway(Apply(s, mv), y, x)
  {
    var t, v := Apply(s, mv), s.workers[mv.i];
    HeldIsElsewhere(s, mv.i);
    CheckStepStamps(s.w, v.job, v.phase, mv.probe, mv.at);
    UnwrittenUpdate(s.workers, mv.i, t.workers[mv.i]);
    assert t.w.rows[x] == s.w.rows[x];
  }

  // ---- The theorem ----------------------------------------------------------------

  lemma {:induction false} OvertakenThroughout(s: State, from: nat, blocks: seq<Block>, x: MonitorId)
    requires Overtaken(s, from, x) && Waits(s, blocks, x)
    ensures Overtaken(AfterBlocks(s, blocks), from, x)
    decreases |blocks|
  {
    if blocks != [] {
      var s1 := AfterBlock(s, blocks[0]);
      assert Waits(s1, blocks[1..], x);
      match blocks[0] {
        case Tick(due, pass) =>
          assert Waits(s1, [], x);
          assert [blocks[0]][1..] == [];
          OvertakenTick(s, from, x, due, pass);
        case Other(mv) => OvertakenOther(s, from, x, mv);
      }
      OvertakenThroughout(s1, from, blocks[1..], x);
    }
  }

  lemma {:induction false} DistinctBound<T>(xs: seq<T>, all: set<T>)
    requires Distinct(xs) && forall y :: y in xs ==> y in all
    ensures |xs| <= |all|
  {
    if xs != [] {
      assert forall y :: y in xs[1..] ==> y in xs && y != xs[0];
      DistinctBound(xs[1..], all - {xs[0]});
    }
  }

  /** Bounded overtaking: while a due monitor waits, whatever the checks, passes, manual tests and
      heartbeats of the others, and edits that put no stamp back, no other monitor is accepted
      twice; so it is overtaken fewer times than there are monitors. */
  lemma {:induction false} NobodyOvertakesTwice(s: State, blocks: seq<Block>, x: MonitorId)
    requires Protocol(s) && Waits(s, blocks, x)
    ensures var t := AfterBlocks(s, blocks);
            && s.accepted <= t.accepted
            && Distinct(Ids(t.accepted[|s.accepted|..])) && x !in Ids(t.accepted[|s.accepted|..])
            && |t.accepted| - |s.accepted| < |t.w.rows|
  {
    assert s.accepted[|s.accepted|..] == [];
    OvertakenThroughout(s, |s.accepted|, blocks, x);
    AcceptedGrows(s, blocks, x);
    var t := AfterBlocks(s, blocks);
    var ids := Ids(t.accepted[|s.accepted|..]);
    forall y | y in ids ensures y in t.w.rows.Keys - {x} {
      var i :| 0 <= i < |ids| && ids[i] == y;
      assert t.accepted[|s.accepted|..][i] in t.accepted[|s.accepted|..];
    }
    DistinctBound(ids, t.w.rows.Keys - {x});
  }

  lemma {:induction false} AcceptedGrows(s: State, blocks: seq<Block>, x: MonitorId)
    requires Waits(s, blocks, x)
    ensures s.accepted <= AfterBlocks(s, blocks).accepted
    decreases |blocks|
  {
    if blocks != [] {
      match blocks[0] {
        case Tick(due, pass) => LoopKeepsOutcome(Next(s, Fetch(due)), pass);
        case Other(mv) => RegularKeepsAccepted(s, mv, x);
      }
      AcceptedGrows(AfterBlock(s, blocks[0]), blocks[1..], x);
    }
  }
}
