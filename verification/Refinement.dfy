/** Interleaved checks refine atomic checks. In a run where jobs are marked with fresh rows
    and the API leaves monitors with a marked job alone, every check takes effect as if it
    ran in one step at its last database call; all results about atomic runs carry over.
    A run with one stale row shows that freshness is needed. */
module Refinement {
  import opened Basics
  import opened Incidents
  import opened Lifecycle
  import opened LifecycleProofs
  import opened Interleaving
  import opened Exclusion

  /** The monitor an API action works on, if it exists. */
  function Target(w: World, a: Action): Option<MonitorId> {
    match a
    case AcknowledgeIncident(i) => if i in w.ledger.rows then Some(w.ledger.rows[i].monitor) else None
    case ResolveIncident(i) => if i in w.ledger.rows then Some(w.ledger.rows[i].monitor) else None
    case _ => Some(a.id)
  }

  /** No failing database call, no overlapping heartbeats, no API action on a marked
      monitor, and a job is marked only while its row is current. */
  predicate Calm(s: State, mv: Move) {
    match mv
    case Consider =>
      s.loop.Ranging? && s.loop.rest != [] && s.loop.rest[0].id !in s.inProgress ==>
        s.loop.rest[0].id in s.w.rows && s.w.rows[s.loop.rest[0].id] == s.loop.rest[0].m
    case WindowLost(_) => false
    case Abort(_) => false
    case Beat(_, _, _) => false
    case BeatAdvance(_) => false
    case BeatAbort(_) => false
    case RequestRead(_) => false
    case RequestWrite(_, _) => false
    case RequestAbort(_) => false
    case Api(a) => Target(s.w, a).Some? ==> Target(s.w, a).value !in s.inProgress
    case _ => true
  }

  predicate CalmRun(s: State, moves: seq<Move>) {
    moves == [] || (CalmRun(s, moves[..|moves| - 1]) && Calm(Exec(s, moves[..|moves| - 1]), moves[|moves| - 1]))
  }

  /** The atomic check that a returning check amounts to. */
  function Committed(job: Job, phase: Phase, at: int, next: Option<Phase>): seq<Action> {
    if next.Some? then []
    else match phase
         case Decided(p, t, _) => [Check(job.id, p, t, at)]
         case Hooking(p, t, writtenAt, _) => [Check(job.id, p, t, writtenAt)]
         case _ => []
  }

  function Emitted(s: State, mv: Move): seq<Action> {
    if !Enabled(s, mv) then []
    else match mv
         case Api(a) => [a]
         case Advance(i, probe, at) =>
           var v := s.workers[i];
           Committed(v.job, v.phase, at, CheckStep(s.w, v.job, v.phase, probe, at).1)
         case _ => []
  }

  function AllEmitted(s: State, moves: seq<Move>): seq<Action> {
    if moves == [] then []
    else AllEmitted(s, moves[..|moves| - 1]) + Emitted(Exec(s, moves[..|moves| - 1]), moves[|moves| - 1])
  }

  // ---- The simulation relation ----------------------------------------------------

  ghost predicate Latest(l: Ledger, id: MonitorId, i: IncidentId) {
    i in l.ActiveOf(id) && forall j :: j in l.ActiveOf(id) ==> j <= i
  }

  /** A running check on database w whose atomic counterpart on a has not happened yet. */
  ghost predicate PhaseRefines(w: World, a: World, job: Job, phase: Phase) {
    && w.Has(job.id) && a.Has(job.id)
    && a.rows[job.id] == job.m && job.m.Schedulable()
    && match phase
       case Begin => w.rows[job.id] == job.m && w.results[job.id] == a.results[job.id]
       case Ran(p, t, verdict) =>
         && RunVerdict(job.m, p, t) == Some(verdict)
         && w.rows[job.id] == job.m
         && w.results[job.id] == a.results[job.id] + [verdict]
       case Decided(p, t, status) =>
         && RanAs(w, a, job, p, t, status)
         && w.rows[job.id] == job.m
       case Hooking(p, t, writtenAt, h) =>
         var status := w.rows[job.id].status;
         && (status.Up? || status.Degraded? || status.Down?)
         && RanAs(w, a, job, p, t, status)
         && w.rows[job.id] == WriteBack(job.m, job.m, status, writtenAt)
         && status != job.m.status && h.id == job.id
         && match h
            case Finding(_, st) => st == status
            case Inserting(_, severity) =>
              !status.Up? && severity == SeverityFor(status) && w.ledger.ActiveOf(job.id) == {}
            case Closing(_, i) => status.Up? && Latest(w.ledger, job.id, i)
  }

  ghost predicate RanAs(w: World, a: World, job: Job, p: Verdict, t: int, status: Verdict)
    requires w.Has(job.id) && a.Has(job.id)
  {
    && RunVerdict(job.m, p, t).Some?
    && w.results[job.id] == a.results[job.id] + [RunVerdict(job.m, p, t).value]
    && status == Decide(job.m, RunVerdict(job.m, p, t).value, w.results[job.id])
  }

  ghost predicate SameMonitor(w: World, a: World, id: MonitorId) {
    && (id in w.rows <==> id in a.rows) && (id in w.results <==> id in a.results)
    && (id in w.rows ==> w.rows[id] == a.rows[id])
    && (id in w.results ==> w.results[id] == a.results[id])
  }

  /** Worlds that differ at most in monitor id: rows, results and active incidents. */
  ghost predicate OnlyTouches(w: World, w': World, id: MonitorId) {
    forall other :: other != id ==> SameMonitor(w, w', other) && w.ledger.ActiveOf(other) == w'.ledger.ActiveOf(other)
  }

  ghost predicate Started(v: Worker, id: MonitorId) {
    v.Busy? && !v.phase.Begin? && v.job.id == id
  }

  ghost predicate Pending(a: World, j: Job) {
    a.Has(j.id) && a.rows[j.id] == j.m && j.m.Schedulable()
  }

  ghost predicate Refines(s: State, a: World) {
    && Protocol(s)
    && s.w.Valid() && a.Valid()
    && a.rows.Keys == s.w.rows.Keys && a.ledger == s.w.ledger
    && (forall id :: (forall v :: v in s.workers ==> !Started(v, id)) ==> SameMonitor(s.w, a, id))
    && (forall v :: v in s.workers && v.Busy? ==> PhaseRefines(s.w, a, v.job, v.phase))
    && (forall j :: j in s.queue ==> Pending(a, j))
    && (s.loop.Marked? ==> Pending(a, s.loop.job))
    && (s.loop.Ranging? || s.loop.Marked? || s.loop.Dropping? ==> forall j :: j in s.loop.rest ==> j.m.Schedulable())
  }

  // ---- One database call of a check -----------------------------------------------

  lemma LatestIsLookup(l: Ledger, id: MonitorId, i: IncidentId)
    requires l.Valid()
    ensures Latest(l, id, i) <==> l.Lookup(id) == Some(i)
  {
  }

  lemma CommitHook(w: World, a: World, job: Job, phase: Phase, probe: Verdict, at: int)
    requires w.Valid() && a.Valid() && w.ledger == a.ledger && phase.Hooking? && PhaseRefines(w, a, job, phase)
    requires CheckStep(w, job, phase, probe, at).1.None?
    ensures CheckStep(w, job, phase, probe, at).0.ledger == AfterHook(a.ledger, job.id, w.rows[job.id].status)
    ensures CheckStep(w, job, phase, probe, at).0.rows == w.rows
    ensures CheckStep(w, job, phase, probe, at).0.results == w.results
  {
  }

  /** A call that is not the last one: nothing happens in the atomic world. */
  lemma QuietCall(w: World, a: World, job: Job, phase: Phase, probe: Verdict, at: int)
    requires w.Valid() && a.Valid() && w.ledger == a.ledger && w.rows.Keys == a.rows.Keys
    requires PhaseRefines(w, a, job, phase)
    requires Committed(job, phase, at, CheckStep(w, job, phase, probe, at).1) == []
    ensures var (w', next) := CheckStep(w, job, phase, probe, at);
            && w'.Valid() && w'.ledger == w.ledger && w'.rows.Keys == w.rows.Keys
            && OnlyTouches(w, w', job.id)
            && (next.Some? ==> PhaseRefines(w', a, job, next.value))
            && (next.None? ==> SameMonitor(w', a, job.id))
  {
    var (w', next) := CheckStep(w, job, phase, probe, at);
    if phase.Hooking? {
      var l := w.ledger;
      if l.Lookup(job.id).Some? {
        LatestIsLookup(l, job.id, l.Lookup(job.id).value);
      }
    }
  }

  /** The last call of a check does what the atomic check does. */
  lemma CommittingCall(w: World, a: World, job: Job, phase: Phase, probe: Verdict, at: int)
    requires w.Valid() && a.Valid() && w.ledger == a.ledger && w.rows.Keys == a.rows.Keys
    requires PhaseRefines(w, a, job, phase)
    requires Committed(job, phase, at, CheckStep(w, job, phase, probe, at).1) != []
    ensures var (w', next) := CheckStep(w, job, phase, probe, at);
            var check := Committed(job, phase, at, next)[0];
            var a' := Lifecycle.Step(a, check);
            && next.None? && a'.ledger == w'.ledger && SameMonitor(w', a', job.id)
            && w'.rows.Keys == w.rows.Keys == a'.rows.Keys && w'.Valid() && a'.Valid()
            && OnlyTouches(w, w', job.id) && OnlyTouches(a, a', job.id)
  {
    var (w', next) := CheckStep(w, job, phase, probe, at);
    var check := Committed(job, phase, at, next)[0];
    var status: Verdict := if phase.Decided? then phase.status else w.rows[job.id].status;
    var a' := AfterCheckFrom(a, job.id, job.m, check.probe, check.at, check.writtenAt);
    assert Lifecycle.Step(a, check) == a';
    assert a'.rows == a.rows[job.id := WriteBack(job.m, job.m, status, check.writtenAt)];
    assert a'.results == a.results[job.id := w.results[job.id]];
    if phase.Hooking? {
      CommitHook(w, a, job, phase, probe, at);
    }
    forall other ensures other != job.id ==> a'.ledger.ActiveOf(other) == a.ledger.ActiveOf(other) {
      HookActive(a.ledger, job.id, status, other);
    }
    HookActive(a.ledger, job.id, status, job.id);
  }

  // ---- Simulation, move by move ---------------------------------------------------

  /** Another worker's check is not affected by a call that only touches monitor id. */
  lemma PhaseFrame(w: World, w': World, a: World, a': World, id: MonitorId, job: Job, phase: Phase)
    requires PhaseRefines(w, a, job, phase) && job.id != id
    requires OnlyTouches(w, w', id) && OnlyTouches(a, a', id)
    ensures PhaseRefines(w', a', job, phase)
  {
    assert SameMonitor(w, w', job.id) && SameMonitor(a, a', job.id);
  }

  lemma TouchNothing(w: World, id: MonitorId)
    ensures OnlyTouches(w, w, id)
  {
  }

  /** A step of worker i that touches only its own monitor, in both worlds. */
  lemma SimulateWorker(s: State, a: World, i: nat, v': Worker, w': World, a': World)
    requires Refines(s, a) && i < |s.workers| && s.workers[i].Busy?
    requires v'.Busy? || v'.Returned?
    requires v'.k == s.workers[i].k && v'.job == s.workers[i].job
    requires w'.Valid() && a'.Valid() && a'.rows.Keys == w'.rows.Keys && a'.ledger == w'.ledger
    requires OnlyTouches(s.w, w', v'.job.id) && OnlyTouches(a, a', v'.job.id)
    requires v'.Busy? ==> !v'.phase.Begin? && PhaseRefines(w', a', v'.job, v'.phase)
    requires v'.Returned? ==> SameMonitor(w', a', v'.job.id)
    ensures Refines(s.(w := w', workers := s.workers[i := v']), a')
  {
    var s' := s.(w := w', workers := s.workers[i := v']);
    var id := v'.job.id;
    ProtocolSameJob(s, i, v', w');
    HeldIsElsewhere(s, i);
    forall other | (forall v :: v in s'.workers ==> !Started(v, other)) ensures SameMonitor(w', a', other) {
      if other != id {
        assert forall v :: v in s.workers ==> !Started(v, other) by {
          forall v | v in s.workers ensures !Started(v, other) {
            var j :| 0 <= j < |s.workers| && s.workers[j] == v;
            assert j != i ==> s'.workers[j] == v && v in s'.workers;
          }
        }
        assert SameMonitor(s.w, a, other) && SameMonitor(s.w, w', other) && SameMonitor(a, a', other);
      } else {
        assert s'.workers[i] in s'.workers;
      }
    }
    forall v | v in s'.workers && v.Busy? ensures PhaseRefines(w', a', v.job, v.phase) {
      var j :| 0 <= j < |s'.workers| && s'.workers[j] == v;
      if j != i {
        WorkersDiffer(s, i, j);
        assert s.workers[j] in s.workers;
        PhaseFrame(s.w, w', a, a', id, v.job, v.phase);
      }
    }
    forall j | j in s.queue ensures Pending(a', j) {
      assert SameMonitor(a, a', j.id);
    }
    if s.loop.Marked? {
      assert SameMonitor(a, a', s.loop.job.id);
    }
  }

  lemma SimulateAdvance(s: State, a: World, mv: Move)
    requires Refines(s, a) && mv.Advance? && Enabled(s, mv)
    ensures Refines(Apply(s, mv), RunAll(a, Emitted(s, mv)))
  {
    var v := s.workers[mv.i];
    assert v in s.workers;
    var (w', next) := CheckStep(s.w, v.job, v.phase, mv.probe, mv.at);
    var v' := if next.Some? then Busy(v.k, v.job, next.value) else Returned(v.k, v.job);
    var emitted := Committed(v.job, v.phase, mv.at, next);
    if emitted == [] {
      QuietCall(s.w, a, v.job, v.phase, mv.probe, mv.at);
      TouchNothing(a, v.job.id);
      SimulateWorker(s, a, mv.i, v', w', a);
    } else {
      CommittingCall(s.w, a, v.job, v.phase, mv.probe, mv.at);
      var a' := Lifecycle.Step(a, emitted[0]);
      assert emitted == [emitted[0]] && emitted[..0] == [];
      assert RunAll(a, emitted) == a';
      SimulateWorker(s, a, mv.i, v', w', a');
    }
  }

  lemma HeartbeatTouches(w: World, act: Action)
    requires w.Valid() && act.Heartbeat?
    ensures Lifecycle.Step(w, act).Valid() && Lifecycle.Step(w, act).rows.Keys == w.rows.Keys
    ensures OnlyTouches(w, Lifecycle.Step(w, act), act.id)
  {
    var id, status := act.id, PushedVerdict(act.pushed);
    forall other
      ensures other != id ==> AfterHook(w.ledger, id, status).ActiveOf(other) == w.ledger.ActiveOf(other)
    {
      HookActive(w.ledger, id, status, other);
    }
    HookActive(w.ledger, id, status, id);
  }

  /** A heartbeat does the same to two worlds that agree on its monitor. */
  lemma HeartbeatAgrees(w: World, a: World, act: Action)
    requires w.Valid() && a.Valid() && w.rows.Keys == a.rows.Keys && w.ledger == a.ledger && act.Heartbeat?
    requires SameMonitor(w, a, act.id)
    ensures var w', a' := Lifecycle.Step(w, act), Lifecycle.Step(a, act);
            w'.ledger == a'.ledger && SameMonitor(w', a', act.id)
  {
  }

  /** What an API action other than a heartbeat leaves alone. */
  lemma ApiTouches(w: World, act: Action)
    requires w.Valid() && !act.Check? && !act.Heartbeat?
    ensures Lifecycle.Step(w, act).Valid()
    ensures if Target(w, act).Some? then OnlyTouches(w, Lifecycle.Step(w, act), Target(w, act).value)
            else Lifecycle.Step(w, act) == w
  {
    OtherValid(w, act);
    if Target(w, act).Some? {
      var w' := Lifecycle.Step(w, act);
      forall other | other != Target(w, act).value
        ensures SameMonitor(w, w', other) && w.ledger.ActiveOf(other) == w'.ledger.ActiveOf(other)
      {
        OtherActive(w, act, other);
        if act.ResolveIncident? {
          assert act.incident !in w.ledger.ActiveOf(other);
          assert w.ledger.ActiveOf(other) - {act.incident} == w.ledger.ActiveOf(other);
        }
      }
    }
  }

  lemma ApiSameEffect(w: World, a: World, act: Action)
    requires w.Valid() && a.Valid() && w.rows.Keys == a.rows.Keys && w.ledger == a.ledger
    requires !act.Check? && !act.Heartbeat? && (Target(w, act).Some? ==> SameMonitor(w, a, Target(w, act).value))
    ensures var w', a' := Lifecycle.Step(w, act), Lifecycle.Step(a, act);
            && w'.rows.Keys == a'.rows.Keys && w'.ledger == a'.ledger
            && (Target(w, act).Some? ==> SameMonitor(w', a', Target(w, act).value))
  {
    if !act.AcknowledgeIncident? && !act.ResolveIncident? && !act.Create? && w.Has(act.id) {
      MonitorSameEffect(w, a, act);
    }
  }

  lemma MonitorSameEffect(w: World, a: World, act: Action)
    requires w.rows.Keys == a.rows.Keys && w.ledger == a.ledger
    requires !act.Check? && !act.Heartbeat? && !act.AcknowledgeIncident? && !act.ResolveIncident? && !act.Create?
    requires w.Has(act.id) && SameMonitor(w, a, act.id)
    ensures var w', a' := MonitorStep(w, act), MonitorStep(a, act);
            w'.rows.Keys == a'.rows.Keys && w'.ledger == a'.ledger && SameMonitor(w', a', act.id)
  {
  }

  /** An API action does the same to two worlds that agree on its target. */
  lemma ApiAgrees(w: World, a: World, act: Action)
    requires w.Valid() && a.Valid() && w.rows.Keys == a.rows.Keys && w.ledger == a.ledger && !act.Check?
    requires Target(w, act).Some? ==> SameMonitor(w, a, Target(w, act).value)
    ensures var w', a' := Lifecycle.Step(w, act), Lifecycle.Step(a, act);
            && w'.Valid() && a'.Valid() && w'.rows.Keys == a'.rows.Keys && w'.ledger == a'.ledger
            && (Target(w, act).None? ==> w' == w && a' == a)
            && (Target(w, act).Some? ==>
                  && SameMonitor(w', a', Target(w, act).value)
                  && OnlyTouches(w, w', Target(w, act).value) && OnlyTouches(a, a', Target(w, act).value))
  {
    if act.Heartbeat? {
      HeartbeatTouches(w, act);
      HeartbeatTouches(a, act);
      HeartbeatAgrees(w, a, act);
    } else {
      ApiTouches(w, act);
      ApiTouches(a, act);
      ApiSameEffect(w, a, act);
    }
  }

  lemma NotMarkedNotStarted(s: State, id: MonitorId)
    requires Protocol(s) && id !in s.inProgress
    ensures forall v :: v in s.workers ==> !Started(v, id)
  {
    forall v | v in s.workers ensures !Started(v, id) {
      var i :| 0 <= i < |s.workers| && s.workers[i] == v;
      if v.Busy? {
        HeldIsElsewhere(s, i);
      }
    }
  }

  lemma NotMarkedNotQueued(s: State, id: MonitorId)
    requires Protocol(s) && id !in s.inProgress
    ensures forall j :: j in s.queue ==> j.id != id
    ensures !OnLoop(s.loop, id)
    ensures forall v :: v in s.workers && v.Busy? ==> v.job.id != id
  {
    assert One(id in s.inProgress) == Queued(s.queue, id) + Held(s.workers, id) + One(OnLoop(s.loop, id));
    forall j | j in s.queue ensures j.id != id {
      var q :| 0 <= q < |s.queue| && s.queue[q] == j;
      QueuedAt(s.queue, q);
    }
    forall v | v in s.workers && v.Busy? ensures v.job.id != id {
      var i :| 0 <= i < |s.workers| && s.workers[i] == v;
      HeldIsElsewhere(s, i);
    }
  }

  /** A step of both worlds that touches only a monitor with no job under way. */
  lemma SimulateOutside(s: State, a: World, id: MonitorId, w': World, a': World)
    requires Refines(s, a) && id !in s.inProgress
    requires w'.Valid() && a'.Valid() && a'.rows.Keys == w'.rows.Keys && a'.ledger == w'.ledger
    requires OnlyTouches(s.w, w', id) && OnlyTouches(a, a', id) && SameMonitor(w', a', id)
    ensures Refines(s.(w := w'), a')
  {
    NotMarkedNotQueued(s, id);
    forall other | (forall v :: v in s.workers ==> !Started(v, other)) ensures SameMonitor(w', a', other) {
      assert SameMonitor(s.w, a, other);
      assert other != id ==> SameMonitor(s.w, w', other) && SameMonitor(a, a', other);
    }
    forall v | v in s.workers && v.Busy? ensures PhaseRefines(w', a', v.job, v.phase) {
      PhaseFrame(s.w, w', a, a', id, v.job, v.phase);
    }
    forall j | j in s.queue ensures Pending(a', j) {
      assert SameMonitor(a, a', j.id);
    }
    if s.loop.Marked? {
      assert OnLoop(s.loop, s.loop.job.id);
      assert SameMonitor(a, a', s.loop.job.id);
    }
  }

  lemma SimulateApi(s: State, a: World, mv: Move)
    requires Refines(s, a) && mv.Api? && Enabled(s, mv) && Calm(s, mv)
    ensures Refines(Apply(s, mv), RunAll(a, Emitted(s, mv)))
  {
    var act := mv.action;
    assert [act][..0] == [];
    assert RunAll(a, [act]) == Lifecycle.Step(a, act);
    var target := Target(s.w, act);
    if target.Some? {
      NotMarkedNotStarted(s, target.value);
      ApiAgrees(s.w, a, act);
      SimulateOutside(s, a, target.value, Lifecycle.Step(s.w, act), Lifecycle.Step(a, act));
    } else {
      ApiAgrees(s.w, a, act);
    }
  }

  lemma SimulateReceive(s: State, a: World, i: nat)
    requires Refines(s, a) && Enabled(s, Receive(i))
    ensures Refines(Apply(s, Receive(i)), a)
  {
    var s' := Apply(s, Receive(i));
    var j := s.queue[0];
    ProtocolReceive(s, i);
    assert forall v :: v in s.workers ==> !Started(v, j.id) by {
      forall v | v in s.workers ensures !Started(v, j.id) {
        var n :| 0 <= n < |s.workers| && s.workers[n] == v;
        if v.Busy? {
          HeldIsElsewhere(s, n);
        }
      }
    }
    assert Pending(a, j) && SameMonitor(s.w, a, j.id);
    forall id | (forall v :: v in s'.workers ==> !Started(v, id)) ensures SameMonitor(s.w, a, id) {
      WorkersStartedElsewhere(s, s', i, id);
    }
    forall v | v in s'.workers && v.Busy? ensures PhaseRefines(s.w, a, v.job, v.phase) {
      var n :| 0 <= n < |s'.workers| && s'.workers[n] == v;
      assert n != i ==> s.workers[n] in s.workers;
    }
  }

  /** Replacing a worker that has not started anything frees no monitor. */
  lemma WorkersStartedElsewhere(s: State, s': State, i: nat, id: MonitorId)
    requires i < |s.workers| && |s'.workers| == |s.workers| && s'.workers == s.workers[i := s'.workers[i]]
    requires !s.workers[i].Busy? && forall v :: v in s'.workers ==> !Started(v, id)
    ensures forall v :: v in s.workers ==> !Started(v, id)
  {
    forall v | v in s.workers ensures !Started(v, id) {
      var n :| 0 <= n < |s.workers| && s.workers[n] == v;
      if n != i {
        assert s'.workers[n] in s'.workers;
      }
    }
  }

  lemma SimulateWorkerLeaves(s: State, a: World, mv: Move)
    requires Refines(s, a) && Enabled(s, mv) && (mv.Release? || mv.Exit?)
    ensures Refines(Apply(s, mv), a)
  {
    var s' := Apply(s, mv);
    ProtocolStep(s, mv);
    forall id | (forall v :: v in s'.workers ==> !Started(v, id)) ensures SameMonitor(s.w, a, id) {
      WorkersStartedElsewhere(s, s', mv.i, id);
    }
    forall v | v in s'.workers && v.Busy? ensures PhaseRefines(s.w, a, v.job, v.phase) {
      var n :| 0 <= n < |s'.workers| && s'.workers[n] == v;
      assert n != mv.i && s.workers[n] in s.workers;
    }
  }

  lemma SimulateLoop(s: State, a: World, mv: Move)
    requires Refines(s, a) && Enabled(s, mv) && Calm(s, mv)
    requires mv.Fetch? || mv.Consider? || mv.Send? || mv.Unmark? || mv.RequestStop? || mv.CloseJobs?
    ensures Refines(Apply(s, mv), a)
  {
    ProtocolStep(s, mv);
    if mv.Consider? && s.loop.rest != [] && s.loop.rest[0].id !in s.inProgress {
      NotMarkedNotStarted(s, s.loop.rest[0].id);
      assert SameMonitor(s.w, a, s.loop.rest[0].id);
    }
  }

  lemma SimulateMove(s: State, a: World, mv: Move)
    requires Refines(s, a) && Calm(s, mv)
    ensures Refines(Next(s, mv), RunAll(a, Emitted(s, mv)))
  {
    if Enabled(s, mv) {
      match mv {
        case Advance(_, _, _) => SimulateAdvance(s, a, mv);
        case Api(_) => SimulateApi(s, a, mv);
        case Receive(i) => SimulateReceive(s, a, i);
        case Release(_) => SimulateWorkerLeaves(s, a, mv);
        case Exit(_) => SimulateWorkerLeaves(s, a, mv);
        case _ => SimulateLoop(s, a, mv);
      }
    }
  }

  lemma {:induction false} RunAllAppend(w: World, xs: seq<Action>, ys: seq<Action>)
    ensures RunAll(w, xs + ys) == RunAll(RunAll(w, xs), ys)
  {
    if ys == [] {
      assert xs + ys == xs;
    } else {
      assert (xs + ys)[..|xs + ys| - 1] == xs + ys[..|ys| - 1];
      RunAllAppend(w, xs, ys[..|ys| - 1]);
    }
  }

  /** Every calm run is matched, move by move, by the run of the atomic actions it emits:
      checks in the order of their last database call, API actions where they happen. */
  lemma {:induction false} CalmRunsAreAtomic(s: State, moves: seq<Move>)
    requires Initial(s) && CalmRun(s, moves)
    ensures Refines(Exec(s, moves), RunAll(s.w, AllEmitted(s, moves)))
  {
    if moves == [] {
      InitialProtocol(s);
    } else {
      var before, last := moves[..|moves| - 1], moves[|moves| - 1];
      CalmRunsAreAtomic(s, before);
      SimulateMove(Exec(s, before), RunAll(s.w, AllEmitted(s, before)), last);
      RunAllAppend(s.w, AllEmitted(s, before), Emitted(Exec(s, before), last));
    }
  }

  /** So in every calm run the row, the results and the incidents of a monitor with no job
      under way are those of an atomic run, and status and incidents are coupled. */
  lemma {:induction false} CalmCoupling(s: State, byHand: set<MonitorId>, moves: seq<Move>, id: MonitorId)
    requires Initial(s) && CalmRun(s, moves) && Coupled(s.w, byHand)
    requires id in Exec(s, moves).w.rows && id !in Exec(s, moves).inProgress
    ensures SameMonitor(Exec(s, moves).w, RunAll(s.w, AllEmitted(s, moves)), id)
    ensures Exec(s, moves).w.ledger == RunAll(s.w, AllEmitted(s, moves)).ledger
    ensures MonitorCoupled(Exec(s, moves).w.rows[id], Exec(s, moves).w.ledger.ActiveOf(id),
                           id in ByHandAll(s.w, byHand, AllEmitted(s, moves)))
  {
    CalmRunsAreAtomic(s, moves);
    StatusIncidentCoupling(s.w, byHand, AllEmitted(s, moves));
    NotMarkedNotStarted(Exec(s, moves), id);
    var a := RunAll(s.w, AllEmitted(s, moves));
    assert SameMonitor(Exec(s, moves).w, a, id);
    assert MonitorCoupled(a.rows[id], a.ledger.ActiveOf(id), id in ByHandAll(s.w, byHand, AllEmitted(s, moves)));
  }

  // ---- A result query that fails --------------------------------------------------

  /** The one failing call a check survives counts no failures: a monitor that was not down or
      paused is written degraded instead of down if it has retries at all, any other verdict is
      written as it is, and nothing has changed yet. */
  lemma LostWindowDebounces(s: State, i: nat)
    requires Enabled(s, WindowLost(i))
    ensures var v, t := s.workers[i], Next(s, WindowLost(i));
            var debounced := v.phase.verdict == Down && v.job.m.status !in {Down, Paused} && v.job.m.retryCount >= 1;
            t == s.(workers := s.workers[i := Busy(v.k, v.job, Decided(v.phase.probe, v.phase.at,
                                                     if debounced then Degraded else v.phase.verdict))])
  {
    NewestLength([], s.workers[i].job.m.retryCount);
  }
}
