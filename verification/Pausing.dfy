/** Edits while a check is under way: the check writes back the row it was started from. When a
    pause outlives whatever the scheduler does next, and that it need not. */
module Pausing {
  import opened Basics
  import opened Incidents
  import opened Lifecycle
  import opened Requests
  import opened Interleaving
  import opened Exclusion
  import opened IncidentSafety
  import opened StaleRows

  /** Loop and workers only, whichever of their calls fail. */
  predicate SchedulerMove(mv: Move) {
    || mv.Fetch? || mv.Consider? || mv.Send? || mv.Unmark? || mv.RequestStop? || mv.CloseJobs?
    || WorkerMove(mv)
  }

  predicate SchedulerRun(moves: seq<Move>) {
    forall mv :: mv in moves ==> SchedulerMove(mv)
  }

  predicate IsPaused(w: World, id: MonitorId) {
    id in w.rows && w.rows[id].status.Paused? && !w.rows[id].enabled
  }

  // ---- Checks under way -----------------------------------------------------------

  /** A job whose check will write the row of the monitor. */
  predicate WillWrite(j: Job, id: MonitorId) {
    j.id == id && !j.m.kind.Unsupported?
  }

  /** A check of the monitor that has not written its row yet. */
  predicate StillWrites(v: Worker, id: MonitorId) {
    && v.Busy? && v.job.id == id && !v.phase.Hooking?
    && (v.phase.Begin? ==> !v.job.m.kind.Unsupported?)
  }

  function LoopJobs(l: Loop): seq<Job> {
    match l
    case Ranging(rest) => rest
    case Marked(job, rest) => [job] + rest
    case Dropping(_, rest) => rest
    case _ => []
  }

  predicate AnyWillWrite(jobs: seq<Job>, id: MonitorId) {
    exists j :: j in jobs && WillWrite(j, id)
  }

  predicate AnyStillWrites(ws: seq<Worker>, id: MonitorId) {
    exists v :: v in ws && StillWrites(v, id)
  }

  /** A check of the monitor is fetched, queued or running, and its row is not written yet. */
  predicate UnderWay(s: State, id: MonitorId) {
    AnyWillWrite(LoopJobs(s.loop), id) || AnyWillWrite(s.queue, id) || AnyStillWrites(s.workers, id)
  }

  lemma AnyReplaced(ws: seq<Worker>, i: nat, v: Worker, id: MonitorId)
    requires i < |ws|
    ensures AnyStillWrites(ws[i := v], id) ==> AnyStillWrites(ws, id) || StillWrites(v, id)
    ensures StillWrites(v, id) ==> AnyStillWrites(ws[i := v], id)
  {
    assert ws[i := v][i] in ws[i := v];
    forall u | u in ws[i := v] && u != v ensures u in ws {
    }
  }

  // ---- Without one a pause stays --------------------------------------------------

  lemma QuietCheckStep(w: World, job: Job, phase: Phase, probe: Verdict, at: int, id: MonitorId)
    requires IsPaused(w, id) && (phase.Decided? ==> job.id != id)
    ensures IsPaused(CheckStep(w, job, phase, probe, at).0, id)
  {
    if phase.Hooking? {
      assert HookStep(w, phase.hook).0.rows == w.rows;
    }
  }

  lemma QuietAdvance(s: State, mv: Move, id: MonitorId)
    requires mv.Advance? && Enabled(s, mv) && IsPaused(s.w, id) && !UnderWay(s, id)
    ensures IsPaused(Apply(s, mv).w, id) && !UnderWay(Apply(s, mv), id)
  {
    var v, v' := s.workers[mv.i], Apply(s, mv).workers[mv.i];
    assert v in s.workers;
    QuietCheckStep(s.w, v.job, v.phase, mv.probe, mv.at, id);
    QuietWorker(s.w, v, mv.probe, mv.at, id);
    AnyReplaced(s.workers, mv.i, v', id);
  }

  lemma QuietWorker(w: World, v: Worker, probe: Verdict, at: int, id: MonitorId)
    requires v.Busy? && !StillWrites(v, id)
    ensures match CheckStep(w, v.job, v.phase, probe, at).1
            case Some(p) => !StillWrites(Busy(v.k, v.job, p), id)
            case None => true
  {
  }

  lemma QuietReceive(s: State, i: nat, id: MonitorId)
    requires Enabled(s, Receive(i)) && !UnderWay(s, id)
    ensures !UnderWay(Apply(s, Receive(i)), id)
  {
    var v := Apply(s, Receive(i)).workers[i];
    assert s.queue[0] in s.queue && !StillWrites(v, id);
    AnyReplaced(s.workers, i, v, id);
  }

  lemma QuietOther(s: State, mv: Move, id: MonitorId)
    requires SchedulerMove(mv) && !mv.Advance? && !mv.Receive? && Enabled(s, mv)
    requires IsPaused(s.w, id) && !UnderWay(s, id)
    ensures Apply(s, mv).w == s.w && !UnderWay(Apply(s, mv), id)
  {
    if mv.WindowLost? || mv.Abort? || mv.Release? || mv.Exit? {
      assert s.workers[mv.i] in s.workers;
      AnyReplaced(s.workers, mv.i, Apply(s, mv).workers[mv.i], id);
    } else if mv.Send? || mv.Consider? || mv.Unmark? {
      LoopKeepsJobs(s, mv, id);
    }
  }

  /** The loop queues and drops what it holds, and takes up nothing else. */
  lemma LoopKeepsJobs(s: State, mv: Move, id: MonitorId)
    requires Enabled(s, mv) && (mv.Consider? || mv.Send? || mv.Unmark?)
    ensures var t := Apply(s, mv);
            AnyWillWrite(LoopJobs(t.loop), id) || AnyWillWrite(t.queue, id) ==>
              AnyWillWrite(LoopJobs(s.loop), id) || AnyWillWrite(s.queue, id)
  {
  }

  lemma QuietStep(s: State, mv: Move, id: MonitorId)
    requires SchedulerMove(mv) && IsPaused(s.w, id) && !UnderWay(s, id)
    ensures IsPaused(Next(s, mv).w, id) && !UnderWay(Next(s, mv), id)
  {
    if Enabled(s, mv) {
      match mv {
        case Advance(_, _, _) => QuietAdvance(s, mv, id);
        case Receive(i) => QuietReceive(s, i, id);
        case _ => QuietOther(s, mv, id);
      }
    }
  }

  lemma {:induction false} PauseStays(s: State, moves: seq<Move>, id: MonitorId)
    requires SchedulerRun(moves) && IsPaused(s.w, id) && !UnderWay(s, id)
    ensures IsPaused(Exec(s, moves).w, id) && !UnderWay(Exec(s, moves), id)
  {
    if moves != [] {
      assert moves[|moves| - 1] in moves;
      PauseStays(s, moves[..|moves| - 1], id);
      QuietStep(Exec(s, moves[..|moves| - 1]), moves[|moves| - 1], id);
    }
  }

  // ---- With one it can be undone --------------------------------------------------

  /** What an edit sets and a check writes back. */
  predicate SameSettings(m: Row, m': Row) {
    m.kind == m'.kind && m.hasToken == m'.hasToken && m.retryCount == m'.retryCount && m.enabled == m'.enabled
  }

  /** The row has the settings of the row a check was started from, and the check's verdict. */
  predicate WrittenFrom(w: World, id: MonitorId, m: Row) {
    id in w.rows && SameSettings(w.rows[id], m) && !w.rows[id].status.Paused?
  }

  lemma WritingCall(s: State, i: nat, id: MonitorId)
    requires i < |s.workers| && StillWrites(s.workers[i], id) && s.w.Has(id)
    ensures var v, t := s.workers[i], Next(s, Advance(i, Up, 0));
            if v.phase.Decided? then WrittenFrom(t.w, id, v.job.m)
            else |t.workers| == |s.workers| && StillWrites(t.workers[i], id) && t.workers[i].job == v.job
                 && t.w.Has(id) && PhaseRank(t.workers[i].phase) < PhaseRank(v.phase)
  {
  }

  lemma {:induction false} WriteRun(s: State, i: nat, id: MonitorId) returns (moves: seq<Move>)
    requires i < |s.workers| && StillWrites(s.workers[i], id) && s.w.Has(id)
    ensures SchedulerRun(moves) && WrittenFrom(Exec(s, moves).w, id, s.workers[i].job.m)
    decreases PhaseRank(s.workers[i].phase)
  {
    var call := Advance(i, Up, 0);
    WritingCall(s, i, id);
    var more := [];
    if !s.workers[i].phase.Decided? {
      more := WriteRun(Next(s, call), i, id);
    }
    FirstMove(s, call, more);
    moves := [call] + more;
  }

  function LoopLeft(l: Loop): nat {
    match l
    case Ranging(rest) => 3 * |rest|
    case Marked(_, rest) => 3 * |rest| + 2
    case Dropping(_, rest) => 3 * |rest| + 1
    case _ => 0
  }

  /** A move that brings a waiting check nearer its worker. */
  ghost predicate Nearer(s: State, mv: Move, id: MonitorId) {
    && Enabled(s, mv) && SchedulerMove(mv)
    && Next(s, mv).w.Has(id) && UnderWay(Next(s, mv), id)
    && (LoopLeft(Next(s, mv).loop) < LoopLeft(s.loop)
        || (Next(s, mv).loop == s.loop && WorkLeft(Next(s, mv)) < WorkLeft(s)))
  }

  lemma KeepsMonitors(w: World, job: Job, phase: Phase, probe: Verdict, at: int, id: MonitorId)
    requires w.Has(id)
    ensures CheckStep(w, job, phase, probe, at).0.Has(id)
  {
    if phase.Hooking? {
      assert HookStep(w, phase.hook).0.rows == w.rows && HookStep(w, phase.hook).0.results == w.results;
    }
  }

  /** While a worker is at something else, its own next call. */
  lemma NearerByCall(s: State, i: nat, id: MonitorId) returns (mv: Move)
    requires i < |s.workers| && (s.workers[i].Busy? || s.workers[i].Returned?) && s.w.Has(id)
    requires AnyWillWrite(LoopJobs(s.loop), id) || AnyWillWrite(s.queue, id)
    ensures Nearer(s, mv, id)
  {
    var v := s.workers[i];
    mv := if v.Busy? then Advance(i, Up, 0) else Release(i);
    WorkerMoveWorks(s, mv);
    if v.Busy? {
      KeepsMonitors(s.w, v.job, v.phase, Up, 0, id);
    }
  }

  lemma NearerByReceive(s: State, id: MonitorId)
    requires |s.workers| > 0 && s.workers[0].Idle? && s.queue != [] && s.w.Has(id)
    requires AnyWillWrite(LoopJobs(s.loop), id) || AnyWillWrite(s.queue, id)
    ensures Nearer(s, Receive(0), id)
  {
    WorkerMoveWorks(s, Receive(0));
    var v := Next(s, Receive(0)).workers[0];
    AnyReplaced(s.workers, 0, v, id);
    assert forall j :: j in s.queue ==> j == s.queue[0] || j in s.queue[1..];
  }

  /** With nothing queued or running, the loop's own next move. */
  lemma NearerByLoop(s: State, id: MonitorId) returns (mv: Move)
    requires s.queue == [] && s.inProgress <= (if s.loop.Marked? || s.loop.Dropping? then {s.loop.job.id} else {})
    requires |s.workers| > 0 && s.w.Has(id) && AnyWillWrite(LoopJobs(s.loop), id)
    ensures Nearer(s, mv, id)
  {
    if s.loop.Ranging? {
      NearerByMark(s, id);
      mv := Consider;
    } else if s.loop.Marked? {
      NearerBySend(s, id);
      mv := Send;
    } else {
      mv := Unmark;
    }
  }

  lemma NearerByMark(s: State, id: MonitorId)
    requires s.loop.Ranging? && s.inProgress == {} && s.w.Has(id) && AnyWillWrite(s.loop.rest, id)
    ensures Nearer(s, Consider, id)
  {
    var rest, t := s.loop.rest, Next(s, Consider);
    assert t.w == s.w && t.loop == Marked(rest[0], rest[1..]);
    assert LoopJobs(t.loop) == rest;
  }

  lemma NearerBySend(s: State, id: MonitorId)
    requires s.loop.Marked? && s.queue == [] && |s.workers| > 0 && s.w.Has(id) && AnyWillWrite(LoopJobs(s.loop), id)
    ensures Nearer(s, Send, id)
  {
    var j :| j in LoopJobs(s.loop) && WillWrite(j, id);
    var t := Next(s, Send);
    assert t.w == s.w && t.queue == [s.loop.job] && t.loop == Ranging(s.loop.rest);
    assert j in t.queue || j in LoopJobs(t.loop);
  }

  lemma NothingMarked(s: State)
    requires Protocol(s) && s.queue == [] && forall v :: v in s.workers ==> !v.Busy? && !v.Returned?
    ensures s.inProgress <= if s.loop.Marked? || s.loop.Dropping? then {s.loop.job.id} else {}
  {
    forall id | id in s.inProgress ensures OnLoop(s.loop, id) {
      HeldZero(s.workers, id, 0);
      assert One(id in s.inProgress) == Queued(s.queue, id) + Held(s.workers, id) + One(OnLoop(s.loop, id));
    }
  }

  lemma NearerMove(s: State, id: MonitorId) returns (mv: Move)
    requires Protocol(s) && s.w.Has(id) && UnderWay(s, id) && !AnyStillWrites(s.workers, id)
    ensures Nearer(s, mv, id)
  {
    if i: nat :| i < |s.workers| && (s.workers[i].Busy? || s.workers[i].Returned?) {
      mv := NearerByCall(s, i, id);
    } else {
      assert forall v :: v in s.workers ==> !v.Busy? && !v.Returned?;
      assert s.workers[0] in s.workers;
      if s.queue != [] {
        NearerByReceive(s, id);
        mv := Receive(0);
      } else {
        NothingMarked(s);
        mv := NearerByLoop(s, id);
      }
    }
  }

  lemma {:induction false} UndoingRun(s: State, id: MonitorId) returns (moves: seq<Move>)
    requires Protocol(s) && s.w.Has(id) && UnderWay(s, id)
    ensures SchedulerRun(moves) && !IsPaused(Exec(s, moves).w, id)
    decreases LoopLeft(s.loop), WorkLeft(s)
  {
    if AnyStillWrites(s.workers, id) {
      var v :| v in s.workers && StillWrites(v, id);
      var i :| 0 <= i < |s.workers| && s.workers[i] == v;
      moves := WriteRun(s, i, id);
    } else {
      var mv := NearerMove(s, id);
      ProtocolStep(s, mv);
      var more := UndoingRun(Next(s, mv), id);
      FirstMove(s, mv, more);
      moves := [mv] + more;
    }
  }

  /** Whatever the scheduler does next, a paused monitor stays paused if and only if no check of
      it is fetched, queued or running with its row still to be written. */
  lemma PausePersistsIff(s: State, id: MonitorId)
    requires Protocol(s) && s.w.Has(id) && IsPaused(s.w, id)
    ensures (forall moves :: SchedulerRun(moves) ==> IsPaused(Exec(s, moves).w, id)) <==> !UnderWay(s, id)
  {
    if UnderWay(s, id) {
      var moves := UndoingRun(s, id);
    } else {
      forall moves | SchedulerRun(moves) ensures IsPaused(Exec(s, moves).w, id) {
        PauseStays(s, moves, id);
      }
    }
  }

  /** From every start at which a monitor is due: a pause, a resume, a rotated token or any other
      edit that comes while its check is running is undone by the check, with all calls
      succeeding. */
  lemma EditDuringCheckIsUndone(s: State, id: MonitorId, edit: Action)
    requires Initial(s) && id in s.w.rows && s.w.rows[id].Schedulable() && !s.w.rows[id].kind.Unsupported?
    requires IsEdit(edit) && edit.id == id
    ensures exists before, after :: Undisturbed(before) && SchedulerRun(after)
              && WrittenFrom(Exec(Next(Exec(s, before), Api(edit)), after).w, id, s.w.rows[id])
  {
    var j := Job(id, s.w.rows[id]);
    var before := FirstDispatch(s, j);
    var t := Exec(s, before);
    EditKeepsWorkers(t, edit);
    var after := WriteRun(Next(t, Api(edit)), 0, id);
    assert WrittenFrom(Exec(Next(Exec(s, before), Api(edit)), after).w, id, s.w.rows[id]);
  }

  lemma EditKeepsWorkers(t: State, edit: Action)
    requires IsEdit(edit) && t.w.Has(edit.id)
    ensures Next(t, Api(edit)).workers == t.workers && Next(t, Api(edit)).w.Has(edit.id)
  {
  }
}
