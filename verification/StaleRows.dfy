/** Freshness of the queued row matters: a job marked with a row fetched before the previous
    check of the same monitor wrote its result can leave status and incidents apart. */
module StaleRows {
  import opened Basics
  import opened Incidents
  import opened Lifecycle
  import opened LifecycleProofs
  import opened Interleaving
  import opened IncidentSafety

  /** A check started from the row m, current or not, leaves status and incidents coupled. If it
      calls the hook, an earlier manual resolution no longer matters. */
  ghost predicate StaysCoupled(w: World, byHand: set<MonitorId>, id: MonitorId, m: Row, probe: Verdict,
                               at: int, writtenAt: int)
    requires w.Has(id)
  {
    var w' := AfterCheckFrom(w, id, m, probe, at, writtenAt);
    && id in w'.rows
    && MonitorCoupled(w'.rows[id], w'.ledger.ActiveOf(id), id in byHand && w'.rows[id].status == m.status)
  }

  /** The status of a row agrees with the incidents: up without an active one, anything else with
      one unless an operator resolved it. */
  ghost predicate Agrees(w: World, byHand: set<MonitorId>, id: MonitorId, status: Status) {
    if status.Up? then w.ledger.ActiveOf(id) == {} else w.ledger.ActiveOf(id) == {} <==> id in byHand
  }

  /** The check writes the status its own row holds already, and so does not call the hook. */
  predicate KeepsStatus(m: Row, verdict: Verdict, results: seq<Verdict>) {
    match m.status
    case Up => verdict.Up?
    case Degraded => verdict.Degraded? || (verdict.Down? && TrailingDowns(results) + 1 < m.retryCount)
    case Down => verdict.Down?
    case _ => false
  }

  lemma KeepsStatusMeans(m: Row, verdict: Verdict, results: seq<Verdict>)
    requires m.Schedulable()
    ensures KeepsStatus(m, verdict, results) <==> Decide(m, verdict, results + [verdict]) == m.status
  {
    ClosedFormExactly(m, results, verdict);
    assert (results + [verdict])[..|results|] == results;
  }

  lemma StaleCheckByStatus(w: World, byHand: set<MonitorId>, id: MonitorId, m: Row, probe: Verdict,
                           at: int, writtenAt: int)
    requires Coupled(w, byHand) && w.Has(id) && m.Schedulable() && !m.kind.Unsupported?
    ensures var status := AfterCheckFrom(w, id, m, probe, at, writtenAt).rows[id].status;
            StaysCoupled(w, byHand, id, m, probe, at, writtenAt)
            <==> (status != m.status || Agrees(w, byHand, id, status))
  {
    assert MonitorCoupled(w.rows[id], w.ledger.ActiveOf(id), id in byHand);
    var verdict := RunVerdict(m, probe, at).value;
    var status := Decide(m, verdict, w.results[id] + [verdict]);
    var m' := WriteBack(w.rows[id], m, status, writtenAt);
    if status != m.status {
      HookCouples(w.ledger, id, status, m');
    } else {
      NoHookCouples(m', w.ledger.ActiveOf(id), id in byHand);
    }
  }

  lemma HookCouples(l: Ledger, id: MonitorId, status: Verdict, m: Row)
    requires l.Valid() && |l.ActiveOf(id)| <= 1 && m.status == status && m.enabled
    ensures MonitorCoupled(m, AfterHook(l, id, status).ActiveOf(id), false)
  {
    HookActive(l, id, status, id);
  }

  lemma NoHookCouples(m: Row, active: set<IncidentId>, byHand: bool)
    requires |active| <= 1 && m.enabled && (m.status.Up? || m.status.Degraded? || m.status.Down?)
    ensures MonitorCoupled(m, active, byHand) <==> if m.status.Up? then active == {} else active == {} <==> byHand
  {
    assert active == {} <==> |active| == 0;
  }

  /** From a coupled database, one check keeps status and incidents coupled if and only if its
      verdict moves the status of the row it was started from, or that row agrees with the
      incidents. */
  lemma StaleCheckCoupling(w: World, byHand: set<MonitorId>, id: MonitorId, m: Row, probe: Verdict,
                           at: int, writtenAt: int)
    requires Coupled(w, byHand) && w.Has(id) && m.Schedulable() && !m.kind.Unsupported?
    ensures StaysCoupled(w, byHand, id, m, probe, at, writtenAt) <==>
              || !KeepsStatus(m, RunVerdict(m, probe, at).value, w.results[id])
              || Agrees(w, byHand, id, m.status)
  {
    StaleCheckByStatus(w, byHand, id, m, probe, at, writtenAt);
    KeepsStatusMeans(m, RunVerdict(m, probe, at).value, w.results[id]);
  }

  /** Before the verdict is known: a row of a probed monitor is safe for every verdict and time
      if and only if its status is unknown or agrees with the incidents. */
  lemma StaleProbedRowIsSafe(w: World, byHand: set<MonitorId>, id: MonitorId, m: Row)
    requires Coupled(w, byHand) && w.Has(id) && m.Schedulable() && m.kind.Probed?
    ensures (forall probe, at, writtenAt :: StaysCoupled(w, byHand, id, m, probe, at, writtenAt))
       <==> m.status.Unknown? || Agrees(w, byHand, id, m.status)
  {
    forall probe: Verdict, at, writtenAt
      ensures StaysCoupled(w, byHand, id, m, probe, at, writtenAt) <==>
                !KeepsStatus(m, probe, w.results[id]) || Agrees(w, byHand, id, m.status)
    {
      StaleCheckCoupling(w, byHand, id, m, probe, at, writtenAt);
    }
    if !m.status.Unknown? {
      var own: Verdict := m.status;
      assert KeepsStatus(m, own, w.results[id]);
      assert StaysCoupled(w, byHand, id, m, own, 0, 0) <==> Agrees(w, byHand, id, m.status);
    }
  }

  /** The same for a push monitor, whose verdict is "up" at some time exactly if it ever had a
      heartbeat, "down" at some other time, and never "degraded". */
  lemma StalePushRowIsSafe(w: World, byHand: set<MonitorId>, id: MonitorId, m: Row)
    requires Coupled(w, byHand) && w.Has(id) && m.Schedulable() && m.kind.Push?
    ensures (forall probe, at, writtenAt :: StaysCoupled(w, byHand, id, m, probe, at, writtenAt)) <==>
              || m.status.Unknown? || Agrees(w, byHand, id, m.status)
              || (m.status.Up? && m.lastHeartbeatAt.None?)
              || (m.status.Degraded? && TrailingDowns(w.results[id]) + 1 >= m.retryCount)
  {
    forall probe, at, writtenAt
      ensures StaysCoupled(w, byHand, id, m, probe, at, writtenAt) <==>
                !KeepsStatus(m, PushVerdict(m, at), w.results[id]) || Agrees(w, byHand, id, m.status)
    {
      StaleCheckCoupling(w, byHand, id, m, probe, at, writtenAt);
    }
    var inTime := if m.lastHeartbeatAt.Some? then m.lastHeartbeatAt.value else 0;
    var late := inTime + GraceNanoseconds(m.kind.graceSeconds) + 1;
    assert PushVerdict(m, late) == Down;
    assert PushVerdict(m, inTime) == if m.lastHeartbeatAt.Some? then Up else Down;
    var at := if m.status.Up? then inTime else late;
    assert StaysCoupled(w, byHand, id, m, Up, at, 0) <==>
             !KeepsStatus(m, PushVerdict(m, at), w.results[id]) || Agrees(w, byHand, id, m.status);
  }

  /** Only the loop and the workers act, and every call succeeds. */
  predicate Undisturbed(moves: seq<Move>) {
    forall mv :: mv in moves ==>
      mv.Fetch? || mv.Consider? || mv.Send? || mv.Unmark? || mv.Receive? || mv.Advance? || mv.Release?
  }

  /** The rows of the fetches of a run. */
  function Fetched(moves: seq<Move>): seq<seq<Job>> {
    if moves == [] then []
    else Fetched(moves[..|moves| - 1])
         + if moves[|moves| - 1].Fetch? then [moves[|moves| - 1].due] else []
  }

  lemma Extend(s: State, moves: seq<Move>, mv: Move) returns (more: seq<Move>)
    requires Undisturbed(moves) && Undisturbed([mv])
    ensures Undisturbed(more)
    ensures more == moves + [mv] && Exec(s, more) == Next(Exec(s, moves), mv)
    ensures Fetched(more) == if mv.Fetch? then Fetched(moves) + [mv.due] else Fetched(moves)
  {
    assert mv in [mv];
    more := moves + [mv];
    assert more[..|more| - 1] == moves;
    ExecSnoc(s, moves, mv);
  }

  /** A quiet scheduler: nothing marked, queued or running except what `loop` holds. */
  ghost predicate SchedulerQuiet(t: State, loop: Loop) {
    t.inProgress == {} && t.queue == [] && t.loop == loop && |t.workers| > 0 && t.workers[0].Idle?
  }

  /** Marking, sending and receiving one job. */
  lemma Dispatch(s: State, before: seq<Move>, j: Job, rest: seq<Job>) returns (moves: seq<Move>)
    requires Undisturbed(before)
    requires SchedulerQuiet(Exec(s, before), Ranging([j] + rest))
    ensures Undisturbed(moves)
    ensures var t, t' := Exec(s, before), Exec(s, moves);
            && t'.w == t.w && t'.tokens == t.tokens && t'.queue == [] && t'.loop == Ranging(rest)
            && t'.inProgress == {j.id} && |t'.workers| == |t.workers|
            && t'.workers[0].Busy? && t'.workers[0].job == j && t'.workers[0].phase.Begin?
  {
    assert ([j] + rest)[1..] == rest;
    moves := Extend(s, before, Consider);
    moves := Deliver(s, moves, j, rest);
  }

  lemma Deliver(s: State, before: seq<Move>, j: Job, rest: seq<Job>) returns (moves: seq<Move>)
    requires Undisturbed(before)
    requires var t := Exec(s, before);
             t.queue == [] && t.loop == Marked(j, rest) && |t.workers| > 0 && t.workers[0].Idle?
    ensures Undisturbed(moves)
    ensures var t, t' := Exec(s, before), Exec(s, moves);
            && t'.w == t.w && t'.tokens == t.tokens && t'.queue == [] && t'.loop == Ranging(rest)
            && t'.inProgress == t.inProgress && |t'.workers| == |t.workers|
            && t'.workers[0].Busy? && t'.workers[0].job == j && t'.workers[0].phase.Begin?
  {
    var t := Exec(s, before);
    SendAlone(t, j, rest);
    moves := Extend(s, before, Send);
    ReceiveAlone(Exec(s, moves), j);
    moves := Extend(s, moves, Receive(0));
  }

  lemma SendAlone(t: State, j: Job, rest: seq<Job>)
    requires t.queue == [] && t.loop == Marked(j, rest) && |t.workers| > 0
    ensures Next(t, Send) == t.(queue := [j], accepted := t.accepted + [j], loop := Ranging(rest))
  {
  }

  lemma ReceiveAlone(t: State, j: Job)
    requires t.queue == [j] && |t.workers| > 0 && t.workers[0].Idle?
    ensures var t' := Next(t, Receive(0));
            && t' == t.(queue := [], workers := t.workers[0 := t'.workers[0]])
            && t'.workers[0].Busy? && t'.workers[0].job == j && t'.workers[0].phase.Begin?
  {
  }

  /** Worker 0 makes its next database call. */
  lemma DatabaseCall(s: State, before: seq<Move>, probe: Verdict, at: int) returns (moves: seq<Move>)
    requires Undisturbed(before)
    requires |Exec(s, before).workers| > 0 && Exec(s, before).workers[0].Busy?
    ensures Undisturbed(moves) && Fetched(moves) == Fetched(before)
    ensures var t, v := Exec(s, before), Exec(s, before).workers[0];
            var (w', next) := CheckStep(t.w, v.job, v.phase, probe, at);
            Exec(s, moves) == t.(w := w', workers := t.workers[0 :=
              match next case Some(p) => Busy(v.k, v.job, p) case None => Returned(v.k, v.job)])
  {
    moves := Extend(s, before, Advance(0, probe, at));
  }

  /** The three calls of a probing check that does not debounce, up to its status write. */
  lemma ThreeCalls(w: World, j: Job, verdict: Verdict, at: int)
    requires w.Has(j.id) && j.m.kind.Probed? && (verdict.Down? ==> j.m.retryCount == 1)
    ensures var w1 := w.(results := w.results[j.id := w.results[j.id] + [verdict]]);
            && CheckStep(w, j, Begin, verdict, at) == (w1, Some(Ran(verdict, at, verdict)))
            && CheckStep(w1, j, Ran(verdict, at, verdict), verdict, at) == (w1, Some(Decided(verdict, at, verdict)))
            && CheckStep(w1, j, Decided(verdict, at, verdict), verdict, at)
               == (w1.(rows := w1.rows[j.id := WriteBack(w.rows[j.id], j.m, verdict, at)]),
                   if verdict == j.m.status then None else Some(Hooking(verdict, at, at, Finding(j.id, verdict))))
  {
  }

  /** The worker runs its check from the row j.m up to its status write. */
  lemma RunToWrite(s: State, before: seq<Move>, j: Job, verdict: Verdict, at: int) returns (moves: seq<Move>)
    requires Undisturbed(before)
    requires var t := Exec(s, before);
             && |t.workers| > 0 && t.workers[0].Busy? && t.workers[0].job == j && t.workers[0].phase.Begin?
             && t.w.Has(j.id) && j.m.kind.Probed? && (verdict.Down? ==> j.m.retryCount == 1)
    ensures Undisturbed(moves) && Fetched(moves) == Fetched(before)
    ensures var t, t' := Exec(s, before), Exec(s, moves);
            && |t'.workers| == |t.workers| && t' == t.(w := t'.w, workers := t.workers[0 := t'.workers[0]])
            && t'.w.Has(j.id) && t'.w.ledger == t.w.ledger && t'.w.rows[j.id].status == verdict
            && t'.w.rows.Keys == t.w.rows.Keys
            && (if verdict == j.m.status then t'.workers[0].Returned?
                else t'.workers[0].Busy? && t'.workers[0].phase.Hooking?
                     && t'.workers[0].phase.hook == Finding(j.id, verdict))
            && t'.workers[0].job == j
  {
    ThreeCalls(Exec(s, before).w, j, verdict, at);
    moves := DatabaseCall(s, before, verdict, at);
    moves := DatabaseCall(s, moves, verdict, at);
    moves := DatabaseCall(s, moves, verdict, at);
  }

  /** The hook of a failing check opens an incident. */
  lemma OpenOne(s: State, before: seq<Move>, id: MonitorId) returns (moves: seq<Move>)
    requires Undisturbed(before)
    requires var t := Exec(s, before);
             && |t.workers| > 0 && t.workers[0].Busy? && t.workers[0].phase.Hooking?
             && t.workers[0].phase.hook == Finding(id, Down)
             && t.w.ledger.Valid() && t.w.ledger.ActiveOf(id) == {} && t.w.Has(id)
    ensures Undisturbed(moves)
    ensures var t, t' := Exec(s, before), Exec(s, moves);
            && t' == t.(w := t.w.(ledger := t.w.ledger.Insert(id, "critical")),
                        workers := t.workers[0 := Returned(t.workers[0].k, t.workers[0].job)])
  {
    moves := DatabaseCall(s, before, Up, 0);
    assert Exec(s, moves).workers[0].phase.hook == Inserting(id, "critical");
    moves := DatabaseCall(s, moves, Up, 0);
  }

  /** From every start in which a healthy monitor is due there is a run, with all calls
      succeeding and no API action, that ends with nothing under way, the monitor up and an
      incident still open: the second check is marked with the row fetched before the first
      one wrote. */
  lemma StaleRowLeavesIncidentOpen(s: State, id: MonitorId)
    requires Initial(s) && HealthyAlone(s.w, id)
    ensures exists moves :: Undisturbed(moves) && UpWithIncident(Exec(s, moves), id)
  {
    var moves := StaleRun(s, id, 0);
  }

  ghost predicate HealthyAlone(w: World, id: MonitorId) {
    && id in w.rows && w.ledger.ActiveOf(id) == {}
    && w.rows[id].kind.Probed? && w.rows[id].retryCount == 1
    && w.rows[id].enabled && w.rows[id].status == Up
  }

  ghost predicate UpWithIncident(t: State, id: MonitorId) {
    && t.inProgress == {} && t.queue == [] && id in t.w.rows
    && t.w.rows[id].status == Up && |t.w.ledger.ActiveOf(id)| == 1
  }

  /** The first job of a fresh scheduler reaches a worker. */
  lemma FirstDispatch(s: State, j: Job) returns (moves: seq<Move>)
    requires Initial(s) && j.id in s.w.rows && s.w.rows[j.id] == j.m && j.m.Schedulable()
    ensures Undisturbed(moves)
    ensures var t := Exec(s, moves);
            && t.w == s.w && t.tokens == s.tokens && t.queue == [] && t.loop == Ranging([])
            && t.inProgress == {j.id} && |t.workers| > 0
            && t.workers[0].Busy? && t.workers[0].job == j && t.workers[0].phase.Begin?
  {
    assert s.workers[0] in s.workers;
    moves := Extend(s, [], Fetch([j]));
    assert [j] + [] == [j];
    moves := Dispatch(s, moves, j, []);
  }

  /** The loop fetches the row again while its check is still running. */
  lemma FetchAgain(s: State, before: seq<Move>, j: Job) returns (moves: seq<Move>)
    requires Undisturbed(before)
    requires var t := Exec(s, before);
             t.loop == Ranging([]) && j.id in t.w.rows && t.w.rows[j.id] == j.m && j.m.Schedulable()
    ensures Undisturbed(moves)
    ensures Exec(s, moves) == Exec(s, before).(loop := Ranging([j]))
  {
    moves := Extend(s, before, Consider);
    moves := Extend(s, moves, Fetch([j]));
  }

  lemma StaleRun(s: State, id: MonitorId, at: int) returns (moves: seq<Move>)
    requires Initial(s) && HealthyAlone(s.w, id)
    ensures Undisturbed(moves) && UpWithIncident(Exec(s, moves), id)
  {
    var j := Job(id, s.w.rows[id]);
    moves := FirstDispatch(s, j);
    moves := FetchAgain(s, moves, j);
    moves := RunToWrite(s, moves, j, Down, at);
    moves := OpenOne(s, moves, id);
    moves := SecondCheck(s, moves, j, at);
    InsertActiveOf(s.w.ledger, id);
  }

  lemma InsertActiveOf(l: Ledger, id: MonitorId)
    requires l.Valid() && l.ActiveOf(id) == {}
    ensures |l.Insert(id, "critical").ActiveOf(id)| == 1
  {
    assert l.Insert(id, "critical").ActiveOf(id) == {l.next};
  }

  /** The stale job, marked once its monitor is free again, reaches the worker. */
  lemma SecondDispatch(s: State, before: seq<Move>, j: Job) returns (moves: seq<Move>)
    requires Undisturbed(before)
    requires var t := Exec(s, before);
             && t.inProgress == {j.id} && t.queue == [] && t.loop == Ranging([j])
             && |t.workers| > 0 && t.workers[0].Returned? && t.workers[0].job == j
    ensures Undisturbed(moves)
    ensures var t, t' := Exec(s, before), Exec(s, moves);
            && t'.w == t.w && t'.queue == [] && t'.inProgress == {j.id} && |t'.workers| > 0
            && t'.workers[0].Busy? && t'.workers[0].job == j && t'.workers[0].phase.Begin?
  {
    moves := Extend(s, before, Release(0));
    assert [j] + [] == [j];
    assert SchedulerQuiet(Exec(s, moves), Ranging([j] + []));
    moves := Dispatch(s, moves, j, []);
  }

  lemma SecondCheck(s: State, before: seq<Move>, j: Job, at: int) returns (moves: seq<Move>)
    requires Undisturbed(before)
    requires var t := Exec(s, before);
             && t.inProgress == {j.id} && t.queue == [] && t.loop == Ranging([j])
             && |t.workers| > 0 && t.workers[0].Returned? && t.workers[0].job == j && t.w.Has(j.id)
             && j.m.kind.Probed? && j.m.retryCount == 1 && j.m.status == Up
    ensures Undisturbed(moves)
    ensures var t, t' := Exec(s, before), Exec(s, moves);
            && t'.inProgress == {} && t'.queue == [] && t'.w.ledger == t.w.ledger
            && j.id in t'.w.rows && t'.w.rows[j.id].status == Up
  {
    moves := SecondDispatch(s, before, j);
    moves := RunToWrite(s, moves, j, Up, at);
    moves := Extend(s, moves, Release(0));
  }
}
