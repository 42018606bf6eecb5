/** The scheduler's exclusion makes the non-atomic "look up, then insert" of the incident
    service safe: in every interleaving a monitor without a push token never has two active
    incidents. With a token it can, and a concrete run shows how. */
module IncidentSafety {
  import opened Basics
  import opened Incidents
  import opened Lifecycle
  import opened LifecycleProofs
  import opened Requests
  import opened Interleaving
  import opened Exclusion

  function HookOf(v: Worker): Option<Hook> {
    if v.Busy? && v.phase.Hooking? then Some(v.phase.hook) else None
  }

  /** A pending insert for a monitor without a token still sees no active incident. */
  predicate HookSafe(s: State, id: MonitorId, h: Hook) {
    && h.id == id
    && (h.Inserting? && id !in s.tokens ==> s.w.ledger.ActiveOf(id) == {})
  }

  predicate OfHeartbeat(r: Request) {
    r.Beating? || r.Recording?
  }

  ghost predicate Safe(s: State) {
    && Protocol(s)
    && s.w.Valid()
    && (forall id :: id !in s.tokens ==> |s.w.ledger.ActiveOf(id)| <= 1)
    && (forall i :: 0 <= i < |s.workers| && HookOf(s.workers[i]).Some? ==>
          HookSafe(s, s.workers[i].job.id, HookOf(s.workers[i]).value))
    && (forall h :: h in s.beats ==> h.id in s.tokens)
    && (forall r :: r in s.requests && OfHeartbeat(r) ==> r.id in s.tokens)
  }

  /** An acknowledgement's update that meets an incident resolved since it was read. */
  predicate Revives(s: State, mv: Move) {
    && mv.RequestWrite? && mv.request in s.requests && mv.request.Acknowledging?
    && mv.request.incident in s.w.ledger.rows && !s.w.ledger.rows[mv.request.incident].Active()
  }

  predicate NoRevival(s: State, moves: seq<Move>) {
    moves == [] || (NoRevival(s, moves[..|moves| - 1]) && !Revives(Exec(s, moves[..|moves| - 1]), moves[|moves| - 1]))
  }

  /** What one hook step does to the active incidents of any monitor. */
  lemma HookStepActive(w: World, h: Hook, id: MonitorId)
    requires w.Valid()
    ensures HookStep(w, h).0.Valid()
    ensures if h.Inserting? && h.id == id && id in w.rows
            then HookStep(w, h).0.ledger.ActiveOf(id) == w.ledger.ActiveOf(id) + {w.ledger.next}
            else HookStep(w, h).0.ledger.ActiveOf(id) <= w.ledger.ActiveOf(id)
    ensures HookStep(w, h).1.Some? ==> HookStep(w, h).1.value.id == h.id
    ensures HookStep(w, h).1.Some? && HookStep(w, h).1.value.Inserting? ==>
              HookStep(w, h).0 == w && w.ledger.ActiveOf(h.id) == {}
  {
  }

  lemma CheckStepActive(w: World, job: Job, phase: Phase, probe: Verdict, at: int, id: MonitorId)
    requires w.Valid() && (phase.Hooking? ==> phase.hook.id == job.id)
    ensures CheckStep(w, job, phase, probe, at).0.Valid()
    ensures if phase.Hooking? && phase.hook.Inserting? && job.id == id && id in w.rows
            then CheckStep(w, job, phase, probe, at).0.ledger.ActiveOf(id) == w.ledger.ActiveOf(id) + {w.ledger.next}
            else CheckStep(w, job, phase, probe, at).0.ledger.ActiveOf(id) <= w.ledger.ActiveOf(id)
  {
    if phase.Hooking? {
      HookStepActive(w, phase.hook, id);
    }
  }

  lemma {:induction false} ApiActive(w: World, a: Action, id: MonitorId)
    requires w.Valid() && !a.Check?
    ensures Lifecycle.Step(w, a).Valid()
    ensures (a.Heartbeat? && a.id == id) || Lifecycle.Step(w, a).ledger.ActiveOf(id) <= w.ledger.ActiveOf(id)
  {
    if a.Heartbeat? && w.Has(a.id) {
      BeatActive(w, a.id, a.pushed, a.at, id);
    }
  }

  lemma BeatActive(w: World, beat: MonitorId, pushed: string, at: int, id: MonitorId)
    requires w.Valid() && w.Has(beat)
    ensures AfterHeartbeat(w, beat, pushed, at).Valid()
    ensures AfterHeartbeat(w, beat, pushed, at).(ledger := w.ledger).Valid()
    ensures beat == id || AfterHeartbeat(w, beat, pushed, at).ledger.ActiveOf(id) <= w.ledger.ActiveOf(id)
  {
  }

  lemma SafeAdvance(s: State, mv: Move)
    requires Safe(s) && mv.Advance? && Enabled(s, mv)
    ensures Safe(Apply(s, mv))
  {
    var s', v := Apply(s, mv), s.workers[mv.i];
    ProtocolStep(s, mv);
    forall id | id !in s.tokens ensures |s'.w.ledger.ActiveOf(id)| <= 1 {
      CheckStepActive(s.w, v.job, v.phase, mv.probe, mv.at, id);
      if s'.w.ledger.ActiveOf(id) <= s.w.ledger.ActiveOf(id) {
        SubsetSize(s'.w.ledger.ActiveOf(id), s.w.ledger.ActiveOf(id));
      }
    }
    CheckStepActive(s.w, v.job, v.phase, mv.probe, mv.at, v.job.id);
    forall j | 0 <= j < |s'.workers| && HookOf(s'.workers[j]).Some?
      ensures HookSafe(s', s'.workers[j].job.id, HookOf(s'.workers[j]).value)
    {
      if j == mv.i {
        if v.phase.Hooking? {
          HookStepActive(s.w, v.phase.hook, v.job.id);
        }
      } else {
        WorkersDiffer(s, mv.i, j);
        CheckStepActive(s.w, v.job, v.phase, mv.probe, mv.at, s.workers[j].job.id);
      }
    }
  }

  /** A move that lets no token-free monitor gain an incident and leaves the hooks alone. */
  lemma SafeShrink(s: State, s': State)
    requires Safe(s) && Protocol(s') && s'.w.Valid() && s'.tokens == s.tokens
    requires forall id :: id !in s.tokens ==> s'.w.ledger.ActiveOf(id) <= s.w.ledger.ActiveOf(id)
    requires forall i :: 0 <= i < |s'.workers| && HookOf(s'.workers[i]).Some? ==>
               i < |s.workers| && s'.workers[i] == s.workers[i]
    requires forall h :: h in s'.beats ==> h.id in s.tokens
    requires forall r :: r in s'.requests && OfHeartbeat(r) ==> r.id in s.tokens
    ensures Safe(s')
  {
    forall id | id !in s.tokens ensures |s'.w.ledger.ActiveOf(id)| <= 1 {
      SubsetSize(s'.w.ledger.ActiveOf(id), s.w.ledger.ActiveOf(id));
    }
  }

  lemma SafeEnvironment(s: State, mv: Move)
    requires Safe(s) && Enabled(s, mv) && (mv.Beat? || mv.BeatAdvance? || mv.Api?)
    ensures Safe(Apply(s, mv))
  {
    var s' := Apply(s, mv);
    ProtocolStep(s, mv);
    match mv {
      case Beat(id, pushed, at) =>
        BeatActive(s.w, id, pushed, at, id);
      case BeatAdvance(h) =>
        forall id | id !in s.tokens ensures s'.w.ledger.ActiveOf(id) <= s.w.ledger.ActiveOf(id) {
          HookStepActive(s.w, h, id);
        }
        HookStepActive(s.w, h, h.id);
      case Api(a) =>
        forall id | id !in s.tokens ensures s'.w.ledger.ActiveOf(id) <= s.w.ledger.ActiveOf(id) {
          ApiActive(s.w, a, id);
        }
        ApiActive(s.w, a, 0);
    }
    SafeShrink(s, s');
  }

  /** A request's update only takes active incidents away, unless it revives one. */
  lemma UpdateActive(w: World, r: Request, at: int, id: MonitorId)
    requires w.Valid()
    requires r.Acknowledging? && r.incident in w.ledger.rows ==> w.ledger.rows[r.incident].Active()
    ensures Update(w, r, at).w.Valid() && Update(w, r, at).w.ledger.ActiveOf(id) <= w.ledger.ActiveOf(id)
  {
  }

  lemma SafeRequest(s: State, mv: Move)
    requires Safe(s) && Enabled(s, mv) && !Revives(s, mv)
    requires mv.RequestRead? || mv.RequestWrite? || mv.RequestAbort?
    ensures Safe(Apply(s, mv))
  {
    ProtocolStep(s, mv);
    if mv.RequestRead? {
      ReadKeepsHooks(s, mv.action);
    } else if mv.RequestAbort? {
      AbortKeepsHooks(s, mv.request);
    } else {
      WriteKeepsHooks(s, mv.request, mv.at);
      forall id ensures Update(s.w, mv.request, mv.at).w.ledger.ActiveOf(id) <= s.w.ledger.ActiveOf(id) {
        UpdateActive(s.w, mv.request, mv.at, id);
      }
      UpdateActive(s.w, mv.request, mv.at, 0);
    }
    SafeShrink(s, Apply(s, mv));
  }

  lemma ReadOfHeartbeat(w: World, a: Action)
    ensures Read(w, a).Some? && OfHeartbeat(Read(w, a).value) ==> a.Heartbeat? && Read(w, a).value.id == a.id
  {
  }

  lemma NextOfHeartbeat(w: World, r: Request, at: int)
    ensures var next := Update(w, r, at).next;
            next.Some? && OfHeartbeat(next.value) ==> OfHeartbeat(r) && next.value.id == r.id
  {
  }

  /** Replacing one request by at most one other. */
  lemma Replaced(requests: multiset<Request>, r: Request, more: multiset<Request>, tokens: set<MonitorId>)
    requires forall q :: q in requests && OfHeartbeat(q) ==> q.id in tokens
    requires forall q :: q in more && OfHeartbeat(q) ==> q.id in tokens
    ensures forall q :: q in requests - multiset{r} + more && OfHeartbeat(q) ==> q.id in tokens
    ensures forall q :: q in requests + more && OfHeartbeat(q) ==> q.id in tokens
  {
  }

  /** A request leaves the workers alone, and starts hooks for monitors with tokens only. */
  ghost predicate KeepsHooks(s: State, s': State, w': World) {
    && s'.workers == s.workers && s'.tokens == s.tokens && s'.w == w'
    && (forall h :: h in s'.beats ==> h.id in s.tokens)
    && (forall r :: r in s'.requests && OfHeartbeat(r) ==> r.id in s.tokens)
  }

  lemma ReadKeepsHooks(s: State, a: Action)
    requires Safe(s) && Enabled(s, RequestRead(a))
    ensures KeepsHooks(s, Apply(s, RequestRead(a)), s.w)
  {
    var more := match Read(s.w, a) case Some(r) => multiset{r} case None => multiset{};
    ReadOfHeartbeat(s.w, a);
    Replaced(s.requests, Acknowledging(0), more, s.tokens);
  }

  lemma WriteKeepsHooks(s: State, r: Request, at: int)
    requires Safe(s) && Enabled(s, RequestWrite(r, at))
    ensures KeepsHooks(s, Apply(s, RequestWrite(r, at)), Update(s.w, r, at).w)
  {
    var more := match Update(s.w, r, at).next case Some(q) => multiset{q} case None => multiset{};
    NextOfHeartbeat(s.w, r, at);
    Replaced(s.requests, r, more, s.tokens);
  }

  lemma AbortKeepsHooks(s: State, r: Request)
    requires Safe(s) && Enabled(s, RequestAbort(r))
    ensures KeepsHooks(s, Apply(s, RequestAbort(r)), s.w)
  {
    Replaced(s.requests, r, multiset{}, s.tokens);
    assert s.requests - multiset{r} + multiset{} == s.requests - multiset{r};
  }

  lemma SafeStep(s: State, mv: Move)
    requires Safe(s) && !Revives(s, mv)
    ensures Safe(Next(s, mv))
  {
    if Enabled(s, mv) {
      if mv.RequestRead? || mv.RequestWrite? || mv.RequestAbort? {
        SafeRequest(s, mv);
        return;
      }
      if mv.Advance? {
        SafeAdvance(s, mv);
      } else if mv.Beat? || mv.BeatAdvance? || mv.Api? {
        SafeEnvironment(s, mv);
      } else {
        SafeSchedule(s, mv);
      }
    }
  }

  /** A move that leaves the database alone and drops no more than heartbeats. */
  lemma SafeQuiet(s: State, s': State)
    requires Safe(s) && Protocol(s') && s'.w == s.w && s'.tokens == s.tokens && s'.workers == s.workers
    requires s'.requests == s.requests
    requires forall h :: h in s'.beats ==> h in s.beats
    ensures Safe(s')
  {
  }

  /** A move that leaves one worker without a hook and everything else to do with them alone. */
  lemma SafeReplaced(s: State, s': State, i: nat)
    requires Safe(s) && Protocol(s') && s'.w == s.w && s'.tokens == s.tokens && s'.beats == s.beats
    requires s'.requests == s.requests
    requires i < |s.workers| == |s'.workers| && HookOf(s'.workers[i]).None?
    requires s'.workers == s.workers[i := s'.workers[i]]
    ensures Safe(s')
  {
  }

  lemma SafeSchedule(s: State, mv: Move)
    requires Safe(s) && Enabled(s, mv) && !mv.Advance? && !mv.Beat? && !mv.BeatAdvance? && !mv.Api?
    requires !mv.RequestRead? && !mv.RequestWrite? && !mv.RequestAbort?
    ensures Safe(Apply(s, mv))
  {
    ProtocolStep(s, mv);
    if WorkerMove(mv) {
      HooklessReplaced(s, mv);
      SafeReplaced(s, Apply(s, mv), mv.i);
    } else {
      WorkersStay(s, mv);
      SafeQuiet(s, Apply(s, mv));
    }
  }

  lemma HooklessReplaced(s: State, mv: Move)
    requires Enabled(s, mv) && WorkerMove(mv) && !mv.Advance?
    ensures var s' := Apply(s, mv);
            && s'.w == s.w && s'.tokens == s.tokens && s'.beats == s.beats && s'.requests == s.requests
            && mv.i < |s.workers| == |s'.workers| && HookOf(s'.workers[mv.i]).None?
            && s'.workers == s.workers[mv.i := s'.workers[mv.i]]
  {
  }

  lemma WorkersStay(s: State, mv: Move)
    requires Enabled(s, mv) && !WorkerMove(mv) && !mv.Beat? && !mv.BeatAdvance? && !mv.Api?
    requires !mv.RequestRead? && !mv.RequestWrite? && !mv.RequestAbort?
    ensures var s' := Apply(s, mv);
            && s'.w == s.w && s'.tokens == s.tokens && s'.workers == s.workers && s'.requests == s.requests
            && forall h :: h in s'.beats ==> h in s.beats
  {
  }

  lemma TokensStay(s: State, mv: Move)
    ensures Next(s, mv).tokens == s.tokens
  {
  }

  lemma {:induction false} SafeForever(s: State, moves: seq<Move>)
    requires Safe(s) && NoRevival(s, moves)
    ensures Safe(Exec(s, moves)) && Exec(s, moves).tokens == s.tokens
  {
    if moves != [] {
      var before, last := moves[..|moves| - 1], moves[|moves| - 1];
      SafeForever(s, before);
      SafeStep(Exec(s, before), last);
      TokensStay(Exec(s, before), last);
    }
  }

  /** In every interleaving of the loop, the workers, heartbeats, API requests split into their
      database calls, and failing calls, in which no acknowledgement overtakes a resolution: a
      monitor that never holds a push token has at most one active incident at every moment. */
  lemma {:induction false} OneIncidentPerProbedMonitor(s: State, moves: seq<Move>, id: MonitorId)
    requires Initial(s) && id !in s.tokens && NoRevival(s, moves)
    ensures |Exec(s, moves).w.ledger.ActiveOf(id)| <= 1
    ensures Exec(s, moves).tokens == s.tokens
  {
    InitialProtocol(s);
    SafeForever(s, moves);
  }

  // ---- The token condition is needed ----------------------------------------------

  lemma {:induction false} ExecSnoc(s: State, moves: seq<Move>, mv: Move)
    ensures Exec(s, moves + [mv]) == Next(Exec(s, moves), mv)
  {
  }

  function TwoBeatMoves(id: MonitorId): seq<Move> {
    [Beat(id, "down", 0), Beat(id, "degraded", 1), BeatAdvance(Finding(id, Down)), BeatAdvance(Finding(id, Degraded)),
     BeatAdvance(Inserting(id, "critical")), BeatAdvance(Inserting(id, "warning"))]
  }

  /** Any monitor with a token that is enabled and up, without an active incident, gets two
      from two overlapping heartbeats: both look up before either inserts. */
  lemma TwoHeartbeatsTwoIncidents(s: State, id: MonitorId)
    requires id in s.tokens && s.w.Valid() && id in s.w.rows
    requires s.w.rows[id].hasToken && s.w.rows[id].enabled && s.w.rows[id].status == Up
    requires s.w.ledger.ActiveOf(id) == {} && s.beats == multiset{}
    ensures |Exec(s, TwoBeatMoves(id)).w.ledger.ActiveOf(id)| == 2
  {
    var d, g := Finding(id, Down), Finding(id, Degraded);
    var di, gi := Inserting(id, "critical"), Inserting(id, "warning");
    var b1, b2 := Beat(id, "down", 0), Beat(id, "degraded", 1);
    TwoBeats(s, id);
    var s2 := Next(Next(s, b1), b2);
    TwoLookups(s2, d, g);
    var s4 := Next(Next(s2, BeatAdvance(d)), BeatAdvance(g));
    TwoInserts(s4, di, gi);
    SixMoves(s, b1, b2, BeatAdvance(d), BeatAdvance(g), BeatAdvance(di), BeatAdvance(gi));
  }

  lemma {:induction false} ExecAppend(s: State, xs: seq<Move>, ys: seq<Move>)
    ensures Exec(s, xs + ys) == Exec(Exec(s, xs), ys)
  {
    if ys == [] {
      assert xs + ys == xs;
    } else {
      assert (xs + ys)[..|xs + ys| - 1] == xs + ys[..|ys| - 1];
      ExecAppend(s, xs, ys[..|ys| - 1]);
    }
  }

  lemma FirstMove(s: State, mv: Move, more: seq<Move>)
    ensures Exec(s, [mv] + more) == Exec(Next(s, mv), more)
  {
    ExecAppend(s, [mv], more);
    assert [mv][..0] == [] && Exec(s, [mv]) == Next(s, mv);
  }

  /** The bound is exact: the monitors that never have two active incidents, in whatever
      interleaving without a revival, are those that never hold a push token. */
  lemma OneIncidentIffNoToken(s: State, id: MonitorId)
    requires Initial(s)
    ensures (forall moves :: NoRevival(s, moves) ==> |Exec(s, moves).w.ledger.ActiveOf(id)| <= 1) <==> id !in s.tokens
  {
    if id in s.tokens {
      var moves := TwoIncidents(s, id);
      NoWriteNoRevival(s, moves);
      assert |Exec(s, moves).w.ledger.ActiveOf(id)| >= 2;
    } else {
      forall moves | NoRevival(s, moves) ensures |Exec(s, moves).w.ledger.ActiveOf(id)| <= 1 {
        OneIncidentPerProbedMonitor(s, moves, id);
      }
    }
  }

  lemma {:induction false} NoWriteNoRevival(s: State, moves: seq<Move>)
    requires forall mv :: mv in moves ==> !mv.RequestWrite?
    ensures NoRevival(s, moves)
  {
    if moves != [] {
      assert moves[|moves| - 1] in moves;
      NoWriteNoRevival(s, moves[..|moves| - 1]);
    }
  }

  /** The requests that make a monitor push, enabled and up: creation and a heartbeat for a new
      one; otherwise an edit, a token, a resume and a heartbeat, which resolves the one incident
      it may have. */
  function UpByHeartbeat(w: World, id: MonitorId): seq<Action> {
    if id in w.rows
    then [Edit(id, Change(Some(Push(0)), 0, None)), RotateToken(id), Resume(id), Heartbeat(id, "up", 0)]
    else [Create(id, Push(0), 1, true), Heartbeat(id, "up", 0)]
  }

  function ApiMoves(acts: seq<Action>): seq<Move> {
    seq(|acts|, i requires 0 <= i < |acts| => Api(acts[i]))
  }

  predicate AllAllowed(s: State, acts: seq<Action>) {
    forall a :: a in acts ==> Enabled(s, Api(a))
  }

  lemma {:induction false} ApiMovesRun(s: State, acts: seq<Action>)
    requires AllAllowed(s, acts)
    ensures Exec(s, ApiMoves(acts)) == s.(w := RunAll(s.w, acts))
  {
    if acts != [] {
      var before, last := acts[..|acts| - 1], acts[|acts| - 1];
      assert last in acts;
      ApiMovesRun(s, before);
      assert ApiMoves(acts)[..|acts| - 1] == ApiMoves(before);
      ApiMoveRuns(s, RunAll(s.w, before), last);
    }
  }

  lemma ApiMoveRuns(s: State, w: World, a: Action)
    requires Enabled(s, Api(a))
    ensures Next(s.(w := w), Api(a)) == s.(w := Step(w, a))
  {
  }

  ghost predicate UpWithToken(w: World, id: MonitorId) {
    && w.Valid() && id in w.rows && w.rows[id].hasToken && w.rows[id].enabled && w.rows[id].status == Up
    && w.ledger.ActiveOf(id) == {}
  }

  lemma NewPushMonitor(w: World, id: MonitorId)
    requires w.Valid() && id !in w.rows
    ensures UpWithToken(Step(Step(w, Create(id, Push(0), 1, true)), Heartbeat(id, "up", 0)), id)
  {
    var w1 := Step(w, Create(id, Push(0), 1, true));
    assert w1.rows == w.rows[id := NewRow(Push(0), 1, true)] && w1.Valid() && w1.ledger.ActiveOf(id) == {};
    HeartbeatUp(w1, id);
  }

  lemma HeartbeatUp(w: World, id: MonitorId)
    requires w.Valid() && id in w.rows && w.rows[id].hasToken && w.rows[id].enabled && w.rows[id].status == Unknown
    requires |w.ledger.ActiveOf(id)| <= 1
    ensures UpWithToken(Step(w, Heartbeat(id, "up", 0)), id)
  {
    HookActive(w.ledger, id, Up, id);
  }

  lemma EditedToPush(w: World, id: MonitorId)
    requires w.Valid() && id in w.rows
    ensures var w' := Step(Step(Step(w, Edit(id, Change(Some(Push(0)), 0, None))), RotateToken(id)), Resume(id));
            && w'.Valid() && id in w'.rows && w'.rows[id].hasToken && w'.rows[id].enabled
            && w'.rows[id].status == Unknown && w'.ledger == w.ledger
  {
    var w1 := Step(w, Edit(id, Change(Some(Push(0)), 0, None)));
    assert w1 == w.(rows := w.rows[id := w.rows[id].(kind := Push(0))]);
    var w2 := Step(w1, RotateToken(id));
    assert w2 == w1.(rows := w1.rows[id := w1.rows[id].(hasToken := true)]);
  }

  lemma RunTwo(w: World, a: Action, b: Action)
    ensures RunAll(w, [a, b]) == Step(Step(w, a), b)
  {
    assert [a, b][..1] == [a] && [a][..0] == [];
    assert RunAll(w, [a]) == Step(w, a);
  }

  lemma RunFour(w: World, a: Action, b: Action, c: Action, d: Action)
    ensures RunAll(w, [a, b, c, d]) == Step(Step(Step(Step(w, a), b), c), d)
  {
    RunTwo(w, a, b);
    assert [a, b, c, d][..3] == [a, b, c] && [a, b, c][..2] == [a, b];
    assert RunAll(w, [a, b, c]) == Step(RunAll(w, [a, b]), c);
  }

  lemma UpByHeartbeatWorks(w: World, id: MonitorId)
    requires w.Valid() && |w.ledger.ActiveOf(id)| <= 1
    ensures UpWithToken(RunAll(w, UpByHeartbeat(w, id)), id)
  {
    var acts := UpByHeartbeat(w, id);
    if id in w.rows {
      RunFour(w, acts[0], acts[1], acts[2], acts[3]);
      EditedToPush(w, id);
      HeartbeatUp(Step(Step(Step(w, acts[0]), acts[1]), acts[2]), id);
    } else {
      RunTwo(w, acts[0], acts[1]);
      NewPushMonitor(w, id);
    }
  }

  lemma UpRun(s: State, id: MonitorId) returns (moves: seq<Move>)
    requires Initial(s) && id in s.tokens && |s.w.ledger.ActiveOf(id)| <= 1
    ensures UpWithToken(Exec(s, moves).w, id) && Exec(s, moves).beats == multiset{} && Exec(s, moves).tokens == s.tokens
    ensures forall mv :: mv in moves ==> mv.Api?
  {
    var acts := UpByHeartbeat(s.w, id);
    moves := ApiMoves(acts);
    UpAllowed(s, id);
    ApiMovesRun(s, acts);
    UpByHeartbeatWorks(s.w, id);
  }

  lemma UpAllowed(s: State, id: MonitorId)
    requires id in s.tokens
    ensures AllAllowed(s, UpByHeartbeat(s.w, id))
  {
  }

  lemma TwoIncidents(s: State, id: MonitorId) returns (moves: seq<Move>)
    requires Initial(s) && id in s.tokens
    ensures |Exec(s, moves).w.ledger.ActiveOf(id)| >= 2
    ensures forall mv :: mv in moves ==> !mv.RequestWrite?
  {
    moves := [];
    if |s.w.ledger.ActiveOf(id)| <= 1 {
      var up := UpRun(s, id);
      TwoHeartbeatsTwoIncidents(Exec(s, up), id);
      ExecAppend(s, up, TwoBeatMoves(id));
      moves := up + TwoBeatMoves(id);
    }
  }

  lemma TwoBeats(s: State, id: MonitorId)
    requires id in s.tokens && s.w.Valid() && id in s.w.rows
    requires s.w.rows[id].hasToken && s.w.rows[id].enabled && s.w.rows[id].status == Up && s.beats == multiset{}
    ensures var s' := Next(Next(s, Beat(id, "down", 0)), Beat(id, "degraded", 1));
            && s'.beats == multiset{Finding(id, Down), Finding(id, Degraded)}
            && s'.w.ledger == s.w.ledger && s'.w.Valid() && id in s'.w.rows
  {
    BeatStarts(s, id, "down", 0);
    BeatStarts(Next(s, Beat(id, "down", 0)), id, "degraded", 1);
  }

  lemma TwoLookups(s: State, d: Hook, g: Hook)
    requires s.beats == multiset{d, g} && d.Finding? && g.Finding? && d.id == g.id
    requires !d.status.Up? && !g.status.Up? && s.w.ledger.ActiveOf(d.id) == {}
    ensures var s' := Next(Next(s, BeatAdvance(d)), BeatAdvance(g));
            && s'.w == s.w
            && s'.beats == multiset{Inserting(d.id, SeverityFor(d.status)), Inserting(g.id, SeverityFor(g.status))}
  {
    LookupFindsNone(s, d);
    LookupFindsNone(Next(s, BeatAdvance(d)), g);
  }

  lemma TwoInserts(s: State, d: Hook, g: Hook)
    requires s.beats == multiset{d, g} && d.Inserting? && g.Inserting? && d.id == g.id
    requires s.w.Valid() && d.id in s.w.rows
    ensures |Next(Next(s, BeatAdvance(d)), BeatAdvance(g)).w.ledger.ActiveOf(d.id)| == |s.w.ledger.ActiveOf(d.id)| + 2
  {
    InsertAdds(s, d);
    InsertAdds(Next(s, BeatAdvance(d)), g);
  }

  lemma BeatStarts(s: State, id: MonitorId, pushed: string, at: int)
    requires id in s.tokens && s.w.Valid() && id in s.w.rows
    requires s.w.rows[id].hasToken && s.w.rows[id].enabled && s.w.rows[id].status != PushedVerdict(pushed)
    ensures var s' := Next(s, Beat(id, pushed, at));
            && s'.beats == s.beats + multiset{Finding(id, PushedVerdict(pushed))}
            && s'.w.ledger == s.w.ledger && s'.tokens == s.tokens && s'.w.Valid() && id in s'.w.rows
            && s'.w.rows[id].hasToken && s'.w.rows[id].enabled && s'.w.rows[id].status == PushedVerdict(pushed)
  {
  }

  lemma LookupFindsNone(s: State, h: Hook)
    requires h in s.beats && h.Finding? && !h.status.Up? && s.w.ledger.ActiveOf(h.id) == {}
    ensures var s' := Next(s, BeatAdvance(h));
            s'.w == s.w && s'.beats == s.beats - multiset{h} + multiset{Inserting(h.id, SeverityFor(h.status))}
  {
  }

  lemma InsertAdds(s: State, h: Hook)
    requires h in s.beats && h.Inserting? && h.id in s.w.rows && s.w.Valid()
    ensures var s' := Next(s, BeatAdvance(h));
            && s'.beats == s.beats - multiset{h} && s'.w.Valid() && s'.w.rows == s.w.rows
            && |s'.w.ledger.ActiveOf(h.id)| == |s.w.ledger.ActiveOf(h.id)| + 1
  {
    assert Enabled(s, BeatAdvance(h));
    HookStepActive(s.w, h, h.id);
    assert s.w.ledger.next !in s.w.ledger.ActiveOf(h.id);
  }

  lemma TwoMore(s: State, moves: seq<Move>, a: Move, b: Move)
    ensures Exec(s, moves + [a, b]) == Next(Next(Exec(s, moves), a), b)
  {
    ExecSnoc(s, moves, a);
    ExecSnoc(s, moves + [a], b);
    assert moves + [a, b] == moves + [a] + [b];
  }

  lemma FourMoves(s: State, a: Move, b: Move, c: Move, d: Move)
    ensures Exec(s, [a, b, c, d]) == Next(Next(Next(Next(s, a), b), c), d)
  {
    TwoMore(s, [], a, b);
    TwoMore(s, [a, b], c, d);
    assert [] + [a, b] == [a, b];
    assert [a, b] + [c, d] == [a, b, c, d];
  }

  lemma SixMoves(s: State, a: Move, b: Move, c: Move, d: Move, e: Move, f: Move)
    ensures Exec(s, [a, b, c, d, e, f]) == Next(Next(Next(Next(Next(Next(s, a), b), c), d), e), f)
  {
    FourMoves(s, a, b, c, d);
    TwoMore(s, [a, b, c, d], e, f);
    assert [a, b, c, d] + [e, f] == [a, b, c, d, e, f];
  }
}
