/** What every run of atomic actions keeps: the retry closed form, the coupling of status
    and incidents, the severity of incidents, and overdue detection. */
module LifecycleProofs {
  import opened Basics
  import opened Incidents
  import opened Lifecycle

  // ---- Retry window ---------------------------------------------------------------

  lemma {:induction false} NewestLength(results: seq<Verdict>, limit: int)
    ensures |Newest(results, limit)| == if limit <= 0 then 0 else if limit <= |results| then limit else |results|
  {
    if results != [] && limit > 0 {
      NewestLength(results[..|results| - 1], limit - 1);
    }
  }

  /** The window holds the last results, newest first, as many as the limit allows. */
  lemma {:induction false} NewestAt(results: seq<Verdict>, limit: int, k: nat)
    requires k < |results| && k < limit
    ensures k < |Newest(results, limit)| && Newest(results, limit)[k] == results[|results| - 1 - k]
  {
    NewestLength(results, limit);
    if k > 0 {
      NewestAt(results[..|results| - 1], limit - 1, k - 1);
    }
  }

  /** At least n failures trail exactly if the last n results are failures. */
  lemma {:induction false} TrailingDownsMeans(results: seq<Verdict>, n: nat)
    ensures TrailingDowns(results) >= n
       <==> n <= |results| && forall i :: |results| - n <= i < |results| ==> results[i] == Down
  {
    if results != [] && n > 0 {
      TrailingDownsMeans(results[..|results| - 1], n - 1);
    }
  }

  lemma {:induction false} WindowCounts(results: seq<Verdict>, limit: int)
    ensures LeadingDowns(Newest(results, limit))
         == if limit <= 0 then 0 else if TrailingDowns(results) <= limit then TrailingDowns(results) else limit
  {
    if results != [] && limit > 0 {
      var before := results[..|results| - 1];
      WindowCounts(before, limit - 1);
      assert Newest(results, limit)[1..] == Newest(before, limit - 1);
    }
  }

  /** What a check started from any row writes: that row with a status and the check time, except
      that the heartbeat time stays what it is in the table; and the verdict is appended. */
  lemma CheckWrites(w: World, id: MonitorId, m: Row, probe: Verdict, at: int, writtenAt: int)
    requires w.Has(id) && !m.kind.Unsupported?
    ensures var w' := AfterCheckFrom(w, id, m, probe, at, writtenAt);
            && w'.rows == w.rows[id := m.(status := w'.rows[id].status, lastCheckedAt := Some(writtenAt),
                                          lastHeartbeatAt := w.rows[id].lastHeartbeatAt)]
            && w'.results == w.results[id := w.results[id] + [RunVerdict(m, probe, at).value]]
            && (m.kind.Probed? ==> RunVerdict(m, probe, at) == Some(probe))
  {
  }

  /** The debounced status as a function of the stored history alone. */
  function ClosedForm(results: seq<Verdict>, retryCount: int): Verdict
    requires results != []
  {
    var last := results[|results| - 1];
    if last != Down then last else if TrailingDowns(results) >= retryCount then Down else Degraded
  }

  /** A check writes the closed form exactly when it was not started from a row that is
      already down (or paused) with too few stored failures behind it. */
  lemma ClosedFormExactly(m: Row, results: seq<Verdict>, verdict: Verdict)
    ensures Decide(m, verdict, results + [verdict]) == ClosedForm(results + [verdict], m.retryCount)
       <==> !(verdict.Down? && (m.status.Down? || m.status.Paused?) && TrailingDowns(results) + 1 < m.retryCount)
  {
    assert (results + [verdict])[..|results|] == results;
    WindowCounts(results + [verdict], m.retryCount);
  }

  /** Actions that neither add to nor trim a history outside scheduled checks and do not
      change a retry count. */
  predicate HistoryKept(a: Action) {
    match a
    case Heartbeat(_, _, _) => false
    case ManualTest(_, _, _) => false
    case Trim(_, _) => false
    case Edit(_, c) => c.retryCount < 1
    case _ => true
  }

  /** A down status is backed by enough stored failures. */
  predicate RowBacked(m: Row, results: seq<Verdict>) {
    && m.retryCount >= 1
    && (m.status.Down? ==> TrailingDowns(results) >= m.retryCount)
    && (m.status.Paused? <==> !m.enabled)
  }

  ghost predicate DownBacked(w: World) {
    w.rows.Keys == w.results.Keys && forall id :: id in w.rows ==> RowBacked(w.rows[id], w.results[id])
  }

  lemma BackedCheck(w: World, a: Action)
    requires DownBacked(w) && a.Check?
    ensures DownBacked(Step(w, a))
  {
    var w' := Step(w, a);
    if w' != w {
      var m, before := w.rows[a.id], w.results[a.id];
      var verdict := RunVerdict(m, a.probe, a.at).value;
      ClosedFormExactly(m, before, verdict);
      assert (before + [verdict])[..|before|] == before;
      assert RowBacked(m, before);
      assert RowBacked(w'.rows[a.id], w'.results[a.id]);
    }
  }

  lemma BackedOther(w: World, a: Action, id: MonitorId)
    requires DownBacked(w) && HistoryKept(a) && !a.Check? && id in Step(w, a).rows
    ensures id in Step(w, a).results && RowBacked(Step(w, a).rows[id], Step(w, a).results[id])
  {
    if id in w.rows {
      assert RowBacked(w.rows[id], w.results[id]);
    }
  }

  lemma OtherKeys(w: World, a: Action)
    requires w.rows.Keys == w.results.Keys && !a.Check?
    ensures Step(w, a).rows.Keys == Step(w, a).results.Keys
  {
  }

  lemma DownBackedStep(w: World, a: Action)
    requires DownBacked(w) && HistoryKept(a)
    ensures DownBacked(Step(w, a))
  {
    if a.Check? {
      BackedCheck(w, a);
    } else {
      OtherKeys(w, a);
      forall id | id in Step(w, a).rows ensures RowBacked(Step(w, a).rows[id], Step(w, a).results[id]) {
        BackedOther(w, a, id);
      }
    }
  }

  lemma {:induction false} DownBackedForever(w: World, acts: seq<Action>)
    requires DownBacked(w)
    requires forall a :: a in acts ==> HistoryKept(a)
    ensures DownBacked(RunAll(w, acts))
  {
    if acts != [] {
      assert acts[|acts| - 1] in acts;
      DownBackedForever(w, acts[..|acts| - 1]);
      DownBackedStep(RunAll(w, acts[..|acts| - 1]), acts[|acts| - 1]);
    }
  }

  /** Debouncing refines the history: in every run of creations, checks, pauses, resumes,
      edits that leave the retry count, acknowledgements, resolutions and deletions, the
      status a check writes is the closed form of the stored results. */
  lemma {:induction false} RetryRefinesHistory(acts: seq<Action>, check: Action)
    requires forall a :: a in acts ==> HistoryKept(a)
    requires check.Check? && RunAll(EMPTY_WORLD, acts).Has(check.id)
    requires RunAll(EMPTY_WORLD, acts).rows[check.id].Schedulable()
    requires !RunAll(EMPTY_WORLD, acts).rows[check.id].kind.Unsupported?
    ensures var w := Step(RunAll(EMPTY_WORLD, acts), check);
            w.results[check.id] != []
            && w.rows[check.id].status == ClosedForm(w.results[check.id], w.rows[check.id].retryCount)
  {
    DownBackedForever(EMPTY_WORLD, acts);
    var w := RunAll(EMPTY_WORLD, acts);
    var m := w.rows[check.id];
    ClosedFormExactly(m, w.results[check.id], RunVerdict(m, check.probe, check.at).value);
  }

  /** Why heartbeats are left out: after a pushed "down" one overdue check writes "down", where
      the closed form asks for three failures. */
  lemma PushedDownDeparts(id: MonitorId, late: int)
    requires late > GraceNanoseconds(0)
    ensures var w := RunAll(EMPTY_WORLD, [Create(id, Push(0), 3, true), Heartbeat(id, "down", 0),
                                          Check(id, Up, late, late)]);
            && w.Has(id) && w.results[id] == [Down, Down] && w.rows[id].retryCount == 3
            && w.rows[id].status == Down && ClosedForm(w.results[id], 3) == Degraded
  {
    var create, beat, check := Create(id, Push(0), 3, true), Heartbeat(id, "down", 0), Check(id, Up, late, late);
    assert [create, beat, check][..2] == [create, beat] && [create, beat][..1] == [create] && [create][..0] == [];
    PushedDown(id);
    var w := RunAll(EMPTY_WORLD, [create, beat]);
    assert RunAll(EMPTY_WORLD, [create]) == Step(EMPTY_WORLD, create);
    OverdueAfterPush(w, id, late);
  }

  lemma PushedDown(id: MonitorId)
    ensures var w := Step(Step(EMPTY_WORLD, Create(id, Push(0), 3, true)), Heartbeat(id, "down", 0));
            && w.Has(id) && w.results[id] == [Down]
            && w.rows[id] == NewRow(Push(0), 3, true).(status := Down, lastCheckedAt := Some(0),
                                                       lastHeartbeatAt := Some(0))
  {
  }

  lemma OverdueAfterPush(w: World, id: MonitorId, late: int)
    requires late > GraceNanoseconds(0) && w.Has(id) && w.results[id] == [Down]
    requires w.rows[id] == NewRow(Push(0), 3, true).(status := Down, lastCheckedAt := Some(0),
                                                     lastHeartbeatAt := Some(0))
    ensures var w' := Step(w, Check(id, Up, late, late));
            && w'.Has(id) && w'.results[id] == [Down, Down] && w'.rows[id].retryCount == 3
            && w'.rows[id].status == Down && ClosedForm([Down, Down], 3) == Degraded
  {
    assert [Down, Down][..1] == [Down] && [Down][..0] == [];
    assert TrailingDowns([Down, Down]) == 2;
  }

  // ---- Coupling of status and incidents -------------------------------------------

  ghost predicate MonitorCoupled(m: Row, active: set<IncidentId>, byHand: bool) {
    && (m.status.Paused? <==> !m.enabled)
    && |active| <= 1
    && (m.status.Up? ==> active == {})
    && (m.status.Down? || m.status.Degraded? ==> |active| == if byHand then 0 else 1)
  }

  /** `byHand` holds the monitors whose active incident an operator has resolved since the
      monitor's status last went through the incident hook. */
  ghost predicate Coupled(w: World, byHand: set<MonitorId>) {
    && w.Valid()
    && byHand <= w.rows.Keys
    && forall id :: id in w.rows ==> MonitorCoupled(w.rows[id], w.ledger.ActiveOf(id), id in byHand)
  }

  function ByHandAfter(w: World, byHand: set<MonitorId>, a: Action): set<MonitorId> {
    match a
    case ResolveIncident(i) =>
      if i in w.ledger.rows && w.ledger.rows[i].Active() then byHand + {w.ledger.rows[i].monitor} else byHand
    case AcknowledgeIncident(_) => byHand
    case Create(_, _, _, _) => byHand
    case Delete(id) => byHand - {id}
    case Check(id, _, _, _) => if StatusMoved(w, a) then byHand - {id} else byHand
    case Heartbeat(id, _, _) => if StatusMoved(w, a) then byHand - {id} else byHand
    case _ => byHand
  }

  predicate StatusMoved(w: World, a: Action)
    requires a.Check? || a.Heartbeat?
  {
    w.Has(a.id) && a.id in Step(w, a).rows && Step(w, a).rows[a.id].status != w.rows[a.id].status
  }

  function ByHandAll(w: World, byHand: set<MonitorId>, acts: seq<Action>): set<MonitorId> {
    if acts == [] then byHand
    else
      var before := acts[..|acts| - 1];
      ByHandAfter(RunAll(w, before), ByHandAll(w, byHand, before), acts[|acts| - 1])
  }

  /** The effect of the hook on the active incidents of every monitor. */
  lemma HookActive(l: Ledger, id: MonitorId, status: Verdict, other: MonitorId)
    requires l.Valid()
    ensures AfterHook(l, id, status).Valid()
    ensures other != id ==> AfterHook(l, id, status).ActiveOf(other) == l.ActiveOf(other)
    ensures status.Up? && |l.ActiveOf(id)| <= 1 ==> AfterHook(l, id, status).ActiveOf(id) == {}
    ensures !status.Up? ==>
              AfterHook(l, id, status).ActiveOf(id) == if l.ActiveOf(id) == {} then {l.next} else l.ActiveOf(id)
    ensures forall i :: i in AfterHook(l, id, status).rows ==>
              AfterHook(l, id, status).rows[i].monitor == if i in l.rows then l.rows[i].monitor else id
    ensures forall i :: i in AfterHook(l, id, status).rows ==>
              if i in l.rows then AfterHook(l, id, status).rows[i].severity == l.rows[i].severity
              else !status.Up? && l.ActiveOf(id) == {}
                   && AfterHook(l, id, status).rows[i].severity == SeverityFor(status)
  {
    var l' := AfterHook(l, id, status);
    if status.Up? {
      if l.Lookup(id).Some? {
        var i := l.Lookup(id).value;
        assert l'.ActiveOf(id) == l.ActiveOf(id) - {i};
        assert |l'.ActiveOf(id)| == |l.ActiveOf(id)| - 1;
        assert other != id ==> l'.ActiveOf(other) == l.ActiveOf(other);
      }
    } else if l.Lookup(id).None? {
      assert l'.ActiveOf(id) == {l.next};
      assert other != id ==> l'.ActiveOf(other) == l.ActiveOf(other);
    }
  }

  /** A check or heartbeat that does something writes one status and, if that is a new
      one, calls the hook; it never touches the enabled flag or another monitor. */
  ghost predicate WritesVerdict(w: World, id: MonitorId, w': World, status: Verdict)
    requires w.Has(id)
  {
    && w'.rows.Keys == w.rows.Keys == w'.results.Keys
    && (forall other :: other in w.rows && other != id ==> w'.rows[other] == w.rows[other])
    && w'.rows[id].status == status && w'.rows[id].enabled && w.rows[id].enabled
    && w'.ledger == if status != w.rows[id].status then AfterHook(w.ledger, id, status) else w.ledger
  }

  lemma VerdictForm(w: World, byHand: set<MonitorId>, a: Action) returns (status: Verdict)
    requires Coupled(w, byHand) && (a.Check? || a.Heartbeat?) && Step(w, a) != w
    ensures w.Has(a.id) && WritesVerdict(w, a.id, Step(w, a), status)
  {
    assert MonitorCoupled(w.rows[a.id], w.ledger.ActiveOf(a.id), a.id in byHand);
    if a.Check? {
      var verdict := RunVerdict(w.rows[a.id], a.probe, a.at).value;
      status := Decide(w.rows[a.id], verdict, w.results[a.id] + [verdict]);
    } else {
      status := PushedVerdict(a.pushed);
    }
  }

  lemma {:induction false} CoupledVerdict(w: World, byHand: set<MonitorId>, a: Action)
    requires Coupled(w, byHand) && (a.Check? || a.Heartbeat?)
    ensures Coupled(Step(w, a), ByHandAfter(w, byHand, a))
  {
    if Step(w, a) != w {
      var status := VerdictForm(w, byHand, a);
      CoupledWrite(w, byHand, a.id, Step(w, a), status);
    }
  }

  lemma {:induction false} CoupledWrite(w: World, byHand: set<MonitorId>, id: MonitorId, w': World, status: Verdict)
    requires Coupled(w, byHand) && w.Has(id) && WritesVerdict(w, id, w', status)
    ensures Coupled(w', if status != w.rows[id].status then byHand - {id} else byHand)
  {
    HookActive(w.ledger, id, status, id);
    forall other | other in w.rows
      ensures MonitorCoupled(w'.rows[other], w'.ledger.ActiveOf(other),
                             other in if status != w.rows[id].status then byHand - {id} else byHand)
    {
      HookActive(w.ledger, id, status, other);
      assert MonitorCoupled(w.rows[other], w.ledger.ActiveOf(other), other in byHand);
    }
  }

  /** What all other actions may do to the status and enabled flag of a monitor. */
  predicate RowMoves(m: Row, m': Row) {
    || (m'.status == m.status && (m'.status.Paused? <==> !m'.enabled))
    || (m'.status.Paused? && !m'.enabled)
    || (m'.status.Unknown? && m'.enabled)
  }

  lemma OtherValid(w: World, a: Action)
    requires w.Valid() && !a.Check? && !a.Heartbeat?
    ensures Step(w, a).Valid()
  {
  }

  lemma OtherActive(w: World, a: Action, id: MonitorId)
    requires w.Valid() && !a.Check? && !a.Heartbeat? && (a.Delete? ==> a.id != id)
    ensures Step(w, a).ledger.ActiveOf(id)
         == if a.ResolveIncident? then w.ledger.ActiveOf(id) - {a.incident} else w.ledger.ActiveOf(id)
    ensures id !in w.rows ==> w.ledger.ActiveOf(id) == {}
  {
  }

  lemma DeletedIsGone(w: World, a: Action)
    requires w.Valid() && a.Delete?
    ensures a.id !in Step(w, a).rows
  {
  }

  lemma OtherRow(w: World, a: Action, id: MonitorId)
    requires !a.Check? && !a.Heartbeat? && id in w.rows && id in Step(w, a).rows
    requires w.rows[id].status.Paused? <==> !w.rows[id].enabled
    ensures RowMoves(w.rows[id], Step(w, a).rows[id])
  {
  }

  lemma NewMonitorRow(w: World, a: Action, id: MonitorId)
    requires !a.Check? && !a.Heartbeat? && id !in w.rows && id in Step(w, a).rows
    ensures !a.ResolveIncident?
    ensures var m := Step(w, a).rows[id]; if m.enabled then m.status.Unknown? else m.status.Paused?
  {
  }

  lemma {:induction false} CoupledOther(w: World, byHand: set<MonitorId>, a: Action)
    requires Coupled(w, byHand) && !a.Check? && !a.Heartbeat?
    ensures Coupled(Step(w, a), ByHandAfter(w, byHand, a))
  {
    var w' := Step(w, a);
    OtherValid(w, a);
    ByHandKnown(w, byHand, a);
    if a.Delete? {
      DeletedIsGone(w, a);
    }
    forall id | id in w'.rows
      ensures MonitorCoupled(w'.rows[id], w'.ledger.ActiveOf(id), id in ByHandAfter(w, byHand, a))
    {
      OtherActive(w, a, id);
      ByHandOf(w, byHand, a, id);
      if id in w.rows {
        var active := w.ledger.ActiveOf(id);
        assert MonitorCoupled(w.rows[id], active, id in byHand);
        OtherRow(w, a, id);
        CoupledMove(w.rows[id], active, id in byHand, w'.rows[id],
                    if a.ResolveIncident? then Some(a.incident) else None);
      } else {
        NewMonitorRow(w, a, id);
      }
    }
  }

  lemma ByHandKnown(w: World, byHand: set<MonitorId>, a: Action)
    requires w.Valid() && byHand <= w.rows.Keys && !a.Check? && !a.Heartbeat?
    ensures ByHandAfter(w, byHand, a) <= Step(w, a).rows.Keys
  {
  }

  lemma ByHandOf(w: World, byHand: set<MonitorId>, a: Action, id: MonitorId)
    requires w.Valid() && !a.Check? && !a.Heartbeat? && id in Step(w, a).rows
    ensures id in ByHandAfter(w, byHand, a) <==>
              id in byHand || (a.ResolveIncident? && a.incident in w.ledger.ActiveOf(id))
  {
  }

  /** Taking an active incident away by hand leaves a coupled monitor coupled. */
  lemma CoupledMove(m: Row, active: set<IncidentId>, byHand: bool, m': Row, closed: Option<IncidentId>)
    requires MonitorCoupled(m, active, byHand) && RowMoves(m, m')
    ensures match closed
            case None => MonitorCoupled(m', active, byHand)
            case Some(i) => MonitorCoupled(m', active - {i}, byHand || i in active)
  {
  }

  /** A manual test never touches an incident, nor the status, the enabled flag or the
      heartbeat time of any monitor; it adds its verdict to a probed monitor's history. */
  lemma TestLeavesHealth(w: World, id: MonitorId, probe: Verdict, at: int, other: MonitorId)
    requires w.Has(id) && w.Has(other)
    ensures var w' := Step(w, ManualTest(id, probe, at));
            && w'.ledger == w.ledger && w'.Has(other)
            && w'.rows[other] == w.rows[other].(lastCheckedAt :=
                 if other == id && w.rows[id].kind.Probed? then Some(at) else w.rows[other].lastCheckedAt)
            && w'.results[other]
               == if other == id && w.rows[id].kind.Probed? then w.results[id] + [probe] else w.results[other]
  {
  }

  /** In every run, whatever the order of actions: a monitor is paused exactly when it is
      disabled, it has at most one active incident, none while it is up, and while it is
      down or degraded it has exactly one unless an operator resolved that one by hand. */
  lemma {:induction false} StatusIncidentCoupling(w: World, byHand: set<MonitorId>, acts: seq<Action>)
    requires Coupled(w, byHand)
    ensures Coupled(RunAll(w, acts), ByHandAll(w, byHand, acts))
  {
    if acts != [] {
      var before, last := acts[..|acts| - 1], acts[|acts| - 1];
      StatusIncidentCoupling(w, byHand, before);
      var w1, byHand1 := RunAll(w, before), ByHandAll(w, byHand, before);
      if last.Check? || last.Heartbeat? {
        CoupledVerdict(w1, byHand1, last);
      } else {
        CoupledOther(w1, byHand1, last);
      }
    }
  }

  lemma {:induction false} NobodyByHand(w: World, acts: seq<Action>)
    requires forall a :: a in acts ==> !a.ResolveIncident?
    ensures ByHandAll(w, {}, acts) == {}
  {
    if acts != [] {
      assert acts[|acts| - 1] in acts;
      NobodyByHand(w, acts[..|acts| - 1]);
    }
  }

  /** The same from an empty database and without manual resolution. */
  lemma {:induction false} UnhealthyHasOneIncident(acts: seq<Action>, id: MonitorId)
    requires forall a :: a in acts ==> !a.ResolveIncident?
    requires id in RunAll(EMPTY_WORLD, acts).rows
    ensures var w := RunAll(EMPTY_WORLD, acts);
            && (w.rows[id].status.Paused? <==> !w.rows[id].enabled)
            && (w.rows[id].status.Up? ==> w.ledger.ActiveOf(id) == {})
            && (w.rows[id].status.Down? || w.rows[id].status.Degraded? ==> |w.ledger.ActiveOf(id)| == 1)
  {
    StatusIncidentCoupling(EMPTY_WORLD, {}, acts);
    NobodyByHand(EMPTY_WORLD, acts);
    var w := RunAll(EMPTY_WORLD, acts);
    assert MonitorCoupled(w.rows[id], w.ledger.ActiveOf(id), false);
  }

  // ---- Severity -------------------------------------------------------------------

  /** Scheduled life with a debounce of at least two and no manual resolution. */
  predicate Debounced(a: Action) {
    && HistoryKept(a)
    && !a.ResolveIncident?
    && (a.Create? ==> a.retryCount != 1)
  }

  predicate LastBad(results: seq<Verdict>) {
    results != [] && !results[|results| - 1].Up?
  }

  ghost predicate OnlyWarnings(l: Ledger) {
    forall i :: i in l.rows ==> l.rows[i].severity == "warning"
  }

  ghost predicate MonitorSteady(m: Row, results: seq<Verdict>, active: set<IncidentId>) {
    && m.retryCount >= 2
    && |active| == (if LastBad(results) then 1 else 0)
    && (m.status.Up? ==> !LastBad(results))
    && (m.status.Degraded? ==> LastBad(results))
    && (m.status.Down? ==> TrailingDowns(results) >= m.retryCount)
  }

  ghost predicate Steady(w: World) {
    && w.Valid() && OnlyWarnings(w.ledger)
    && forall id :: id in w.rows ==> MonitorSteady(w.rows[id], w.results[id], w.ledger.ActiveOf(id))
  }

  lemma {:induction false} SteadyCheck(w: World, a: Action)
    requires Steady(w) && a.Check?
    ensures Steady(Step(w, a))
  {
    var w' := Step(w, a);
    if w' != w {
      var m, before := w.rows[a.id], w.results[a.id];
      var verdict := RunVerdict(m, a.probe, a.at).value;
      var results := before + [verdict];
      var status := Decide(m, verdict, results);
      assert MonitorSteady(m, before, w.ledger.ActiveOf(a.id));
      SteadyDecision(m, before, verdict, w.ledger.ActiveOf(a.id));
      HookActive(w.ledger, a.id, status, a.id);
      forall id | id in w'.rows ensures MonitorSteady(w'.rows[id], w'.results[id], w'.ledger.ActiveOf(id)) {
        assert MonitorSteady(w.rows[id], w.results[id], w.ledger.ActiveOf(id));
        HookActive(w.ledger, a.id, status, id);
      }
    }
  }

  /** The decision of a check in a steady state: "up" exactly when the verdict is, never "down"
      without an active incident, and a change of health exactly when the verdict flips. */
  lemma SteadyDecision(m: Row, before: seq<Verdict>, verdict: Verdict, active: set<IncidentId>)
    requires MonitorSteady(m, before, active) && !m.status.Paused?
    ensures var results := before + [verdict];
            var status := Decide(m, verdict, results);
            && (status.Up? <==> verdict.Up?) && (LastBad(results) <==> !verdict.Up?)
            && (status.Down? ==> TrailingDowns(results) >= m.retryCount && active != {})
            && (status == m.status ==> |active| == if status.Up? then 0 else 1)
  {
    var results := before + [verdict];
    assert results[..|results| - 1] == before;
    ClosedFormExactly(m, before, verdict);
    assert Decide(m, verdict, results) == ClosedForm(results, m.retryCount);
  }

  lemma {:induction false} SteadyOther(w: World, a: Action)
    requires Steady(w) && Debounced(a) && !a.Check?
    ensures Steady(Step(w, a))
  {
    var w' := Step(w, a);
    OtherValid(w, a);
    OtherSeverities(w, a);
    if a.Delete? {
      DeletedIsGone(w, a);
    }
    forall id | id in w'.rows ensures MonitorSteady(w'.rows[id], w'.results[id], w'.ledger.ActiveOf(id)) {
      OtherActive(w, a, id);
      SteadyRow(w, a, id);
      if id in w.rows {
        assert MonitorSteady(w.rows[id], w.results[id], w.ledger.ActiveOf(id));
      }
    }
  }

  lemma OtherSeverities(w: World, a: Action)
    requires OnlyWarnings(w.ledger) && !a.Check? && !a.Heartbeat?
    ensures OnlyWarnings(Step(w, a).ledger)
  {
  }

  lemma SteadyRow(w: World, a: Action, id: MonitorId)
    requires w.Valid() && Debounced(a) && !a.Check? && id in Step(w, a).rows && id in Step(w, a).results
    ensures var m', results' := Step(w, a).rows[id], Step(w, a).results[id];
            if id in w.rows
            then m'.retryCount == w.rows[id].retryCount && results' == w.results[id]
                 && m'.status in {w.rows[id].status, Paused, Unknown}
            else m'.retryCount >= 2 && results' == [] && m'.status in {Paused, Unknown}
  {
  }

  /** Severity is fixed when an incident opens, and a debounce of two or more means it
      opens at "degraded": every incident of every such run is a warning, also those whose
      monitor later went down. */
  lemma {:induction false} DebouncedRunsOnlyWarn(w: World, acts: seq<Action>)
    requires Steady(w)
    requires forall a :: a in acts ==> Debounced(a)
    ensures Steady(RunAll(w, acts))
    ensures OnlyWarnings(RunAll(w, acts).ledger)
  {
    if acts != [] {
      var before, last := acts[..|acts| - 1], acts[|acts| - 1];
      assert last in acts;
      DebouncedRunsOnlyWarn(w, before);
      if last.Check? {
        SteadyCheck(RunAll(w, before), last);
      } else {
        SteadyOther(RunAll(w, before), last);
      }
    }
  }

  /** The later step to "down" finds the incident that "degraded" opened and leaves it, and
      every other incident, as it is. */
  lemma StepToDownLeavesIncidents(w: World, a: Action)
    requires Steady(w) && a.Check? && w.Has(a.id) && Step(w, a).rows[a.id].status.Down?
    ensures Step(w, a).ledger == w.ledger
  {
    if Step(w, a) != w {
      var m := w.rows[a.id];
      var verdict := RunVerdict(m, a.probe, a.at).value;
      assert MonitorSteady(m, w.results[a.id], w.ledger.ActiveOf(a.id));
      SteadyDecision(m, w.results[a.id], verdict, w.ledger.ActiveOf(a.id));
    }
  }

  /** The bound is exact: with a retry count of one the first failure opens a critical
      incident. */
  lemma OneRetryOpensCritical(id: MonitorId, at: int)
    ensures var w := RunAll(EMPTY_WORLD, [Create(id, Probed, 1, true), Check(id, Down, at, at)]);
            exists i :: i in w.ledger.rows && w.ledger.rows[i].severity == "critical"
  {
    var create, check := Create(id, Probed, 1, true), Check(id, Down, at, at);
    var w1 := Step(EMPTY_WORLD, create);
    assert [create, check][..1] == [create] && [create][..0] == [];
    assert RunAll(EMPTY_WORLD, [create]) == w1;
    assert RunAll(EMPTY_WORLD, [create, check]) == Step(w1, check);
    FirstFailure(w1, id, at);
  }

  lemma FirstFailure(w: World, id: MonitorId, at: int)
    requires w.Has(id) && w.rows[id] == NewRow(Probed, 1, true) && w.results[id] == []
    requires w.ledger == EMPTY_WORLD.ledger
    ensures Step(w, Check(id, Down, at, at)).ledger == w.ledger.Insert(id, "critical")
    ensures 0 in w.ledger.Insert(id, "critical").rows && w.ledger.Insert(id, "critical").rows[0].severity == "critical"
  {
  }

  // ---- Overdue push monitors ------------------------------------------------------

  /** No heartbeat ever, or the last one longer ago than the configured grace, two minutes if
      none is configured. */
  predicate OverdueAt(m: Row, at: int)
    requires m.kind.Push?
  {
    match m.lastHeartbeatAt
    case None => true
    case Some(beat) =>
      var graceSeconds := if m.kind.graceSeconds > 0 then m.kind.graceSeconds else 120;
      at > beat + graceSeconds * 1_000_000_000
  }

  /** `a` is not a heartbeat of `id`, and if it checks `id` it does so past the grace
      period of `m`. Retry counts, pauses and other monitors may change freely. */
  predicate Silent(a: Action, id: MonitorId, m: Row)
    requires m.kind.Push?
  {
    match a
    case Check(i, _, at, _) => i != id || OverdueAt(m, at)
    case Heartbeat(i, _, _) => i != id
    case Delete(i) => i != id
    case Trim(i, _) => i != id
    case Edit(i, c) => i != id || c.kind.None?
    case _ => true
  }

  predicate RunsCheck(w: World, id: MonitorId, a: Action) {
    a.Check? && a.id == id && w.Has(id) && w.rows[id].enabled && w.rows[id].status != Paused
  }

  /** How many checks of `id` the run really performs. */
  function ChecksRun(w: World, id: MonitorId, acts: seq<Action>): nat {
    if acts == [] then 0
    else
      var before, last := acts[..|acts| - 1], acts[|acts| - 1];
      ChecksRun(w, id, before) + if RunsCheck(RunAll(w, before), id, last) then 1 else 0
  }

  function Downs(n: nat): seq<Verdict> {
    seq(n, _ => Down)
  }

  ghost predicate SilentSince(w: World, w': World, id: MonitorId, n: nat)
    requires w.Has(id)
  {
    && w'.Has(id)
    && w'.rows[id].kind == w.rows[id].kind
    && w'.rows[id].lastHeartbeatAt == w.rows[id].lastHeartbeatAt
    && w'.results[id] == w.results[id] + Downs(n)
  }

  lemma {:induction false} DownsTrail(results: seq<Verdict>, n: nat)
    ensures TrailingDowns(results + Downs(n)) >= n
  {
    if n > 0 {
      var all := results + Downs(n);
      assert all[..|all| - 1] == results + Downs(n - 1);
      DownsTrail(results, n - 1);
    }
  }

  lemma SilentStep(w: World, id: MonitorId, a: Action)
    requires w.Has(id) && w.rows[id].kind.Push? && Silent(a, id, w.rows[id])
    ensures Step(w, a).Has(id)
    ensures Step(w, a).rows[id].kind == w.rows[id].kind
    ensures Step(w, a).rows[id].lastHeartbeatAt == w.rows[id].lastHeartbeatAt
    ensures Step(w, a).results[id] == if RunsCheck(w, id, a) then w.results[id] + [Down] else w.results[id]
  {
  }

  /** Only a heartbeat moves the heartbeat time; past the grace period every check, in any
      run without a heartbeat, stores "down". */
  lemma {:induction false} SilenceStoresDowns(w: World, id: MonitorId, acts: seq<Action>)
    requires w.Has(id) && w.rows[id].kind.Push?
    requires forall a :: a in acts ==> Silent(a, id, w.rows[id])
    ensures SilentSince(w, RunAll(w, acts), id, ChecksRun(w, id, acts))
  {
    if acts == [] {
      assert w.results[id] == w.results[id] + Downs(0);
    } else {
      var before, last := acts[..|acts| - 1], acts[|acts| - 1];
      assert last in acts;
      SilenceStoresDowns(w, id, before);
      SilentStep(RunAll(w, before), id, last);
      var n := ChecksRun(w, id, before);
      assert w.results[id] + Downs(n) + [Down] == w.results[id] + Downs(n + 1);
    }
  }

  /** A check of a push monitor stores "down" if it is overdue and "up" otherwise, and within the
      grace period it writes "up". */
  lemma PushCheckStores(w: World, id: MonitorId, a: Action)
    requires RunsCheck(w, id, a) && w.rows[id].kind.Push?
    ensures Step(w, a).results[id] == w.results[id] + [if OverdueAt(w.rows[id], a.at) then Down else Up]
    ensures !OverdueAt(w.rows[id], a.at) ==> Step(w, a).rows[id].status == Up
  {
  }

  lemma OverdueCheck(w: World, check: Action)
    requires check.Check? && w.Has(check.id) && w.rows[check.id].Schedulable()
    requires w.rows[check.id].kind.Push? && OverdueAt(w.rows[check.id], check.at)
    requires TrailingDowns(w.results[check.id]) + 1 >= w.rows[check.id].retryCount
    ensures Step(w, check).rows[check.id].status == Down
  {
    var results := w.results[check.id];
    ClosedFormExactly(w.rows[check.id], results, Down);
    assert (results + [Down])[..|results|] == results;
  }

  /** So the monitor is down as soon as the silent run has performed as many checks as
      its retry count, however pauses, edits and other monitors interleave. */
  lemma {:induction false} SilentPushGoesDown(w: World, id: MonitorId, acts: seq<Action>, check: Action)
    requires w.Has(id) && w.rows[id].kind.Push?
    requires forall a :: a in acts ==> Silent(a, id, w.rows[id])
    requires check.Check? && check.id == id && OverdueAt(w.rows[id], check.at)
    requires RunAll(w, acts).Has(id) && RunAll(w, acts).rows[id].Schedulable()
    requires ChecksRun(w, id, acts) + 1 >= RunAll(w, acts).rows[id].retryCount
    ensures Step(RunAll(w, acts), check).rows[id].status == Down
  {
    SilenceStoresDowns(w, id, acts);
    DownsTrail(w.results[id], ChecksRun(w, id, acts));
    OverdueCheck(RunAll(w, acts), check);
  }
}
