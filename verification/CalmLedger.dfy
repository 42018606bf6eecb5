/** The incident ledger of a run of actions as a run of service calls, and how a manual
    resolve that overlaps a recovery is counted twice. */
module CalmLedger {
  import opened Incidents
  import opened Lifecycle
  import opened Interleaving
  import opened Refinement

  function HookCall(id: MonitorId, status: Verdict): Call {
    if status.Up? then RecoveryCall(id) else OpenCall(id, SeverityFor(status))
  }

  /** The service calls an atomic action makes. */
  function CallsOf(w: World, a: Action): seq<Call> {
    match a
    case AcknowledgeIncident(i) => [AcknowledgeCall(i)]
    case ResolveIncident(i) => [ResolveCall(i)]
    case Delete(id) => if w.Has(id) then [MonitorDeletion(id)] else []
    case Check(id, _, _, _) => VerdictCalls(w, a)
    case Heartbeat(id, _, _) => VerdictCalls(w, a)
    case _ => []
  }

  function VerdictCalls(w: World, a: Action): seq<Call>
    requires a.Check? || a.Heartbeat?
  {
    if !w.Has(a.id) || Step(w, a) == w then []
    else
      var status := Step(w, a).rows[a.id].status;
      if status == w.rows[a.id].status || status.Unknown? || status.Paused? then [] else [HookCall(a.id, status)]
  }

  function AllCalls(w: World, acts: seq<Action>): seq<Call> {
    if acts == [] then []
    else AllCalls(w, acts[..|acts| - 1]) + CallsOf(RunAll(w, acts[..|acts| - 1]), acts[|acts| - 1])
  }

  lemma ActionMakesCalls(w: World, a: Action)
    ensures Step(w, a).ledger == AfterAll(w.ledger, CallsOf(w, a))
  {
    var calls := CallsOf(w, a);
    if calls != [] {
      assert calls[..0] == [];
      assert AfterAll(w.ledger, calls) == After(w.ledger, calls[0]);
    }
  }

  lemma {:induction false} AfterAllAppend(l: Ledger, xs: seq<Call>, ys: seq<Call>)
    ensures AfterAll(l, xs + ys) == AfterAll(AfterAll(l, xs), ys)
  {
    if ys == [] {
      assert xs + ys == xs;
    } else {
      assert (xs + ys)[..|xs + ys| - 1] == xs + ys[..|ys| - 1];
      AfterAllAppend(l, xs, ys[..|ys| - 1]);
    }
  }

  lemma {:induction false} RunMakesCalls(w: World, acts: seq<Action>)
    ensures RunAll(w, acts).ledger == AfterAll(w.ledger, AllCalls(w, acts))
  {
    if acts != [] {
      var before, last := acts[..|acts| - 1], acts[|acts| - 1];
      RunMakesCalls(w, before);
      ActionMakesCalls(RunAll(w, before), last);
      AfterAllAppend(w.ledger, AllCalls(w, before), CallsOf(RunAll(w, before), last));
    }
  }

  /** In every calm interleaved run the gauge and the notifications obey the ledger laws of
      the atomic service. */
  lemma {:induction false} CalmLedgerExact(s: State, moves: seq<Move>)
    requires Initial(s) && CalmRun(s, moves)
    ensures var l := Exec(s, moves).w.ledger;
            var calls := AllCalls(s.w, AllEmitted(s, moves));
            && l.gauge - s.w.ledger.gauge == |l.Active()| - |s.w.ledger.Active()| + Cascaded(s.w.ledger, calls)
            && NotificationsMatch(s.w.ledger, l)
  {
    CalmRunsAreAtomic(s, moves);
    var acts := AllEmitted(s, moves);
    RunMakesCalls(s.w, acts);
    GaugeConservation(s.w.ledger, AllCalls(s.w, acts));
    NotificationsExactlyOnce(s.w.ledger, AllCalls(s.w, acts));
  }

  /** When an operator resolves an incident between a recovering check's lookup and its
      update, the gauge falls twice and the resolved notification is sent twice for that one
      incident. */
  lemma OverlappingResolveCountsTwice(s: State, i: nat, id: MonitorId, incident: IncidentId, probe: Verdict, at: int)
    requires i < |s.workers| && s.workers[i].Busy? && s.workers[i].phase.Hooking?
    requires s.workers[i].phase.hook == Closing(id, incident)
    requires incident in s.w.ledger.rows && s.w.ledger.rows[incident].Active()
    ensures var s' := Next(Next(s, Api(ResolveIncident(incident))), Advance(i, probe, at));
            && s'.w.ledger.gauge == s.w.ledger.gauge - 2
            && s'.w.ledger.resolveNotices == s.w.ledger.resolveNotices + [incident, incident]
            && |s'.w.ledger.Active()| == |s.w.ledger.Active()| - 1
  {
    var l := s.w.ledger;
    var s1 := Next(s, Api(ResolveIncident(incident)));
    assert s1.w.ledger == l.Close(incident) && s1.workers == s.workers;
    CloseStep(s1, i, id, incident, probe, at);
    CloseActive(l, incident);
    assert l.Close(incident).Close(incident).Active() == l.Close(incident).Active();
    assert l.resolveNotices + [incident] + [incident] == l.resolveNotices + [incident, incident];
  }

  lemma CloseStep(s: State, i: nat, id: MonitorId, incident: IncidentId, probe: Verdict, at: int)
    requires i < |s.workers| && s.workers[i].Busy? && s.workers[i].phase.Hooking?
    requires s.workers[i].phase.hook == Closing(id, incident) && incident in s.w.ledger.rows
    ensures Next(s, Advance(i, probe, at)).w.ledger == s.w.ledger.Close(incident)
  {
  }
}
