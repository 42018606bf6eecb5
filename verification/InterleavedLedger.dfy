/** The incident ledger in every interleaving: what each move does to it, and the exact laws of
    the gauge, the notifications and the incident states over all runs. */
module InterleavedLedger {
  import opened Basics
  import opened Incidents
  import opened Lifecycle
  import opened Requests
  import opened Interleaving
  import opened IncidentSafety
  import opened CalmLedger
  import opened StaleRows

  // ---- One effect on the ledger ---------------------------------------------------

  datatype Effect =
    | NoEffect
    | Insertion(m: MonitorId, severity: string)
    | Closure(i: IncidentId)
    | Acknowledgement(i: IncidentId)
    | Cascade(m: MonitorId)

  function AfterEffect(l: Ledger, e: Effect): Ledger {
    match e
    case NoEffect => l
    case Insertion(m, severity) => l.Insert(m, severity)
    case Closure(i) => if i in l.rows then l.Close(i) else l
    case Acknowledgement(i) => if i in l.rows then l.MarkAcknowledged(i) else l
    case Cascade(m) => l.AfterMonitorDeleted(m)
  }

  predicate Meets(l: Ledger, i: IncidentId) {
    i in l.rows && l.rows[i].status.Resolved?
  }

  /** The incident a closure closes although it is resolved already. */
  function Again(l: Ledger, e: Effect): seq<IncidentId> {
    if e.Closure? && Meets(l, e.i) then [e.i] else []
  }

  /** The incident an acknowledgement makes active again. */
  function Revived(l: Ledger, e: Effect): seq<IncidentId> {
    if e.Acknowledgement? && Meets(l, e.i) then [e.i] else []
  }

  /** The active incidents that vanish with their monitor. */
  function Lost(l: Ledger, e: Effect): nat {
    if e.Cascade? then |l.ActiveOf(e.m)| else 0
  }

  lemma EffectKeepsValid(l: Ledger, e: Effect)
    requires l.Valid()
    ensures AfterEffect(l, e).Valid()
  {
  }

  lemma CloseAgainActive(l: Ledger, i: IncidentId)
    requires Meets(l, i)
    ensures l.Close(i).Active() == l.Active()
  {
  }

  lemma MarkActive(l: Ledger, i: IncidentId)
    requires i in l.rows
    ensures |l.MarkAcknowledged(i).Active()| == |l.Active()| + if Meets(l, i) then 1 else 0
  {
    assert l.MarkAcknowledged(i).Active() == l.Active() + {i};
    if !Meets(l, i) {
      assert l.Active() + {i} == l.Active();
    }
  }

  lemma EffectGauge(l: Ledger, e: Effect)
    requires l.Valid()
    ensures AfterEffect(l, e).gauge - l.gauge
         == |AfterEffect(l, e).Active()| - |l.Active()| + Lost(l, e) - |Again(l, e)| - |Revived(l, e)|
  {
    match e
    case NoEffect =>
    case Insertion(m, severity) => InsertActive(l, m, severity);
    case Closure(i) =>
      if i in l.Active() {
        CloseActive(l, i);
      } else if i in l.rows {
        CloseAgainActive(l, i);
      }
    case Acknowledgement(i) =>
      if i in l.rows {
        MarkActive(l, i);
      }
    case Cascade(m) => CascadeActive(l, m);
  }

  // ---- Notices --------------------------------------------------------------------

  /** Opened notices are the new ids in order. Of a stored incident, the resolved notices and
      its being active make up its first activity, the closures that met it resolved, and its
      revivals: without the last two, one notice exactly when it is no longer active. */
  ghost predicate Noticed(l: Ledger, l': Ledger, repeats: seq<IncidentId>, revivals: seq<IncidentId>) {
    && l'.Valid() && l.next <= l'.next
    && l'.openNotices == l.openNotices + Range(l.next, l'.next)
    && l.resolveNotices <= l'.resolveNotices
    && (forall i :: i in l'.rows && i < l.next ==> i in l.rows)
    && (forall i :: ResolvedAsOften(l, l', multiset(repeats)[i] + multiset(revivals)[i], i))
  }

  ghost predicate ResolvedAsOften(l: Ledger, l': Ledger, extra: nat, i: IncidentId)
    requires l.resolveNotices <= l'.resolveNotices
  {
    var notices, born := multiset(ResolvedSince(l, l'))[i], One(i in l.rows ==> l.rows[i].Active());
    && (if i in l'.rows then notices + One(l'.rows[i].Active()) == born + extra else notices <= born + extra)
    && (i >= l'.next ==> notices == 0 && extra == 0)
  }

  lemma InsertionNoticed(l: Ledger, l1: Ledger, extra: nat, m: MonitorId, severity: string, i: IncidentId)
    requires l.Valid() && l1.Valid() && l.next <= l1.next && l.resolveNotices <= l1.resolveNotices
    requires ResolvedAsOften(l, l1, extra, i)
    ensures ResolvedAsOften(l, l1.Insert(m, severity), extra, i)
  {
    assert ResolvedSince(l, l1.Insert(m, severity)) == ResolvedSince(l, l1);
  }

  lemma ClosureNoticed(l: Ledger, l1: Ledger, extra: nat, closed: IncidentId, i: IncidentId)
    requires l1.Valid() && closed in l1.rows && l.resolveNotices <= l1.resolveNotices
    requires ResolvedAsOften(l, l1, extra, i)
    ensures l.resolveNotices <= l1.Close(closed).resolveNotices
    ensures ResolvedAsOften(l, l1.Close(closed), extra + One(i == closed && Meets(l1, closed)), i)
  {
    assert ResolvedSince(l, l1.Close(closed)) == ResolvedSince(l, l1) + [closed];
    CountMore(ResolvedSince(l, l1), closed, i);
  }

  lemma MarkNoticed(l: Ledger, l1: Ledger, extra: nat, marked: IncidentId, i: IncidentId)
    requires l1.Valid() && marked in l1.rows && l.resolveNotices <= l1.resolveNotices
    requires ResolvedAsOften(l, l1, extra, i)
    ensures ResolvedAsOften(l, l1.MarkAcknowledged(marked), extra + One(i == marked && Meets(l1, marked)), i)
  {
    assert ResolvedSince(l, l1.MarkAcknowledged(marked)) == ResolvedSince(l, l1);
  }

  lemma CascadeNoticed(l: Ledger, l1: Ledger, extra: nat, m: MonitorId, i: IncidentId)
    requires l.resolveNotices <= l1.resolveNotices && ResolvedAsOften(l, l1, extra, i)
    ensures ResolvedAsOften(l, l1.AfterMonitorDeleted(m), extra, i)
  {
    assert ResolvedSince(l, l1.AfterMonitorDeleted(m)) == ResolvedSince(l, l1);
  }

  lemma CountMore(ids: seq<IncidentId>, x: IncidentId, i: IncidentId)
    ensures multiset(ids + [x])[i] == multiset(ids)[i] + One(x == i)
  {
  }

  lemma CountGrows(ids: seq<IncidentId>, more: seq<IncidentId>, i: IncidentId)
    requires |more| <= 1
    ensures multiset(ids + more)[i] == multiset(ids)[i] + One(more == [i])
  {
    if |more| == 1 {
      assert more == [more[0]];
      CountMore(ids, more[0], i);
    } else {
      assert ids + more == ids;
    }
  }

  lemma EffectNoticedOf(l: Ledger, l1: Ledger, extra: nat, e: Effect, i: IncidentId)
    requires l.Valid() && l1.Valid() && l.next <= l1.next && l.resolveNotices <= l1.resolveNotices
    requires ResolvedAsOften(l, l1, extra, i)
    ensures l.resolveNotices <= AfterEffect(l1, e).resolveNotices
    ensures ResolvedAsOften(l, AfterEffect(l1, e), extra + One(Again(l1, e) == [i]) + One(Revived(l1, e) == [i]), i)
  {
    match e
    case NoEffect =>
    case Insertion(m, severity) => InsertionNoticed(l, l1, extra, m, severity, i);
    case Closure(c) =>
      if c in l1.rows {
        ClosureNoticed(l, l1, extra, c, i);
      }
    case Acknowledgement(c) =>
      if c in l1.rows {
        MarkNoticed(l, l1, extra, c, i);
      }
    case Cascade(m) => CascadeNoticed(l, l1, extra, m, i);
  }

  lemma EffectOpenNotices(l: Ledger, l1: Ledger, e: Effect)
    requires l.Valid() && l1.Valid() && l.next <= l1.next && l.resolveNotices <= l1.resolveNotices
    requires l1.openNotices == l.openNotices + Range(l.next, l1.next)
    requires forall i :: i in l1.rows && i < l.next ==> i in l.rows
    ensures var l2 := AfterEffect(l1, e);
            && l2.Valid() && l.next <= l2.next && l.resolveNotices <= l2.resolveNotices
            && l2.openNotices == l.openNotices + Range(l.next, l2.next)
            && (forall i :: i in l2.rows && i < l.next ==> i in l.rows)
  {
    if e.Insertion? {
      RangeGrows(l.next, l1.next);
    }
  }

  lemma RangeGrows(lo: nat, hi: nat)
    requires lo <= hi
    ensures Range(lo, hi + 1) == Range(lo, hi) + [hi]
  {
  }

  lemma EffectNoticed(l: Ledger, l1: Ledger, repeats: seq<IncidentId>, revivals: seq<IncidentId>, e: Effect)
    requires l.Valid() && Noticed(l, l1, repeats, revivals)
    ensures Noticed(l, AfterEffect(l1, e), repeats + Again(l1, e), revivals + Revived(l1, e))
  {
    EffectOpenNotices(l, l1, e);
    forall i
      ensures ResolvedAsOften(l, AfterEffect(l1, e),
                              multiset(repeats + Again(l1, e))[i] + multiset(revivals + Revived(l1, e))[i], i)
    {
      EffectNoticedOf(l, l1, multiset(repeats)[i] + multiset(revivals)[i], e, i);
      CountGrows(repeats, Again(l1, e), i);
      CountGrows(revivals, Revived(l1, e), i);
    }
  }

  // ---- States ---------------------------------------------------------------------

  /** Severity and monitor stay, acknowledged never reopens, and resolved stays resolved unless
      the incident was revived. */
  predicate AdvancedBut(x: Incident, x': Incident, revived: bool) {
    && x'.severity == x.severity && x'.monitor == x.monitor
    && (x'.status.Open? ==> x.status.Open?)
    && (x.status.Resolved? && !revived ==> x'.status.Resolved?)
  }

  lemma EffectAdvances(l: Ledger, e: Effect, i: IncidentId, bound: nat)
    requires l.Valid() && i < bound <= l.next && i in AfterEffect(l, e).rows
    ensures i in l.rows && AdvancedBut(l.rows[i], AfterEffect(l, e).rows[i], i in Revived(l, e))
  {
  }

  // ---- The effect of a move -------------------------------------------------------

  function HookEffect(w: World, h: Hook): Effect {
    match h
    case Finding(_, _) => NoEffect
    case Inserting(id, severity) => if id in w.rows then Insertion(id, severity) else NoEffect
    case Closing(_, i) => Closure(i)
  }

  function RequestEffect(r: Request): Effect {
    match r
    case Acknowledging(i) => Acknowledgement(i)
    case Resolving(i) => Closure(i)
    case _ => NoEffect
  }

  function CallEffect(l: Ledger, c: Call): Effect {
    match c
    case OpenCall(m, severity) => if l.AfterOpen(m, severity) == l then NoEffect else Insertion(m, severity)
    case RecoveryCall(m) => (match l.Lookup(m) case Some(i) => Closure(i) case None => NoEffect)
    case AcknowledgeCall(i) => if i in l.rows && l.rows[i].status.Open? then Acknowledgement(i) else NoEffect
    case ResolveCall(i) => if i in l.rows && l.rows[i].Active() then Closure(i) else NoEffect
    case MonitorDeletion(m) => Cascade(m)
  }

  function ActionEffect(w: World, a: Action): Effect {
    if CallsOf(w, a) == [] then NoEffect else CallEffect(w.ledger, CallsOf(w, a)[0])
  }

  function EffectOf(s: State, mv: Move): Effect {
    if !Enabled(s, mv) then NoEffect
    else match mv
         case Advance(i, _, _) =>
           if s.workers[i].phase.Hooking? then HookEffect(s.w, s.workers[i].phase.hook) else NoEffect
         case BeatAdvance(h) => HookEffect(s.w, h)
         case RequestWrite(r, _) => RequestEffect(r)
         case Api(a) => ActionEffect(s.w, a)
         case _ => NoEffect
  }

  lemma CallHasEffect(l: Ledger, c: Call)
    ensures After(l, c) == AfterEffect(l, CallEffect(l, c))
    ensures Again(l, CallEffect(l, c)) == [] && Revived(l, CallEffect(l, c)) == []
  {
  }

  lemma ActionHasEffect(w: World, a: Action)
    ensures Step(w, a).ledger == AfterEffect(w.ledger, ActionEffect(w, a))
    ensures Again(w.ledger, ActionEffect(w, a)) == [] && Revived(w.ledger, ActionEffect(w, a)) == []
  {
    ActionMakesCalls(w, a);
    var calls := CallsOf(w, a);
    if calls != [] {
      CallHasEffect(w.ledger, calls[0]);
      assert calls[..0] == [];
      assert AfterAll(w.ledger, calls) == After(w.ledger, calls[0]);
    }
  }

  lemma HookHasEffect(w: World, h: Hook)
    ensures HookStep(w, h).0.ledger == AfterEffect(w.ledger, HookEffect(w, h))
  {
  }

  lemma RequestHasEffect(w: World, r: Request, at: int)
    ensures Update(w, r, at).w.ledger == AfterEffect(w.ledger, RequestEffect(r))
  {
  }

  lemma MoveHasEffect(s: State, mv: Move)
    ensures Next(s, mv).w.ledger == AfterEffect(s.w.ledger, EffectOf(s, mv))
  {
    if Enabled(s, mv) {
      match mv {
        case Advance(i, _, _) =>
          if s.workers[i].phase.Hooking? {
            HookHasEffect(s.w, s.workers[i].phase.hook);
          }
        case BeatAdvance(h) => HookHasEffect(s.w, h);
        case RequestWrite(r, at) => RequestHasEffect(s.w, r, at);
        case Api(a) => ActionHasEffect(s.w, a);
        case _ =>
      }
    }
  }

  // ---- The moves that break the laws ----------------------------------------------

  /** The ledger before the last move of a run, and that move's effect. */
  function LedgerBefore(s: State, moves: seq<Move>): Ledger
    requires moves != []
  {
    Exec(s, moves[..|moves| - 1]).w.ledger
  }

  function LastEffect(s: State, moves: seq<Move>): Effect
    requires moves != []
  {
    EffectOf(Exec(s, moves[..|moves| - 1]), moves[|moves| - 1])
  }

  function AllClosedAgain(s: State, moves: seq<Move>): seq<IncidentId> {
    if moves == [] then []
    else AllClosedAgain(s, moves[..|moves| - 1]) + Again(LedgerBefore(s, moves), LastEffect(s, moves))
  }

  function AllRevived(s: State, moves: seq<Move>): seq<IncidentId> {
    if moves == [] then []
    else AllRevived(s, moves[..|moves| - 1]) + Revived(LedgerBefore(s, moves), LastEffect(s, moves))
  }

  function AllLost(s: State, moves: seq<Move>): nat {
    if moves == [] then 0
    else AllLost(s, moves[..|moves| - 1]) + Lost(LedgerBefore(s, moves), LastEffect(s, moves))
  }

  predicate RunsHook(s: State, mv: Move, h: Hook) {
    || mv == BeatAdvance(h)
    || (mv.Advance? && mv.i < |s.workers| && s.workers[mv.i].Busy? && s.workers[mv.i].phase.Hooking?
        && s.workers[mv.i].phase.hook == h)
  }

  /** The update of a hook or of a manual resolve that meets an incident resolved since the
      look-up. */
  ghost predicate ClosesResolved(s: State, mv: Move) {
    && Enabled(s, mv)
    && ((exists id, i :: RunsHook(s, mv, Closing(id, i)) && Meets(s.w.ledger, i))
        || (mv.RequestWrite? && mv.request.Resolving? && Meets(s.w.ledger, mv.request.incident)))
  }

  /** All moves that break the laws: a late close, a late acknowledgement, and the deletion of a
      monitor with an active incident. */
  lemma WhatBreaksTheGauge(s: State, mv: Move)
    ensures Again(s.w.ledger, EffectOf(s, mv)) != [] <==> ClosesResolved(s, mv)
    ensures Revived(s.w.ledger, EffectOf(s, mv)) != [] <==> Revives(s, mv)
    ensures Lost(s.w.ledger, EffectOf(s, mv)) > 0 <==>
              mv.Api? && mv.action.Delete? && s.w.Has(mv.action.id) && s.w.ledger.ActiveOf(mv.action.id) != {}
  {
    if Enabled(s, mv) && mv.Api? {
      ActionHasEffect(s.w, mv.action);
    }
    if Again(s.w.ledger, EffectOf(s, mv)) != [] && !mv.RequestWrite? {
      var h := if mv.Advance? then s.workers[mv.i].phase.hook else mv.hook;
      assert RunsHook(s, mv, Closing(h.id, h.incident));
    }
  }

  // ---- Every run ------------------------------------------------------------------

  lemma {:induction false} LedgerValidForever(s: State, moves: seq<Move>)
    requires s.w.Valid()
    ensures Exec(s, moves).w.ledger.Valid()
  {
    if moves != [] {
      LedgerValidForever(s, moves[..|moves| - 1]);
      MoveHasEffect(Exec(s, moves[..|moves| - 1]), moves[|moves| - 1]);
      EffectKeepsValid(LedgerBefore(s, moves), LastEffect(s, moves));
    }
  }

  /** Conservation in every interleaving, from every sound database: the gauge moves with the
      number of active incidents, plus those lost to deletions, minus the closes and the
      acknowledgements that met a resolved incident. */
  lemma {:induction false} GaugeInEveryRun(s: State, moves: seq<Move>)
    requires s.w.Valid()
    ensures var l, l' := s.w.ledger, Exec(s, moves).w.ledger;
            l'.gauge - l.gauge == |l'.Active()| - |l.Active()| + AllLost(s, moves)
                                  - |AllClosedAgain(s, moves)| - |AllRevived(s, moves)|
  {
    if moves != [] {
      var before, last := moves[..|moves| - 1], moves[|moves| - 1];
      GaugeInEveryRun(s, before);
      LedgerValidForever(s, before);
      MoveHasEffect(Exec(s, before), last);
      EffectGauge(LedgerBefore(s, moves), LastEffect(s, moves));
    }
  }

  /** So the gauge is exact if and only if as many incidents were lost to deletions as were
      closed again or revived; without losses, if and only if none was closed again or revived. */
  lemma GaugeExactIff(s: State, moves: seq<Move>)
    requires s.w.Valid()
    ensures var l, l' := s.w.ledger, Exec(s, moves).w.ledger;
            var exact := l'.gauge - l.gauge == |l'.Active()| - |l.Active()|;
            && (exact <==> AllLost(s, moves) == |AllClosedAgain(s, moves)| + |AllRevived(s, moves)|)
            && (AllLost(s, moves) == 0 ==>
                  (exact <==> AllClosedAgain(s, moves) == [] && AllRevived(s, moves) == []))
  {
    GaugeInEveryRun(s, moves);
  }

  /** In every interleaving each new incident gets one opened notice, and an incident one
      resolved notice for every time it leaves the active set and every repeated close. */
  lemma {:induction false} NoticesInEveryRun(s: State, moves: seq<Move>)
    requires s.w.Valid()
    ensures Noticed(s.w.ledger, Exec(s, moves).w.ledger, AllClosedAgain(s, moves), AllRevived(s, moves))
  {
    var l := s.w.ledger;
    if moves == [] {
      assert l.openNotices == l.openNotices + Range(l.next, l.next);
      assert ResolvedSince(l, l) == [];
    } else {
      var before, last := moves[..|moves| - 1], moves[|moves| - 1];
      NoticesInEveryRun(s, before);
      MoveHasEffect(Exec(s, before), last);
      EffectNoticed(l, LedgerBefore(s, moves), AllClosedAgain(s, before), AllRevived(s, before), LastEffect(s, moves));
    }
  }

  /** In every interleaving severity and monitor never change, acknowledged incidents never
      reopen, and those no late acknowledgement revives stay resolved. */
  lemma {:induction false} IncidentsAdvanceInEveryRun(s: State, moves: seq<Move>, i: IncidentId)
    requires s.w.Valid() && i in s.w.ledger.rows && i in Exec(s, moves).w.ledger.rows
    ensures AdvancedBut(s.w.ledger.rows[i], Exec(s, moves).w.ledger.rows[i], i in AllRevived(s, moves))
  {
    if moves != [] {
      var before, last := moves[..|moves| - 1], moves[|moves| - 1];
      NoticesInEveryRun(s, before);
      MoveHasEffect(Exec(s, before), last);
      EffectAdvances(LedgerBefore(s, moves), LastEffect(s, moves), i, s.w.ledger.next);
      IncidentsAdvanceInEveryRun(s, before, i);
    }
  }

  /** At every step of the run, resolved incidents that stay stored stay resolved. */
  ghost predicate ResolvedStays(s: State, moves: seq<Move>) {
    moves == []
    || (ResolvedStays(s, moves[..|moves| - 1])
        && forall i :: Meets(LedgerBefore(s, moves), i) && i in Exec(s, moves).w.ledger.rows ==>
             Meets(Exec(s, moves).w.ledger, i))
  }

  /** A run keeps resolved incidents resolved if and only if no acknowledgement's update in it
      meets one. */
  lemma {:induction false} ResolvedStaysIff(s: State, moves: seq<Move>)
    requires s.w.Valid()
    ensures ResolvedStays(s, moves) <==> NoRevival(s, moves)
    ensures NoRevival(s, moves) <==> AllRevived(s, moves) == []
  {
    if moves != [] {
      var before, last := moves[..|moves| - 1], moves[|moves| - 1];
      ResolvedStaysIff(s, before);
      LedgerValidForever(s, before);
      MoveHasEffect(Exec(s, before), last);
      WhatBreaksTheGauge(Exec(s, before), last);
      StepRevives(LedgerBefore(s, moves), LastEffect(s, moves));
    }
  }

  lemma StepRevives(l: Ledger, e: Effect)
    requires l.Valid()
    ensures (forall i :: Meets(l, i) && i in AfterEffect(l, e).rows ==> Meets(AfterEffect(l, e), i))
       <==> Revived(l, e) == []
  {
    if Revived(l, e) != [] {
      assert Meets(l, e.i) && !Meets(AfterEffect(l, e), e.i);
    }
  }

  // ---- Two overlapping requests ---------------------------------------------------

  /** One incident left the active set, with two steps of the gauge and two notices. */
  ghost predicate CountedTwice(l: Ledger, l': Ledger, i: IncidentId) {
    && l'.gauge == l.gauge - 2 && |l'.Active()| == |l.Active()| - 1
    && l'.resolveNotices == l.resolveNotices + [i, i]
  }

  lemma ReadsResolve(s: State, i: IncidentId)
    requires i in s.w.ledger.rows && s.w.ledger.rows[i].Active()
    ensures Next(s, RequestRead(ResolveIncident(i))) == s.(requests := s.requests + multiset{Resolving(i)})
  {
  }

  lemma WritesResolve(s: State, i: IncidentId)
    requires i in s.w.ledger.rows && Resolving(i) in s.requests
    ensures Next(s, RequestWrite(Resolving(i), 0))
         == s.(w := s.w.(ledger := s.w.ledger.Close(i)), requests := s.requests - multiset{Resolving(i)})
  {
    assert s.requests - multiset{Resolving(i)} + multiset{} == s.requests - multiset{Resolving(i)};
  }

  lemma ReadsAcknowledge(s: State, i: IncidentId)
    requires i in s.w.ledger.rows && s.w.ledger.rows[i].status.Open?
    ensures Next(s, RequestRead(AcknowledgeIncident(i))) == s.(requests := s.requests + multiset{Acknowledging(i)})
  {
  }

  lemma WritesAcknowledge(s: State, i: IncidentId)
    requires i in s.w.ledger.rows && Acknowledging(i) in s.requests
    ensures Next(s, RequestWrite(Acknowledging(i), 0)).w == s.w.(ledger := s.w.ledger.MarkAcknowledged(i))
  {
  }

  lemma ResolvesAtOnce(s: State, i: IncidentId)
    requires i in s.w.ledger.rows && s.w.ledger.rows[i].Active()
    ensures Next(s, Api(ResolveIncident(i))) == s.(w := s.w.(ledger := s.w.ledger.Close(i)))
  {
  }

  /** Any two overlapping manual resolves of an active incident count it twice. */
  lemma TwoResolvesCountTwice(s: State, i: IncidentId)
    requires i in s.w.ledger.rows && s.w.ledger.rows[i].Active()
    ensures var read, write := RequestRead(ResolveIncident(i)), RequestWrite(Resolving(i), 0);
            CountedTwice(s.w.ledger, Exec(s, [read, read, write, write]).w.ledger, i)
  {
    var read, write := RequestRead(ResolveIncident(i)), RequestWrite(Resolving(i), 0);
    FourMoves(s, read, read, write, write);
    ReadsResolve(s, i);
    ReadsResolve(Next(s, read), i);
    WritesResolve(Next(Next(s, read), read), i);
    WritesResolve(Next(Next(Next(s, read), read), write), i);
    ClosedTwice(s.w.ledger, i);
  }

  lemma ClosedTwice(l: Ledger, i: IncidentId)
    requires i in l.rows && l.rows[i].Active()
    ensures CountedTwice(l, l.Close(i).Close(i), i)
  {
    CloseActive(l, i);
    CloseAgainActive(l.Close(i), i);
    assert l.resolveNotices + [i] + [i] == l.resolveNotices + [i, i];
  }

  lemma ThreeMoves(s: State, a: Move, b: Move, c: Move)
    ensures Exec(s, [a, b, c]) == Next(Next(Next(s, a), b), c)
  {
    ExecSnoc(s, [], a);
    TwoMore(s, [a], b, c);
    assert [] + [a] == [a] && [a] + [b, c] == [a, b, c];
  }

  /** Any acknowledgement of an open incident that a resolve overtakes makes it active again:
      the gauge has gone down, the notice is out, and the incident is acknowledged. */
  lemma LateAcknowledgementRevives(s: State, i: IncidentId)
    requires i in s.w.ledger.rows && s.w.ledger.rows[i].status.Open?
    ensures var l, l' := s.w.ledger, Exec(s, LateAcknowledgement(i)).w.ledger;
            && l'.rows == l.rows[i := l.rows[i].(status := Acknowledged)] && l'.Active() == l.Active()
            && l'.gauge == l.gauge - 1 && l'.resolveNotices == l.resolveNotices + [i]
  {
    var read, resolve := RequestRead(AcknowledgeIncident(i)), Api(ResolveIncident(i));
    ThreeMoves(s, read, resolve, RequestWrite(Acknowledging(i), 0));
    ReadsAcknowledge(s, i);
    ResolvesAtOnce(Next(s, read), i);
    WritesAcknowledge(Next(Next(s, read), resolve), i);
    MarkedAfterClose(s.w.ledger, i);
  }

  lemma MarkedAfterClose(l: Ledger, i: IncidentId)
    requires i in l.rows && l.rows[i].status.Open?
    ensures var l' := l.Close(i).MarkAcknowledged(i);
            && l'.rows == l.rows[i := l.rows[i].(status := Acknowledged)] && l'.Active() == l.Active()
            && l'.gauge == l.gauge - 1 && l'.resolveNotices == l.resolveNotices + [i]
  {
  }

  function LateAcknowledgement(i: IncidentId): seq<Move> {
    [RequestRead(AcknowledgeIncident(i)), Api(ResolveIncident(i)), RequestWrite(Acknowledging(i), 0)]
  }

  // ---- Requests that overlap a check ----------------------------------------------

  /** From every start at which a probed monitor that is not up has an active incident: a
      recovering check, undisturbed up to its close, and an operator's resolve just before that
      count the incident twice. */
  lemma RepeatedCloseIsReached(s: State, id: MonitorId)
    requires Initial(s) && id in s.w.rows && s.w.rows[id].kind.Probed? && s.w.rows[id].Schedulable()
    requires s.w.rows[id].status != Up && s.w.ledger.ActiveOf(id) != {}
    ensures exists moves, i :: Undisturbed(moves)
              && CountedTwice(s.w.ledger, Exec(s, moves + [Api(ResolveIncident(i)), Advance(0, Up, 0)]).w.ledger, i)
  {
    var moves, i := RunToClosing(s, id);
    OverlappingResolveCountsTwice(Exec(s, moves), 0, id, i, Up, 0);
    TwoMore(s, moves, Api(ResolveIncident(i)), Advance(0, Up, 0));
  }

  /** The recovering check up to its close. */
  lemma RunToClosing(s: State, id: MonitorId) returns (moves: seq<Move>, i: IncidentId)
    requires Initial(s) && id in s.w.rows && s.w.rows[id].kind.Probed? && s.w.rows[id].Schedulable()
    requires s.w.rows[id].status != Up && s.w.ledger.ActiveOf(id) != {}
    ensures Undisturbed(moves)
    ensures var t := Exec(s, moves);
            && |t.workers| > 0 && t.workers[0].Busy? && t.workers[0].phase.Hooking?
            && t.workers[0].phase.hook == Closing(id, i)
            && t.w.ledger == s.w.ledger && i in s.w.ledger.rows && s.w.ledger.rows[i].Active()
  {
    var j := Job(id, s.w.rows[id]);
    moves := FirstDispatch(s, j);
    moves := RunToWrite(s, moves, j, Up, 0);
    i := s.w.ledger.Lookup(id).value;
    moves := DatabaseCall(s, moves, Up, 0);
  }

  /** The two calls of a hook that finds no active incident. */
  lemma HookOpens(s: State, id: MonitorId)
    requires |s.workers| > 0 && s.workers[0].Busy? && s.workers[0].phase.Hooking?
    requires s.workers[0].phase.hook == Finding(id, Degraded)
    requires s.w.ledger.Valid() && s.w.ledger.ActiveOf(id) == {} && id in s.w.rows
    ensures var call := Advance(0, Up, 0);
            var s' := Next(Next(s, call), call);
            s'.w == s.w.(ledger := s.w.ledger.Insert(id, "warning")) && s'.requests == s.requests
  {
    var s1 := Next(s, Advance(0, Up, 0));
    assert s1.w == s.w && s1.workers[0].phase.hook == Inserting(id, "warning");
  }

  /** What a late acknowledgement does to a monitor whose next incident is open by then. */
  lemma RevivedBesideNew(l: Ledger, id: MonitorId, i: IncidentId)
    requires l.Valid() && i in l.rows && l.ActiveOf(id) == {i}
    ensures l.Close(i).Valid() && l.Close(i).ActiveOf(id) == {} && i in l.Close(i).Insert(id, "warning").rows
    ensures |l.Close(i).Insert(id, "warning").MarkAcknowledged(i).ActiveOf(id)| == 2
  {
    assert i in l.ActiveOf(id);
    forall k | k in l.Close(i).ActiveOf(id) ensures k in l.ActiveOf(id) && k != i {
      assert l.Close(i).rows[k].Active();
    }
    assert l.Close(i).Insert(id, "warning").MarkAcknowledged(i).ActiveOf(id) == {i, l.next};
  }

  /** Why the one-incident theorem asks for no revival: with a token or without, from every
      start at which a probed monitor is down with one open incident, an acknowledgement that a
      resolve and the next check's hook overtake leaves it with two active ones. */
  lemma LateAcknowledgementTwoIncidents(s: State, id: MonitorId, i: IncidentId)
    requires Initial(s) && id in s.w.rows && s.w.rows[id].kind.Probed? && s.w.rows[id].enabled
    requires s.w.rows[id].status == Down
    requires i in s.w.ledger.rows && s.w.ledger.rows[i].status.Open? && s.w.ledger.ActiveOf(id) == {i}
    ensures exists moves :: |Exec(s, moves).w.ledger.ActiveOf(id)| == 2
  {
    var j := Job(id, s.w.rows[id]);
    var moves := FirstDispatch(s, j);
    moves := RunToWrite(s, moves, j, Degraded, 0);
    var late := LateMoves(i);
    LateMovesRevive(Exec(s, moves), id, i);
    ExecAppend(s, moves, late);
  }

  function LateMoves(i: IncidentId): seq<Move> {
    [RequestRead(AcknowledgeIncident(i)), Api(ResolveIncident(i)), Advance(0, Up, 0), Advance(0, Up, 0),
     RequestWrite(Acknowledging(i), 0)]
  }

  lemma LateMovesRevive(t: State, id: MonitorId, i: IncidentId)
    requires |t.workers| > 0 && t.workers[0].Busy? && t.workers[0].phase.Hooking?
    requires t.workers[0].phase.hook == Finding(id, Degraded)
    requires t.w.ledger.Valid() && id in t.w.rows
    requires i in t.w.ledger.rows && t.w.ledger.rows[i].status.Open? && t.w.ledger.ActiveOf(id) == {i}
    ensures |Exec(t, LateMoves(i)).w.ledger.ActiveOf(id)| == 2
  {
    var l := t.w.ledger;
    RevivedBesideNew(l, id, i);
    var t1 := Next(t, RequestRead(AcknowledgeIncident(i)));
    ReadsAcknowledge(t, i);
    ResolvesAtOnce(t1, i);
    var t2 := Next(t1, Api(ResolveIncident(i)));
    HookOpens(t2, id);
    var t4 := Next(Next(t2, Advance(0, Up, 0)), Advance(0, Up, 0));
    WritesAcknowledge(t4, i);
    FiveMoves(t, RequestRead(AcknowledgeIncident(i)), Api(ResolveIncident(i)), Advance(0, Up, 0), Advance(0, Up, 0),
              RequestWrite(Acknowledging(i), 0));
  }

  lemma FiveMoves(s: State, a: Move, b: Move, c: Move, d: Move, e: Move)
    ensures Exec(s, [a, b, c, d, e]) == Next(Next(Next(Next(Next(s, a), b), c), d), e)
  {
    FourMoves(s, a, b, c, d);
    ExecSnoc(s, [a, b, c, d], e);
    assert [a, b, c, d] + [e] == [a, b, c, d, e];
  }
}
