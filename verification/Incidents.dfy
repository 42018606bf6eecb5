/** The incident service: incident rows, the open-incidents gauge and the two
    notification streams, with every operation atomic. */
module Incidents {
  import opened Basics

  type MonitorId = nat
  type IncidentId = nat

  datatype IncidentStatus = Open | Acknowledged | Resolved

  datatype Incident = Incident(monitor: MonitorId, severity: string, status: IncidentStatus) {
    predicate Active() {
      status.Open? || status.Acknowledged?
    }
  }

  predicate ValidSeverity(severity: string) {
    severity == "critical" || severity == "warning" || severity == "info"
  }

  datatype OpenOutcome = InvalidSeverity | Existing(id: IncidentId) | Created(id: IncidentId)
  datatype AcknowledgeOutcome = AckNotFound | AckAlreadyResolved | AckUnchanged | AckDone
  datatype ResolveOutcome = ResolveNotFound | ResolveUnchanged | ResolveDone

  /** The incident table in creation order (a larger id started later), the gauge, and
      the ids for which an opened or a resolved notification was sent, oldest first. */
  datatype Ledger = Ledger(rows: map<IncidentId, Incident>, next: IncidentId, gauge: int,
                           openNotices: seq<IncidentId>, resolveNotices: seq<IncidentId>) {

    predicate Valid() {
      forall i :: i in rows ==> i < next
    }

    function Active(): set<IncidentId> {
      set i | i in rows && rows[i].Active()
    }

    function ActiveOf(m: MonitorId): set<IncidentId> {
      set i | i in rows && rows[i].monitor == m && rows[i].Active()
    }

    /** The most recently started active incident of `m` among the ids below `bound`. */
    function LatestActive(m: MonitorId, bound: nat): (r: Option<IncidentId>)
      ensures r.Some? ==> r.value in ActiveOf(m) && r.value < bound
      ensures r.Some? ==> forall i :: i in ActiveOf(m) && i < bound ==> i <= r.value
      ensures r.None? ==> forall i :: i in ActiveOf(m) ==> bound <= i
    {
      if bound == 0 then None
      else if bound - 1 in ActiveOf(m) then Some(bound - 1)
      else LatestActive(m, bound - 1)
    }

    /** The open-incident lookup of the database layer. */
    function Lookup(m: MonitorId): (r: Option<IncidentId>)
      ensures Valid() && r.None? ==> ActiveOf(m) == {}
      ensures r.Some? ==> r.value in ActiveOf(m)
      ensures Valid() && r.Some? ==> forall i :: i in ActiveOf(m) ==> i <= r.value
    {
      LatestActive(m, next)
    }

    /** Row insertion together with the gauge and the opened notification. */
    function Insert(m: MonitorId, severity: string): Ledger {
      Ledger(rows[next := Incident(m, severity, Open)], next + 1, gauge + 1, openNotices + [next], resolveNotices)
    }

    /** Row update to resolved together with the gauge and the resolved notification. */
    function Close(i: IncidentId): Ledger
      requires i in rows
    {
      Ledger(rows[i := rows[i].(status := Resolved)], next, gauge - 1, openNotices, resolveNotices + [i])
    }

    function AfterOpen(m: MonitorId, severity: string): Ledger {
      if ValidSeverity(severity) && Lookup(m).None? then Insert(m, severity) else this
    }

    function AfterRecovery(m: MonitorId): Ledger {
      match Lookup(m) case Some(i) => Close(i) case None => this
    }

    /** Row update to acknowledged, whatever the status was. */
    function MarkAcknowledged(i: IncidentId): Ledger
      requires i in rows
    {
      this.(rows := rows[i := rows[i].(status := Acknowledged)])
    }

    function AfterAcknowledge(i: IncidentId): Ledger {
      if i in rows && rows[i].status.Open? then MarkAcknowledged(i) else this
    }

    function AfterResolve(i: IncidentId): Ledger {
      if i in rows && rows[i].Active() then Close(i) else this
    }

    /** Deleting a monitor cascades to its incident rows and touches nothing else. */
    function AfterMonitorDeleted(m: MonitorId): Ledger {
      this.(rows := map i | i in rows && rows[i].monitor != m :: rows[i])
    }
  }

  /** The service object; each method does the lookup, the write, the gauge update and
      the notification that the corresponding service call does. */
  class IncidentService {
    var rows: map<IncidentId, Incident>
    var next: IncidentId
    var gauge: int
    var openNotices: seq<IncidentId>
    var resolveNotices: seq<IncidentId>

    function View(): Ledger
      reads this
    {
      Ledger(rows, next, gauge, openNotices, resolveNotices)
    }

    method OpenForMonitor(m: MonitorId, severity: string) returns (outcome: OpenOutcome)
      modifies this
      ensures View() == old(View()).AfterOpen(m, severity)
      ensures outcome.InvalidSeverity? <==> severity !in {"critical", "warning", "info"}
      ensures outcome.Existing? ==> outcome.id in old(rows) && old(rows)[outcome.id].monitor == m
                                    && !old(rows)[outcome.id].status.Resolved? && View() == old(View())
      ensures outcome.Created? ==>
                outcome.id == old(next) && rows == old(rows)[old(next) := Incident(m, severity, Open)]
    {
      if severity != "critical" && severity != "warning" && severity != "info" {
        return InvalidSeverity;
      }
      var existing := View().Lookup(m);
      if existing.Some? {
        return Existing(existing.value);
      }
      var id := next;
      rows, next := rows[id := Incident(m, severity, Open)], next + 1;
      gauge := gauge + 1;
      openNotices := openNotices + [id];
      return Created(id);
    }

    method ResolveForMonitor(m: MonitorId) returns (closed: Option<IncidentId>)
      modifies this
      ensures View() == old(View()).AfterRecovery(m)
      ensures closed == old(View()).Lookup(m)
    {
      closed := View().Lookup(m);
      if closed.None? {
        return;
      }
      rows := rows[closed.value := rows[closed.value].(status := Resolved)];
      gauge := gauge - 1;
      resolveNotices := resolveNotices + [closed.value];
    }

    method Acknowledge(id: IncidentId) returns (outcome: AcknowledgeOutcome)
      modifies this
      ensures View() == old(View()).AfterAcknowledge(id)
      ensures outcome.AckNotFound? <==> id !in old(rows)
      ensures outcome.AckAlreadyResolved? <==> id in old(rows) && old(rows)[id].status.Resolved?
      ensures outcome.AckDone? <==> id in old(rows) && old(rows)[id].status.Open?
      ensures rows == if outcome.AckDone? then old(rows)[id := old(rows)[id].(status := Acknowledged)] else old(rows)
    {
      if id !in rows {
        return AckNotFound;
      }
      match rows[id].status {
        case Resolved => return AckAlreadyResolved;
        case Acknowledged => return AckUnchanged;
        case Open =>
          rows := rows[id := rows[id].(status := Acknowledged)];
          return AckDone;
      }
    }

    method Resolve(id: IncidentId) returns (outcome: ResolveOutcome)
      modifies this
      ensures View() == old(View()).AfterResolve(id)
      ensures outcome.ResolveNotFound? <==> id !in old(rows)
      ensures outcome.ResolveUnchanged? <==> id in old(rows) && old(rows)[id].status.Resolved?
      ensures rows == if outcome.ResolveDone? then old(rows)[id := old(rows)[id].(status := Resolved)] else old(rows)
    {
      if id !in rows {
        return ResolveNotFound;
      }
      if rows[id].status.Resolved? {
        return ResolveUnchanged;
      }
      rows := rows[id := rows[id].(status := Resolved)];
      gauge := gauge - 1;
      resolveNotices := resolveNotices + [id];
      return ResolveDone;
    }
  }

  // ---- Runs of service calls ------------------------------------------------------

  datatype Call =
    | OpenCall(m: MonitorId, severity: string)
    | RecoveryCall(m: MonitorId)
    | AcknowledgeCall(id: IncidentId)
    | ResolveCall(id: IncidentId)
    | MonitorDeletion(m: MonitorId)

  function After(l: Ledger, c: Call): Ledger {
    match c
    case OpenCall(m, severity) => l.AfterOpen(m, severity)
    case RecoveryCall(m) => l.AfterRecovery(m)
    case AcknowledgeCall(i) => l.AfterAcknowledge(i)
    case ResolveCall(i) => l.AfterResolve(i)
    case MonitorDeletion(m) => l.AfterMonitorDeleted(m)
  }

  function AfterAll(l: Ledger, calls: seq<Call>): Ledger {
    if calls == [] then l else After(AfterAll(l, calls[..|calls| - 1]), calls[|calls| - 1])
  }

  /** Active incidents that disappeared because their monitor was deleted. */
  function Cascaded(l: Ledger, calls: seq<Call>): nat {
    if calls == [] then 0
    else
      var before, last := calls[..|calls| - 1], calls[|calls| - 1];
      Cascaded(l, before)
      + if last.MonitorDeletion? then |AfterAll(l, before).ActiveOf(last.m)| else 0
  }

  lemma InsertActive(l: Ledger, m: MonitorId, severity: string)
    requires l.Valid()
    ensures l.Insert(m, severity).Active() == l.Active() + {l.next}
    ensures |l.Insert(m, severity).Active()| == |l.Active()| + 1
  {
  }

  lemma CloseActive(l: Ledger, i: IncidentId)
    requires i in l.Active()
    ensures l.Close(i).Active() == l.Active() - {i}
    ensures |l.Close(i).Active()| == |l.Active()| - 1
  {
  }

  lemma CascadeActive(l: Ledger, m: MonitorId)
    ensures |l.AfterMonitorDeleted(m).Active()| == |l.Active()| - |l.ActiveOf(m)|
  {
    assert l.Active() == l.AfterMonitorDeleted(m).Active() + l.ActiveOf(m);
    assert l.AfterMonitorDeleted(m).Active() !! l.ActiveOf(m);
  }

  lemma AcknowledgeActive(l: Ledger, i: IncidentId)
    ensures l.AfterAcknowledge(i).Active() == l.Active()
  {
  }

  lemma OpenConserves(l: Ledger, m: MonitorId, severity: string)
    requires l.Valid()
    ensures l.AfterOpen(m, severity).gauge - l.gauge == |l.AfterOpen(m, severity).Active()| - |l.Active()|
  {
    InsertActive(l, m, severity);
  }

  lemma RecoveryConserves(l: Ledger, m: MonitorId)
    ensures l.AfterRecovery(m).gauge - l.gauge == |l.AfterRecovery(m).Active()| - |l.Active()|
  {
    if l.Lookup(m).Some? {
      CloseActive(l, l.Lookup(m).value);
    }
  }

  lemma ResolveConserves(l: Ledger, i: IncidentId)
    ensures l.AfterResolve(i).gauge - l.gauge == |l.AfterResolve(i).Active()| - |l.Active()|
  {
    if i in l.rows && l.rows[i].Active() {
      CloseActive(l, i);
    }
  }

  /** What one call does to the gauge it does to the number of active incidents, except
      that a cascade removes active incidents behind the gauge's back. */
  lemma CallConserves(l: Ledger, c: Call)
    requires l.Valid()
    ensures After(l, c).gauge - l.gauge
         == |After(l, c).Active()| - |l.Active()| + (if c.MonitorDeletion? then |l.ActiveOf(c.m)| else 0)
  {
    match c
    case OpenCall(m, severity) => OpenConserves(l, m, severity);
    case RecoveryCall(m) => RecoveryConserves(l, m);
    case AcknowledgeCall(i) => AcknowledgeActive(l, i);
    case ResolveCall(i) => ResolveConserves(l, i);
    case MonitorDeletion(m) => CascadeActive(l, m);
  }

  /** Conservation: over any run the gauge moves exactly with the number of active
      incidents, up to the active incidents lost to cascades. So the gauge is off after a
      run if and only if some deleted monitor still had an active incident. */
  lemma {:induction false} GaugeConservation(l: Ledger, calls: seq<Call>)
    requires l.Valid()
    ensures AfterAll(l, calls).Valid()
    ensures AfterAll(l, calls).gauge - l.gauge
         == |AfterAll(l, calls).Active()| - |l.Active()| + Cascaded(l, calls)
  {
    if calls != [] {
      var before, last := calls[..|calls| - 1], calls[|calls| - 1];
      GaugeConservation(l, before);
      CallConserves(AfterAll(l, before), last);
    }
  }

  /** For instance opening an incident and deleting its monitor leaves the gauge at one. */
  lemma DeletionLeavesGauge(m: MonitorId)
    ensures var empty := Ledger(map[], 0, 0, [], []);
            var l := AfterAll(empty, [OpenCall(m, "critical"), MonitorDeletion(m)]);
            l.gauge == 1 && l.Active() == {}
  {
    var empty := Ledger(map[], 0, 0, [], []);
    var open, delete := OpenCall(m, "critical"), MonitorDeletion(m);
    assert [open, delete][..1] == [open] && [open][..0] == [];
    assert AfterAll(empty, [open]) == After(empty, open) == empty.Insert(m, "critical");
    assert AfterAll(empty, [open, delete]) == empty.Insert(m, "critical").AfterMonitorDeleted(m);
  }

  lemma {:induction false} GaugeExactWithoutDeletion(l: Ledger, calls: seq<Call>)
    requires l.Valid()
    requires forall c :: c in calls ==> !c.MonitorDeletion?
    ensures AfterAll(l, calls).gauge - l.gauge == |AfterAll(l, calls).Active()| - |l.Active()|
  {
    GaugeConservation(l, calls);
    NothingCascades(l, calls);
  }

  lemma {:induction false} NothingCascades(l: Ledger, calls: seq<Call>)
    requires forall c :: c in calls ==> !c.MonitorDeletion?
    ensures Cascaded(l, calls) == 0
  {
    if calls != [] {
      assert calls[|calls| - 1] in calls;
      NothingCascades(l, calls[..|calls| - 1]);
    }
  }

  /** The ids whose resolved notification was sent during a run that took l to l'. */
  function ResolvedSince(l: Ledger, l': Ledger): seq<IncidentId>
    requires l.resolveNotices <= l'.resolveNotices
  {
    l'.resolveNotices[|l.resolveNotices|..]
  }

  ghost predicate NotificationsMatch(l: Ledger, l': Ledger) {
    && l'.Valid() && l.next <= l'.next
    && l'.openNotices == l.openNotices + Range(l.next, l'.next)
    && l.resolveNotices <= l'.resolveNotices
    && Distinct(ResolvedSince(l, l'))
    && (forall i :: i in ResolvedSince(l, l') ==> i < l'.next && (i in l.rows ==> l.rows[i].Active()))
    && (forall i :: i in l'.rows ==>
          (i in ResolvedSince(l, l') <==> !l'.rows[i].Active() && (i in l.rows ==> l.rows[i].Active())))
    && (forall i :: i in l'.rows && i < l.next ==> i in l.rows)
    && (forall i :: i in l'.rows && i in l.rows && !l.rows[i].Active() ==> !l'.rows[i].Active())
  }

  /** Over any run every incident gets exactly one opened notification, in creation order,
      and a resolved notification exactly when it leaves the active set, at most once. */
  lemma {:induction false} NotificationsExactlyOnce(l: Ledger, calls: seq<Call>)
    requires l.Valid()
    ensures NotificationsMatch(l, AfterAll(l, calls))
  {
    if calls == [] {
      assert l.openNotices == l.openNotices + Range(l.next, l.next);
    } else {
      var before, last := calls[..|calls| - 1], calls[|calls| - 1];
      NotificationsExactlyOnce(l, before);
      NotificationStep(l, AfterAll(l, before), last);
    }
  }

  /** Each call inserts a row, closes an active one, or sends no notice and keeps what is
      active among the rows it keeps. */
  ghost predicate Quiet(l: Ledger, l': Ledger) {
    && l'.next == l.next && l'.openNotices == l.openNotices && l'.resolveNotices == l.resolveNotices
    && forall i :: i in l'.rows ==> i in l.rows && (l'.rows[i].Active() <==> l.rows[i].Active())
  }

  lemma NotificationStep(l: Ledger, l1: Ledger, c: Call)
    requires l.Valid() && NotificationsMatch(l, l1)
    ensures NotificationsMatch(l, After(l1, c))
  {
    if c.OpenCall? && After(l1, c) != l1 {
      NotificationOnInsert(l, l1, c.m, c.severity);
    } else if c.RecoveryCall? && l1.Lookup(c.m).Some? {
      NotificationOnClose(l, l1, l1.Lookup(c.m).value);
    } else if c.ResolveCall? && c.id in l1.rows && l1.rows[c.id].Active() {
      NotificationOnClose(l, l1, c.id);
    } else {
      NotificationOnQuiet(l, l1, After(l1, c));
    }
  }

  lemma NotificationOnInsert(l: Ledger, l1: Ledger, m: MonitorId, severity: string)
    requires l.Valid() && NotificationsMatch(l, l1)
    ensures NotificationsMatch(l, l1.Insert(m, severity))
  {
  }

  lemma NotificationOnClose(l: Ledger, l1: Ledger, i: IncidentId)
    requires l.Valid() && NotificationsMatch(l, l1) && i in l1.rows && l1.rows[i].Active()
    ensures NotificationsMatch(l, l1.Close(i))
  {
    var l2 := l1.Close(i);
    assert ResolvedSince(l, l2) == ResolvedSince(l, l1) + [i];
    assert i !in ResolvedSince(l, l1);
  }

  lemma NotificationOnQuiet(l: Ledger, l1: Ledger, l2: Ledger)
    requires l.Valid() && NotificationsMatch(l, l1) && Quiet(l1, l2)
    ensures NotificationsMatch(l, l2)
  {
  }

  predicate Advanced(x: Incident, x': Incident) {
    && x'.severity == x.severity && x'.monitor == x.monitor
    && (x.status.Resolved? ==> x'.status.Resolved?)
    && (x'.status.Open? ==> x.status.Open?)
  }

  /** A resolved incident never becomes active again, an acknowledged one never reopens,
      and neither the severity nor the monitor of an incident ever changes. */
  lemma {:induction false} IncidentsOnlyAdvance(l: Ledger, calls: seq<Call>, i: IncidentId)
    requires l.Valid() && i in l.rows && i in AfterAll(l, calls).rows
    ensures Advanced(l.rows[i], AfterAll(l, calls).rows[i])
  {
    if calls != [] {
      var before, last := calls[..|calls| - 1], calls[|calls| - 1];
      NotificationsExactlyOnce(l, before);
      AdvanceStep(AfterAll(l, before), last, i, l.next);
      IncidentsOnlyAdvance(l, before, i);
    }
  }

  lemma AdvanceStep(l: Ledger, c: Call, i: IncidentId, bound: nat)
    requires l.Valid() && i < bound <= l.next && i in After(l, c).rows
    ensures i in l.rows && Advanced(l.rows[i], After(l, c).rows[i])
  {
  }

  /** The state diagram of one stored incident under one call: an acknowledgement of an open one,
      a resolution of one that is not resolved, the recovery of its monitor if no later one of
      that monitor is still to be resolved, the deletion of its monitor, and nothing else. */
  ghost predicate Moves(l: Ledger, c: Call, i: IncidentId, status': IncidentStatus)
    requires i in l.rows
  {
    var status := l.rows[i].status;
    status' == match c
               case AcknowledgeCall(k) => if k == i && status == Open then Acknowledged else status
               case ResolveCall(k) => if k == i then Resolved else status
               case RecoveryCall(m) =>
                 if m == l.rows[i].monitor
                    && forall k :: k in l.rows && k > i && l.rows[k].monitor == m ==> l.rows[k].status == Resolved
                 then Resolved else status
               case _ => status
  }

  /** What one call does to every row: stored incidents follow the diagram and keep monitor and
      severity, only the deletion of their monitor removes them, and the one new row a call can
      make is an open incident of the given monitor and severity, with nothing else of that
      monitor unresolved. */
  lemma CallFollowsDiagram(l: Ledger, c: Call, i: IncidentId)
    requires l.Valid()
    ensures var l' := After(l, c);
            && (i in l.rows ==>
                  if c == MonitorDeletion(l.rows[i].monitor) then i !in l'.rows
                  else i in l'.rows && Moves(l, c, i, l'.rows[i].status)
                       && l'.rows[i] == l.rows[i].(status := l'.rows[i].status))
            && (i !in l.rows ==>
                  (i in l'.rows <==>
                     && i == l.next && c.OpenCall? && c.severity in {"critical", "warning", "info"}
                     && forall k :: k in l.rows && l.rows[k].monitor == c.m ==> l.rows[k].status == Resolved))
            && (i !in l.rows && i in l'.rows ==> l'.rows[i] == Incident(c.m, c.severity, Open))
  {
    if c.OpenCall? || c.RecoveryCall? {
      LookupMeans(l, c.m);
    }
  }

  /** The look-up in terms of statuses. */
  lemma LookupMeans(l: Ledger, m: MonitorId)
    requires l.Valid()
    ensures l.Lookup(m).None? <==> forall k :: k in l.rows && l.rows[k].monitor == m ==> l.rows[k].status == Resolved
    ensures l.Lookup(m).Some? ==>
              var i := l.Lookup(m).value;
              && i in l.rows && l.rows[i].monitor == m && l.rows[i].status != Resolved
              && forall k :: k in l.rows && k > i && l.rows[k].monitor == m ==> l.rows[k].status == Resolved
  {
    assert forall k :: k in l.rows && l.rows[k].monitor == m && l.rows[k].status != Resolved ==> k in l.ActiveOf(m);
  }

  ghost predicate AtMostOneActive(l: Ledger) {
    forall m :: |l.ActiveOf(m)| <= 1
  }

  /** With every call atomic, no run gives a monitor a second active incident. */
  lemma {:induction false} NeverTwoActive(l: Ledger, calls: seq<Call>)
    requires l.Valid() && AtMostOneActive(l)
    ensures AtMostOneActive(AfterAll(l, calls))
  {
    if calls != [] {
      var before, last := calls[..|calls| - 1], calls[|calls| - 1];
      GaugeConservation(l, before);
      NeverTwoActive(l, before);
      var l1, l2 := AfterAll(l, before), AfterAll(l, calls);
      forall m ensures |l2.ActiveOf(m)| <= 1 {
        ActiveOfAfter(l1, last, m);
        if !(l2.ActiveOf(m) <= l1.ActiveOf(m)) {
          assert l2.ActiveOf(m) == {l1.next};
        } else {
          SubsetSize(l2.ActiveOf(m), l1.ActiveOf(m));
        }
      }
    }
  }

  /** The effect of one call on the active incidents of one monitor. */
  lemma ActiveOfAfter(l: Ledger, c: Call, m: MonitorId)
    requires l.Valid()
    ensures After(l, c).ActiveOf(m) <= l.ActiveOf(m)
         || (c.OpenCall? && c.m == m && l.ActiveOf(m) == {} && After(l, c).ActiveOf(m) == {l.next})
  {
  }
}
