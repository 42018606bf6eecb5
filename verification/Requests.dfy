/** The database calls of API requests that read a row and write it back later. Every update
    goes by id alone: it overwrites what others have written since the read. */
module Requests {
  import opened Basics
  import opened Incidents
  import opened Lifecycle

  /** What a request in flight has still to write, with what it read. */
  datatype Request =
    | Acknowledging(incident: IncidentId)
    | Resolving(incident: IncidentId)
    | Editing(id: MonitorId, m: Row, edit: Action)
    | Testing(id: MonitorId, m: Row, probe: Verdict)
    | Stamping(id: MonitorId, m: Row)
    | Beating(id: MonitorId, seen: Status, status: Verdict)
    | Recording(id: MonitorId, seen: Status, status: Verdict)

  predicate IsEdit(a: Action) {
    a.Edit? || a.Pause? || a.Resume? || a.RotateToken?
  }

  function EditedBy(m: Row, a: Action): Row
    requires IsEdit(a)
  {
    match a
    case Edit(_, c) => Edited(m, c)
    case Pause(_) => m.(status := Paused, enabled := false)
    case Resume(_) => m.(status := Unknown, enabled := true)
    case RotateToken(_) => m.(hasToken := true)
  }

  /** The reading call; None if the request ends there. */
  function Read(w: World, a: Action): Option<Request> {
    match a
    case AcknowledgeIncident(i) =>
      if i in w.ledger.rows && w.ledger.rows[i].status.Open? then Some(Acknowledging(i)) else None
    case ResolveIncident(i) =>
      if i in w.ledger.rows && w.ledger.rows[i].Active() then Some(Resolving(i)) else None
    case Edit(id, c) =>
      if id in w.rows && c.kind != Some(Unsupported) then Some(Editing(id, w.rows[id], a)) else None
    case Pause(id) => if id in w.rows then Some(Editing(id, w.rows[id], a)) else None
    case Resume(id) => if id in w.rows then Some(Editing(id, w.rows[id], a)) else None
    case RotateToken(id) => if id in w.rows && w.rows[id].kind.Push? then Some(Editing(id, w.rows[id], a)) else None
    case ManualTest(id, probe, _) =>
      if id in w.rows && w.rows[id].kind.Probed? then Some(Testing(id, w.rows[id], probe)) else None
    case Heartbeat(id, pushed, _) =>
      if id in w.rows && w.rows[id].hasToken && w.rows[id].enabled
      then Some(Beating(id, w.rows[id].status, PushedVerdict(pushed))) else None
    case _ => None
  }

  /** After one writing call: the database, what is still to write, and whether the incident
      hook is to run. */
  datatype Written = Written(w: World, next: Option<Request>, moved: bool)

  /** The row update of the API; like that of a check it leaves the heartbeat time alone. */
  function Overwrite(w: World, id: MonitorId, m: Row): World {
    if id in w.rows then w.(rows := w.rows[id := m.(lastHeartbeatAt := w.rows[id].lastHeartbeatAt)]) else w
  }

  function Store(w: World, id: MonitorId, verdict: Verdict): World {
    if w.Has(id) then w.(results := w.results[id := w.results[id] + [verdict]]) else w
  }

  function Update(w: World, r: Request, at: int): Written {
    match r
    case Acknowledging(i) =>
      Written(if i in w.ledger.rows then w.(ledger := w.ledger.MarkAcknowledged(i)) else w, None, false)
    case Resolving(i) =>
      Written(if i in w.ledger.rows then w.(ledger := w.ledger.Close(i)) else w, None, false)
    case Editing(id, m, edit) => Written(if IsEdit(edit) then Overwrite(w, id, EditedBy(m, edit)) else w, None, false)
    case Testing(id, m, probe) => Written(Store(w, id, probe), if w.Has(id) then Some(Stamping(id, m)) else None, false)
    case Stamping(id, m) => Written(Overwrite(w, id, m.(lastCheckedAt := Some(at))), None, false)
    case Beating(id, seen, status) => Written(Store(w, id, status), Some(Recording(id, seen, status)), false)
    case Recording(id, seen, status) =>
      if id !in w.rows then Written(w, None, false)
      else
        var m := w.rows[id].(status := status, lastCheckedAt := Some(at), lastHeartbeatAt := Some(at));
        Written(w.(rows := w.rows[id := m]), None, status != seen)
  }

  // ---- Atomic actions -------------------------------------------------------------

  /** With nothing in between, reading and writing make up the atomic action; and the second
      call of an acknowledgement or a resolution is made only if it changes something. */
  lemma EditIsReadThenWrite(w: World, a: Action, at: int)
    requires w.rows.Keys == w.results.Keys && (IsEdit(a) || a.AcknowledgeIncident? || a.ResolveIncident?)
    ensures match Read(w, a)
            case Some(r) => Update(w, r, at) == Written(Step(w, a), None, false)
            case None => Step(w, a) == w
    ensures a.AcknowledgeIncident? || a.ResolveIncident? ==> (Read(w, a).Some? <==> Step(w, a) != w)
  {
    if (a.AcknowledgeIncident? || a.ResolveIncident?) && Read(w, a).Some? {
      assert Step(w, a).ledger.rows[a.incident].status != w.ledger.rows[a.incident].status;
    }
  }

  lemma TestIsReadThenWrites(w: World, a: Action)
    requires w.rows.Keys == w.results.Keys && a.ManualTest?
    ensures match Read(w, a)
            case Some(r) =>
              var stored := Update(w, r, a.at);
              stored.next.Some? && Update(stored.w, stored.next.value, a.at) == Written(Step(w, a), None, false)
            case None => Step(w, a) == w
  {
  }

  /** A heartbeat does so up to its hook, which runs if and only if the status moved. */
  lemma BeatIsReadThenWrites(w: World, a: Action)
    requires w.rows.Keys == w.results.Keys && a.Heartbeat? && w.Has(a.id)
    ensures match Read(w, a)
            case Some(r) =>
              var stored := Update(w, r, a.at);
              stored.next.Some?
              && Update(stored.w, stored.next.value, a.at)
                 == Written(AfterHeartbeat(w, a.id, a.pushed, a.at).(ledger := w.ledger), None,
                            PushedVerdict(a.pushed) != w.rows[a.id].status)
            case None => AfterHeartbeat(w, a.id, a.pushed, a.at) == w
  {
  }
}
