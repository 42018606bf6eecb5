/** The life of a monitor with every operation atomic: scheduled checks with the retry
    window, pushed heartbeats, pause and resume, and the incidents they open and close. */
module Lifecycle {
  import opened Basics
  import opened Incidents

  datatype Status = Unknown | Up | Degraded | Down | Paused

  /** What a checker can report. */
  type Verdict = s: Status | s.Up? || s.Degraded? || s.Down? witness Up

  datatype Kind = Probed | Push(graceSeconds: int) | Unsupported

  datatype Row = Row(kind: Kind, hasToken: bool, retryCount: int, enabled: bool, status: Status,
                     lastCheckedAt: Option<int>, lastHeartbeatAt: Option<int>) {
    /** The part of the due query that does not depend on the clock. */
    predicate Schedulable() {
      enabled && !status.Paused?
    }
  }

  /** The database: monitor rows, their stored verdicts (newest last), the incidents. */
  datatype World = World(rows: map<MonitorId, Row>, results: map<MonitorId, seq<Verdict>>, ledger: Ledger) {
    predicate Valid() {
      && rows.Keys == results.Keys
      && ledger.Valid()
      && forall i :: i in ledger.rows ==> ledger.rows[i].monitor in rows
    }

    predicate Has(id: MonitorId) {
      id in rows && id in results
    }
  }

  const NANOSECONDS: int := 1_000_000_000
  const DEFAULT_GRACE_SECONDS: int := 120
  const DEFAULT_RETRIES: int := 3

  // ---- The pieces of a check ------------------------------------------------------

  function GraceNanoseconds(graceSeconds: int): int {
    (if graceSeconds <= 0 then DEFAULT_GRACE_SECONDS else graceSeconds) * NANOSECONDS
  }

  /** The overdue verdict of a push monitor at time `at` (nanoseconds). */
  function PushVerdict(m: Row, at: int): Verdict
    requires m.kind.Push?
  {
    match m.lastHeartbeatAt
    case None => Down
    case Some(beat) => if at - beat > GraceNanoseconds(m.kind.graceSeconds) then Down else Up
  }

  /** The verdict the runner stores; `probe` stands for what a network checker reports. */
  function RunVerdict(m: Row, probe: Verdict, at: int): Option<Verdict> {
    match m.kind
    case Probed => Some(probe)
    case Push(_) => Some(PushVerdict(m, at))
    case Unsupported => None
  }

  /** The result query: newest first, at most `limit` rows. */
  function Newest(results: seq<Verdict>, limit: int): seq<Verdict> {
    if results == [] || limit <= 0 then []
    else [results[|results| - 1]] + Newest(results[..|results| - 1], limit - 1)
  }

  function LeadingDowns(window: seq<Verdict>): nat {
    if window == [] || window[0] != Down then 0 else 1 + LeadingDowns(window[1..])
  }

  function TrailingDowns(results: seq<Verdict>): nat {
    if results == [] || results[|results| - 1] != Down then 0 else 1 + TrailingDowns(results[..|results| - 1])
  }

  /** The status a check writes, given the row it was started with and the stored results
      including its own. */
  function Decide(m: Row, verdict: Verdict, results: seq<Verdict>): Verdict {
    if verdict == Down && (m.status.Up? || m.status.Degraded? || m.status.Unknown?)
       && LeadingDowns(Newest(results, m.retryCount)) < m.retryCount
    then Degraded
    else verdict
  }

  /** The row update after a check: every column comes from the row the check was started
      with, except the heartbeat time, which the update does not mention. */
  function WriteBack(current: Row, m: Row, status: Verdict, writtenAt: int): Row {
    m.(status := status, lastCheckedAt := Some(writtenAt), lastHeartbeatAt := current.lastHeartbeatAt)
  }

  function SeverityFor(status: Verdict): string
    requires !status.Up?
  {
    if status.Down? then "critical" else "warning"
  }

  function AfterHook(l: Ledger, id: MonitorId, status: Verdict): Ledger {
    if status.Up? then l.AfterRecovery(id) else l.AfterOpen(id, SeverityFor(status))
  }

  /** A complete check started from the row `m`, which need not be the current row. */
  function AfterCheckFrom(w: World, id: MonitorId, m: Row, probe: Verdict, at: int, writtenAt: int): World
    requires w.Has(id)
  {
    match RunVerdict(m, probe, at)
    case None => w
    case Some(verdict) =>
      var results := w.results[id] + [verdict];
      var status := Decide(m, verdict, results);
      World(w.rows[id := WriteBack(w.rows[id], m, status, writtenAt)],
            w.results[id := results],
            if status != m.status then AfterHook(w.ledger, id, status) else w.ledger)
  }

  // ---- The other writers of a monitor row -----------------------------------------

  function PushedVerdict(pushed: string): Verdict {
    if pushed == "down" then Down else if pushed == "degraded" then Degraded else Up
  }

  function AfterHeartbeat(w: World, id: MonitorId, pushed: string, at: int): World
    requires w.Has(id)
  {
    var m := w.rows[id];
    if !m.hasToken || !m.enabled then w
    else
      var status := PushedVerdict(pushed);
      World(w.rows[id := m.(status := status, lastCheckedAt := Some(at), lastHeartbeatAt := Some(at))],
            w.results[id := w.results[id] + [status]],
            if status != m.status then AfterHook(w.ledger, id, status) else w.ledger)
  }

  datatype Change = Change(kind: Option<Kind>, retryCount: int, enabled: Option<bool>)

  function Edited(m: Row, c: Change): Row {
    if c.kind == Some(Unsupported) then m
    else
      var m1 := if c.kind.Some? then m.(kind := c.kind.value) else m;
      var m2 := if c.retryCount >= 1 then m1.(retryCount := c.retryCount) else m1;
      match c.enabled
      case None => m2
      case Some(false) => m2.(enabled := false, status := Paused)
      case Some(true) => m2.(enabled := true, status := if m2.status.Paused? then Unknown else m2.status)
  }

  /** An edit takes over the given type, the given retry count if it is at least one, and the
      given enabled flag; turning a monitor off pauses it, turning on a paused one makes its status
      unknown, and everything else stays. */
  predicate EditMeans(m: Row, c: Change, m': Row) {
    && m'.kind == (match c.kind case Some(kind) => kind case None => m.kind)
    && m'.retryCount == (if c.retryCount >= 1 then c.retryCount else m.retryCount)
    && m'.enabled == (match c.enabled case Some(on) => on case None => m.enabled)
    && m'.status == (if c.enabled == Some(false) then Paused
                     else if c.enabled == Some(true) && m.status == Paused then Unknown else m.status)
    && m'.hasToken == m.hasToken && m'.lastCheckedAt == m.lastCheckedAt && m'.lastHeartbeatAt == m.lastHeartbeatAt
  }

  function NewRow(kind: Kind, retryCount: int, enabled: bool): Row {
    Row(kind, kind.Push?, if retryCount < 1 then DEFAULT_RETRIES else retryCount, enabled,
        if enabled then Unknown else Paused, None, None)
  }

  // ---- Imperative form ------------------------------------------------------------

  /** The monitor and result tables. */
  class Tables {
    var monitors: map<MonitorId, Row>
    var results: map<MonitorId, seq<Verdict>>
  }

  function WorldOf(db: Tables, svc: IncidentService): World
    reads db, svc
  {
    World(db.monitors, db.results, svc.View())
  }

  /** What a heartbeat's text means: the two failing words, and anything else as "up". */
  predicate PushedMeans(pushed: string, status: Status) {
    && (status == Down <==> pushed == "down")
    && (status == Degraded <==> pushed == "degraded")
    && (status == Up <==> pushed != "down" && pushed != "degraded")
  }

  class IncidentHook {
    const svc: IncidentService

    constructor (svc: IncidentService)
      ensures this.svc == svc
    {
      this.svc := svc;
    }

    method OnScheduledStatusChange(id: MonitorId, newStatus: Verdict)
      modifies svc
      ensures svc.View() == AfterHook(old(svc.View()), id, newStatus)
      ensures forall i :: i in svc.rows && i !in old(svc.rows) ==>
                newStatus != Up
                && svc.rows[i] == Incident(id, if newStatus == Down then "critical" else "warning", Open)
    {
      match newStatus {
        case Down =>
          var _ := svc.OpenForMonitor(id, "critical");
        case Degraded =>
          var _ := svc.OpenForMonitor(id, "warning");
        case Up =>
          var _ := svc.ResolveForMonitor(id);
      }
    }
  }

  class Runner {
    const db: Tables

    constructor (db: Tables)
      ensures this.db == db
    {
      this.db := db;
    }

    /** Selects the checker and stores its verdict before returning it. */
    method Run(id: MonitorId, m: Row, probe: Verdict, at: int) returns (verdict: Option<Verdict>)
      requires id in db.results
      modifies db`results
      ensures verdict == RunVerdict(m, probe, at)
      ensures m.kind.Probed? ==> verdict == Some(probe)
      ensures m.kind.Unsupported? <==> verdict == None
      ensures db.results == if verdict.Some? then old(db.results)[id := old(db.results)[id] + [verdict.value]]
                            else old(db.results)
    {
      match m.kind {
        case Probed => verdict := Some(probe);
        case Push(_) => verdict := Some(PushVerdict(m, at));
        case Unsupported => return None;
      }
      db.results := db.results[id := db.results[id] + [verdict.value]];
    }
  }

  lemma {:induction false} CountedDowns(window: seq<Verdict>, n: nat)
    requires n <= |window|
    requires forall j :: 0 <= j < n ==> window[j] == Down
    requires n == |window| || window[n] != Down
    ensures LeadingDowns(window) == n
  {
    if n > 0 {
      CountedDowns(window[1..], n - 1);
    }
  }

  class CheckExecutor {
    const db: Tables
    const runner: Runner
    const hook: IncidentHook

    constructor (db: Tables, svc: IncidentService)
      ensures this.db == db && runner.db == db && hook.svc == svc
    {
      this.db := db;
      runner := new Runner(db);
      hook := new IncidentHook(svc);
    }

    method ExecuteCheck(id: MonitorId, m: Row, probe: Verdict, at: int, writtenAt: int)
      requires runner.db == db && WorldOf(db, hook.svc).Has(id)
      modifies db, hook.svc
      ensures WorldOf(db, hook.svc) == AfterCheckFrom(old(WorldOf(db, hook.svc)), id, m, probe, at, writtenAt)
      ensures db.monitors[id].lastHeartbeatAt == old(db.monitors[id].lastHeartbeatAt)
    {
      var result := runner.Run(id, m, probe, at);
      if result.None? {
        return;
      }
      var newStatus: Verdict := result.value;
      if newStatus == Down && (m.status == Up || m.status == Degraded || m.status == Unknown) {
        var window := Newest(db.results[id], m.retryCount);
        var failures := 0;
        while failures < |window|
          invariant 0 <= failures <= |window|
          invariant forall j :: 0 <= j < failures ==> window[j] == Down
        {
          if window[failures] != Down {
            break;
          }
          failures := failures + 1;
        }
        CountedDowns(window, failures);
        if failures < m.retryCount {
          newStatus := Degraded;
        }
      }
      db.monitors := db.monitors[id := WriteBack(db.monitors[id], m, newStatus, writtenAt)];
      if newStatus != m.status {
        hook.OnScheduledStatusChange(id, newStatus);
      }
    }
  }

  /** The API handlers that write monitor rows. */
  class MonitorHandler {
    const db: Tables
    const runner: Runner
    const hook: IncidentHook

    constructor (db: Tables, svc: IncidentService)
      ensures this.db == db && runner.db == db && hook.svc == svc
    {
      this.db := db;
      runner := new Runner(db);
      hook := new IncidentHook(svc);
    }

    method ReceivePushHeartbeat(id: MonitorId, pushed: string, at: int)
      requires WorldOf(db, hook.svc).Has(id)
      modifies db, hook.svc
      ensures WorldOf(db, hook.svc) == AfterHeartbeat(old(WorldOf(db, hook.svc)), id, pushed, at)
      ensures !old(db.monitors[id].hasToken) || !old(db.monitors[id].enabled) ==>
                db.monitors == old(db.monitors) && db.results == old(db.results)
      ensures old(db.monitors[id].hasToken) && old(db.monitors[id].enabled) ==>
                && PushedMeans(pushed, db.monitors[id].status)
                && db.monitors == old(db.monitors)[id := old(db.monitors[id]).(
                     status := db.monitors[id].status, lastCheckedAt := Some(at), lastHeartbeatAt := Some(at))]
                && db.results == old(db.results)[id := old(db.results[id]) + [db.monitors[id].status]]
    {
      var m := db.monitors[id];
      if !m.hasToken || !m.enabled {
        return;
      }
      var status := pushed;
      if status == "" || (status != "up" && status != "down" && status != "degraded") {
        status := "up";
      }
      var newStatus: Verdict := PushedVerdict(status);
      db.results := db.results[id := db.results[id] + [newStatus]];
      db.monitors := db.monitors[id := m.(status := newStatus, lastCheckedAt := Some(at), lastHeartbeatAt := Some(at))];
      if newStatus != m.status {
        hook.OnScheduledStatusChange(id, newStatus);
      }
    }

    method SetStatus(id: MonitorId, status: Status, enabled: bool)
      requires id in db.monitors
      modifies db`monitors
      ensures db.monitors == old(db.monitors)[id := old(db.monitors)[id].(status := status, enabled := enabled)]
    {
      var m := db.monitors[id];
      db.monitors := db.monitors[id := m.(enabled := enabled, status := status)];
    }

    method UpdateMonitor(id: MonitorId, c: Change)
      requires id in db.monitors
      modifies db`monitors
      ensures db.monitors == old(db.monitors)[id := Edited(old(db.monitors)[id], c)]
      ensures c.kind == Some(Unsupported) ==> db.monitors == old(db.monitors)
      ensures c.kind != Some(Unsupported) ==> EditMeans(old(db.monitors[id]), c, db.monitors[id])
    {
      var m := db.monitors[id];
      if c.kind.Some? {
        if c.kind.value.Unsupported? {
          return;
        }
        m := m.(kind := c.kind.value);
      }
      if c.retryCount >= 1 {
        m := m.(retryCount := c.retryCount);
      }
      if c.enabled.Some? {
        m := m.(enabled := c.enabled.value);
        if !m.enabled {
          m := m.(status := Paused);
        } else if m.status == Paused {
          m := m.(status := Unknown);
        }
      }
      db.monitors := db.monitors[id := m];
    }

    method TestMonitor(id: MonitorId, probe: Verdict, at: int) returns (tested: bool)
      requires runner.db == db && WorldOf(db, hook.svc).Has(id)
      modifies db
      ensures WorldOf(db, hook.svc) == AfterTest(old(WorldOf(db, hook.svc)), id, probe, at)
      ensures tested <==> old(db.monitors)[id].kind.Probed?
      ensures tested ==> db.monitors == old(db.monitors)[id := old(db.monitors[id]).(lastCheckedAt := Some(at))]
      ensures tested ==> db.results == old(db.results)[id := old(db.results[id]) + [probe]]
    {
      var m := db.monitors[id];
      if m.kind.Push? {
        return false;
      }
      var result := runner.Run(id, m, probe, at);
      if result.None? {
        return false;
      }
      db.monitors := db.monitors[id := m.(lastCheckedAt := Some(at))];
      return true;
    }
  }

  /** A manual test stores a result and moves the check time; push monitors refuse it. */
  function AfterTest(w: World, id: MonitorId, probe: Verdict, at: int): World
    requires w.Has(id)
  {
    if !w.rows[id].kind.Probed? then w
    else w.(results := w.results[id := w.results[id] + [probe]],
            rows := w.rows[id := w.rows[id].(lastCheckedAt := Some(at))])
  }

  // ---- Runs of atomic actions -----------------------------------------------------

  datatype Action =
    | Create(id: MonitorId, kind: Kind, retryCount: int, on: bool)
    | Check(id: MonitorId, probe: Verdict, at: int, writtenAt: int)
    | Heartbeat(id: MonitorId, pushed: string, at: int)
    | Pause(id: MonitorId)
    | Resume(id: MonitorId)
    | Edit(id: MonitorId, change: Change)
    | RotateToken(id: MonitorId)
    | ManualTest(id: MonitorId, probe: Verdict, at: int)
    | Trim(id: MonitorId, keep: nat)
    | Delete(id: MonitorId)
    | AcknowledgeIncident(incident: IncidentId)
    | ResolveIncident(incident: IncidentId)

  /** One action; an action on a missing monitor, a check of a monitor that is not
      schedulable and a creation under a used id do nothing. */
  function Step(w: World, a: Action): World {
    match a
    case AcknowledgeIncident(i) => w.(ledger := w.ledger.AfterAcknowledge(i))
    case ResolveIncident(i) => w.(ledger := w.ledger.AfterResolve(i))
    case Create(id, kind, retryCount, on) =>
      if id in w.rows || kind.Unsupported? then w
      else w.(rows := w.rows[id := NewRow(kind, retryCount, on)], results := w.results[id := []])
    case _ =>
      if !w.Has(a.id) then w else MonitorStep(w, a)
  }

  function MonitorStep(w: World, a: Action): World
    requires !a.AcknowledgeIncident? && !a.ResolveIncident? && !a.Create?
    requires w.Has(a.id)
  {
    var m := w.rows[a.id];
    match a
    case Check(id, probe, at, writtenAt) =>
      if m.Schedulable() then AfterCheckFrom(w, id, m, probe, at, writtenAt) else w
    case Heartbeat(id, pushed, at) => AfterHeartbeat(w, id, pushed, at)
    case Pause(id) => w.(rows := w.rows[id := m.(status := Paused, enabled := false)])
    case Resume(id) => w.(rows := w.rows[id := m.(status := Unknown, enabled := true)])
    case Edit(id, change) => w.(rows := w.rows[id := Edited(m, change)])
    case RotateToken(id) => if m.kind.Push? then w.(rows := w.rows[id := m.(hasToken := true)]) else w
    case ManualTest(id, probe, at) => AfterTest(w, id, probe, at)
    case Trim(id, keep) =>
      w.(results := w.results[id := w.results[id][(if keep <= |w.results[id]| then |w.results[id]| - keep else 0)..]])
    case Delete(id) => World(w.rows - {id}, w.results - {id}, w.ledger.AfterMonitorDeleted(id))
  }

  function RunAll(w: World, acts: seq<Action>): World {
    if acts == [] then w else Step(RunAll(w, acts[..|acts| - 1]), acts[|acts| - 1])
  }

  const EMPTY_WORLD: World := World(map[], map[], Ledger(map[], 0, 0, [], []))
}
