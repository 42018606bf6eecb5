/** What creating, editing, pausing and resuming a monitor mean for it and for nobody else. */
module Handlers {
  import opened Basics
  import opened Incidents
  import opened Lifecycle

  /** A created monitor: three retries unless at least one is given, a token for push monitors,
      unknown if it is on and paused if not, and no history. */
  lemma CreatedMonitor(w: World, id: MonitorId, kind: Kind, retryCount: int, on: bool)
    requires id !in w.rows && !kind.Unsupported?
    ensures var w' := Step(w, Create(id, kind, retryCount, on));
            && w'.rows == w.rows[id := w'.rows[id]] && w'.results == w.results[id := []] && w'.ledger == w.ledger
            && w'.rows[id].kind == kind && (w'.rows[id].hasToken <==> kind.Push?) && w'.rows[id].enabled == on
            && w'.rows[id].retryCount == (if retryCount >= 1 then retryCount else 3)
            && w'.rows[id].status == (if on then Unknown else Paused)
            && w'.rows[id].lastCheckedAt == None && w'.rows[id].lastHeartbeatAt == None
  {
  }

  /** An edit changes the one row as it says and leaves results and incidents alone. */
  lemma EditedMonitor(w: World, id: MonitorId, c: Change)
    requires w.Has(id)
    ensures var w' := Step(w, Edit(id, c));
            && w' == w.(rows := w.rows[id := w'.rows[id]])
            && if c.kind == Some(Unsupported) then w' == w else EditMeans(w.rows[id], c, w'.rows[id])
  {
  }

  /** A rotated token: push monitors have one from then on, other monitors are refused. */
  lemma RotatedToken(w: World, id: MonitorId)
    requires w.Has(id)
    ensures var w' := Step(w, RotateToken(id));
            && w' == w.(rows := w.rows[id := w.rows[id].(hasToken := w'.rows[id].hasToken)])
            && (w'.rows[id].hasToken <==> w.rows[id].hasToken || w.rows[id].kind.Push?)
  {
    if !w.rows[id].kind.Push? {
      assert w.rows[id := w.rows[id]] == w.rows;
    }
  }

  /** Retention takes results off the old end. */
  lemma TrimmedHistory(w: World, id: MonitorId, keep: nat)
    requires w.Has(id)
    ensures var results, w' := w.results[id], Step(w, Trim(id, keep));
            && w' == w.(results := w.results[id := w'.results[id]])
            && |w'.results[id]| == (if keep < |results| then keep else |results|)
            && forall k :: 0 <= k < |w'.results[id]| ==> w'.results[id][k] == results[|results| - |w'.results[id]| + k]
  {
  }

  // ---- Paused monitors ------------------------------------------------------------

  /** Actions other than those that start the monitor again, test it by hand, or remove it or its
      history. */
  predicate LeavesPaused(a: Action, id: MonitorId) {
    match a
    case Resume(i) => i != id
    case Edit(i, c) => i != id || c.enabled != Some(true)
    case ManualTest(i, _, _) => i != id
    case Trim(i, _) => i != id
    case Delete(i) => i != id
    case _ => true
  }

  /** Since w the monitor is paused: nothing was stored for it, no heartbeat was recorded, and no
      incident was opened for it. */
  ghost predicate StaysQuiet(w: World, w': World, id: MonitorId)
    requires w.Has(id)
  {
    && w'.Has(id) && w'.rows[id].status == Paused && !w'.rows[id].enabled
    && w'.results[id] == w.results[id]
    && w'.rows[id].lastHeartbeatAt == w.rows[id].lastHeartbeatAt
    && w'.rows[id].lastCheckedAt == w.rows[id].lastCheckedAt
    && (forall i :: i in w'.ledger.rows && w'.ledger.rows[i].monitor == id ==> i in w.ledger.rows)
  }

  lemma QuietStep(w: World, w1: World, id: MonitorId, a: Action)
    requires w.Has(id) && StaysQuiet(w, w1, id) && LeavesPaused(a, id)
    ensures StaysQuiet(w, Step(w1, a), id)
  {
    if a.Check? || a.Heartbeat? {
      VerdictElsewhere(w1, a, id);
    } else {
      OthersOpenNothing(w1, a, id);
    }
  }

  lemma VerdictElsewhere(w: World, a: Action, id: MonitorId)
    requires w.Has(id) && w.rows[id].status == Paused && !w.rows[id].enabled && (a.Check? || a.Heartbeat?)
    ensures var w' := Step(w, a);
            && w'.Has(id) && w'.rows[id] == w.rows[id] && w'.results[id] == w.results[id]
            && forall i :: i in w'.ledger.rows && w'.ledger.rows[i].monitor == id ==> i in w.ledger.rows
  {
    if a.id == id {
      assert Step(w, a) == w;
    }
  }

  lemma OthersOpenNothing(w: World, a: Action, id: MonitorId)
    requires !a.Check? && !a.Heartbeat?
    ensures forall i :: i in Step(w, a).ledger.rows ==> i in w.ledger.rows
  {
  }

  /** From a pause until the monitor is turned on again nothing is stored or recorded for it and no
      incident opens for it, whatever checks, heartbeats and other actions come; and a resume then
      makes it unknown and enabled. */
  lemma {:induction false} PausedIsQuiet(w: World, id: MonitorId, acts: seq<Action>)
    requires w.Has(id)
    requires forall a :: a in acts ==> LeavesPaused(a, id)
    ensures var w' := RunAll(Step(w, Pause(id)), acts);
            && StaysQuiet(w, w', id)
            && Step(w', Resume(id))
               == w'.(rows := w'.rows[id := w'.rows[id].(status := Unknown, enabled := true)])
  {
    if acts != [] {
      assert acts[|acts| - 1] in acts;
      PausedIsQuiet(w, id, acts[..|acts| - 1]);
      QuietStep(w, RunAll(Step(w, Pause(id)), acts[..|acts| - 1]), id, acts[|acts| - 1]);
    }
  }
}
