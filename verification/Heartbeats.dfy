/** What heartbeats write, and that nothing else moves a monitor's heartbeat time, in every
    interleaving and whatever row a check or a request carries. */
module Heartbeats {
  import opened Basics
  import opened Incidents
  import opened Lifecycle
  import opened LifecycleProofs
  import opened Requests
  import opened Interleaving

  // ---- What a heartbeat writes ----------------------------------------------------

  /** The atomic heartbeat: one result and one status, read off the text, and both times. */
  lemma HeartbeatWrites(w: World, id: MonitorId, pushed: string, at: int)
    requires w.Has(id)
    ensures var w' := AfterHeartbeat(w, id, pushed, at);
            if w.rows[id].hasToken && w.rows[id].enabled then
              && PushedMeans(pushed, w'.rows[id].status)
              && w'.results[id] == w.results[id] + [w'.rows[id].status]
              && w'.rows[id].lastCheckedAt == Some(at) && w'.rows[id].lastHeartbeatAt == Some(at)
            else w' == w
  {
  }

  /** The split heartbeat: each of its two writes carries the meaning of the text that was read,
      and so do the status its hook is called with and the row, whatever came in between. */
  lemma SplitHeartbeatWrites(w: World, id: MonitorId, pushed: string, at: int, w1: World, w2: World)
    requires Read(w, Heartbeat(id, pushed, at)).Some? && w1.Has(id) && id in w2.rows
    ensures var store := Read(w, Heartbeat(id, pushed, at)).value;
            var stored := Update(w1, store, at);
            && w.rows[id].hasToken && w.rows[id].enabled
            && |stored.w.results[id]| == |w1.results[id]| + 1 && w1.results[id] <= stored.w.results[id]
            && PushedMeans(pushed, stored.w.results[id][|w1.results[id]|])
            && stored.next.Some?
            && var recorded := Update(w2, stored.next.value, at);
               && PushedMeans(pushed, recorded.w.rows[id].status) && recorded.next.None?
               && recorded.w.rows[id].lastHeartbeatAt == Some(at) && recorded.w.rows[id].lastCheckedAt == Some(at)
               && (recorded.moved <==> recorded.w.rows[id].status != w.rows[id].status)
  {
  }

  /** A heartbeat protects for its grace period: a check within it stores and writes "up". */
  lemma HeartbeatProtects(w: World, id: MonitorId, pushed: string, beat: int, check: Action)
    requires w.Has(id) && w.rows[id].hasToken && w.rows[id].kind.Push? && check.Check? && check.id == id
    requires RunsCheck(Step(w, Heartbeat(id, pushed, beat)), id, check) && w.rows[id].enabled
    requires var grace := w.rows[id].kind.graceSeconds;
             check.at - beat <= (if grace > 0 then grace else 120) * 1_000_000_000
    ensures var w1 := Step(w, Heartbeat(id, pushed, beat));
            var w2 := Step(w1, check);
            w2.results[id] == w1.results[id] + [Up] && w2.rows[id].status == Up
            && w2.rows[id].lastHeartbeatAt == Some(beat)
  {
    HeartbeatWrites(w, id, pushed, beat);
    PushCheckStores(Step(w, Heartbeat(id, pushed, beat)), id, check);
  }

  // ---- The heartbeat time ---------------------------------------------------------

  /** A move that records a heartbeat of the monitor, and when. */
  function Records(s: State, mv: Move, id: MonitorId): Option<int> {
    match mv
    case Beat(i, _, at) =>
      if i == id && id in s.tokens && s.w.Has(id) && s.w.rows[id].hasToken && s.w.rows[id].enabled
      then Some(at) else None
    case RequestWrite(Recording(i, _, _), at) =>
      if i == id && mv.request in s.requests && id in s.w.rows then Some(at) else None
    case Api(Heartbeat(i, _, at)) =>
      if i == id && id in s.tokens && s.w.Has(id) && s.w.rows[id].hasToken && s.w.rows[id].enabled
      then Some(at) else None
    case _ => None
  }

  /** The time of the last heartbeat recorded since the monitor was created, or before the run. */
  function LastBeat(s: State, moves: seq<Move>, id: MonitorId): Option<int> {
    if moves == [] then (if id in s.w.rows then s.w.rows[id].lastHeartbeatAt else None)
    else
      var t, mv := Exec(s, moves[..|moves| - 1]), moves[|moves| - 1];
      if Records(t, mv, id).Some? then Records(t, mv, id)
      else if id !in t.w.rows then None
      else LastBeat(s, moves[..|moves| - 1], id)
  }

  lemma CheckKeepsBeats(w: World, job: Job, phase: Phase, probe: Verdict, at: int)
    ensures var w' := CheckStep(w, job, phase, probe, at).0;
            && w'.rows.Keys == w.rows.Keys
            && forall id :: id in w.rows ==> w'.rows[id].lastHeartbeatAt == w.rows[id].lastHeartbeatAt
  {
    if phase.Hooking? {
      assert HookStep(w, phase.hook).0.rows == w.rows;
    }
  }

  lemma RequestKeepsBeats(w: World, r: Request, at: int)
    ensures var w' := Update(w, r, at).w;
            && w'.rows.Keys == w.rows.Keys
            && forall id :: id in w.rows ==>
                 w'.rows[id].lastHeartbeatAt
                 == if r.Recording? && r.id == id then Some(at) else w.rows[id].lastHeartbeatAt
  {
  }

  lemma ActionKeepsBeats(w: World, a: Action, id: MonitorId)
    requires !a.Check? && id in Step(w, a).rows
    ensures Step(w, a).rows[id].lastHeartbeatAt
         == if id !in w.rows then None
            else if a.Heartbeat? && a.id == id && w.Has(id) && w.rows[id].hasToken && w.rows[id].enabled then Some(a.at)
            else w.rows[id].lastHeartbeatAt
  {
  }

  ghost predicate BeatsKept(s: State, mv: Move, w': World, id: MonitorId) {
    id in w'.rows ==>
      w'.rows[id].lastHeartbeatAt
      == if Records(s, mv, id).Some? then Records(s, mv, id)
         else if id in s.w.rows then s.w.rows[id].lastHeartbeatAt else None
  }

  lemma CallKeepsBeats(s: State, mv: Move, id: MonitorId)
    requires Enabled(s, mv) && (mv.Advance? || mv.BeatAdvance? || mv.RequestWrite?)
    ensures BeatsKept(s, mv, Apply(s, mv).w, id)
  {
    match mv {
      case Advance(i, probe, at) => CheckKeepsBeats(s.w, s.workers[i].job, s.workers[i].phase, probe, at);
      case RequestWrite(r, at) => RequestKeepsBeats(s.w, r, at);
      case BeatAdvance(h) => assert HookStep(s.w, h).0.rows == s.w.rows;
    }
  }

  lemma ApiKeepsBeats(s: State, a: Action, id: MonitorId)
    requires Enabled(s, Api(a))
    ensures BeatsKept(s, Api(a), Step(s.w, a), id)
  {
    if id in Step(s.w, a).rows {
      ActionKeepsBeats(s.w, a, id);
    }
  }

  lemma BeatMoveKeepsBeats(s: State, beat: MonitorId, pushed: string, at: int, id: MonitorId)
    requires Enabled(s, Beat(beat, pushed, at))
    ensures BeatsKept(s, Beat(beat, pushed, at), AfterHeartbeat(s.w, beat, pushed, at).(ledger := s.w.ledger), id)
  {
  }

  predicate LeavesWorld(mv: Move) {
    !mv.Advance? && !mv.BeatAdvance? && !mv.RequestWrite? && !mv.Api? && !mv.Beat?
  }

  lemma WorldLeft(s: State, mv: Move)
    requires LeavesWorld(mv)
    ensures Next(s, mv).w == s.w
  {
  }

  lemma MoveKeepsBeats(s: State, mv: Move, id: MonitorId)
    ensures BeatsKept(s, mv, Next(s, mv).w, id)
  {
    if LeavesWorld(mv) {
      WorldLeft(s, mv);
    } else if Enabled(s, mv) {
      match mv {
        case Beat(beat, pushed, at) => BeatMoveKeepsBeats(s, beat, pushed, at, id);
        case Api(a) => ApiKeepsBeats(s, a, id);
        case _ => CallKeepsBeats(s, mv, id);
      }
    }
  }

  /** In every interleaving, whatever rows checks and edits were started from, a stored monitor's
      heartbeat time is that of the last heartbeat recorded for it. */
  lemma {:induction false} HeartbeatTimeIsLastBeat(s: State, moves: seq<Move>, id: MonitorId)
    requires id in Exec(s, moves).w.rows
    ensures Exec(s, moves).w.rows[id].lastHeartbeatAt == LastBeat(s, moves, id)
  {
    if moves != [] {
      var before, last := moves[..|moves| - 1], moves[|moves| - 1];
      MoveKeepsBeats(Exec(s, before), last, id);
      if id in Exec(s, before).w.rows {
        HeartbeatTimeIsLastBeat(s, before, id);
      }
    }
  }
}
