/** The scheduler loop, its workers and the API as an interleaved step system: every database
    call of a check, a hook or a request, every locked section and every channel operation has
    a move of its own. `Api` and `Beat` stand for the calls of a request that nothing gets in
    between of. */
module Interleaving {
  import opened Basics
  import opened Incidents
  import opened Lifecycle
  import opened Requests

  /** A queued check carries the monitor row as it was fetched. */
  datatype Job = Job(id: MonitorId, m: Row)

  /** Where the loop goroutine is: in its select, ranging over fetched rows, between
      marking an id and sending it, between a failed send and the unmark, or returned. */
  datatype Loop =
    | Selecting
    | Ranging(rest: seq<Job>)
    | Marked(job: Job, rest: seq<Job>)
    | Dropping(job: Job, rest: seq<Job>)
    | Closed

  /** An incident hook in flight: before its lookup, before its insert, before its close. */
  datatype Hook =
    | Finding(id: MonitorId, status: Verdict)
    | Inserting(id: MonitorId, severity: string)
    | Closing(id: MonitorId, incident: IncidentId)

  /** Where a running check is; probe and at are the arguments its verdict came from. */
  datatype Phase =
    | Begin
    | Ran(probe: Verdict, at: int, verdict: Verdict)
    | Decided(probe: Verdict, at: int, status: Verdict)
    | Hooking(probe: Verdict, at: int, writtenAt: int, hook: Hook)

  /** Idle workers wait on the channel; k numbers accepted jobs in order. */
  datatype Worker =
    | Idle
    | Busy(k: nat, job: Job, phase: Phase)
    | Returned(k: nat, job: Job)
    | Exited

  /** `tokens` are the monitors that ever hold a push token; `requests` are API requests that
      have read and not yet written, `beats` the hooks of heartbeats in flight; `accepted` and
      `finished` record the queued jobs and the numbers of the jobs whose check returned. */
  datatype State = State(w: World, tokens: set<MonitorId>, requests: multiset<Request>, beats: multiset<Hook>,
                         inProgress: set<MonitorId>, queue: seq<Job>, loop: Loop,
                         workers: seq<Worker>, stopping: bool,
                         accepted: seq<Job>, finished: seq<nat>) {
    function Capacity(): nat { 2 * |workers| }

    /** The number of jobs taken off the channel so far. */
    function Received(): int { |accepted| - |queue| }

    /** Stop has returned: the loop and all workers are done. */
    predicate Stopped() {
      loop.Closed? && forall v :: v in workers ==> v.Exited?
    }
  }

  /** `WindowLost` is a result query that fails: the check goes on as if it had returned no
      row. Any other failing call ends the check, the heartbeat's hook or the request: `Abort`,
      `BeatAbort`, `RequestAbort`. */
  datatype Move =
    | Fetch(due: seq<Job>)
    | Consider
    | Send
    | Unmark
    | RequestStop
    | CloseJobs
    | Receive(i: nat)
    | Advance(i: nat, probe: Verdict, at: int)
    | WindowLost(i: nat)
    | Abort(i: nat)
    | Release(i: nat)
    | Exit(i: nat)
    | Beat(id: MonitorId, pushed: string, at: int)
    | BeatAdvance(hook: Hook)
    | BeatAbort(hook: Hook)
    | RequestRead(action: Action)
    | RequestWrite(request: Request, at: int)
    | RequestAbort(request: Request)
    | Api(action: Action)

  /** One database call of a hook. A vanished monitor or incident makes it fail. The close
      updates by id and does not look at the status again. */
  function HookStep(w: World, h: Hook): (World, Option<Hook>) {
    match h
    case Finding(id, status) =>
      if status.Up? then
        (w, match w.ledger.Lookup(id) case Some(i) => Some(Closing(id, i)) case None => None)
      else
        (w, match w.ledger.Lookup(id) case Some(i) => None case None => Some(Inserting(id, SeverityFor(status))))
    case Inserting(id, severity) =>
      (if id in w.rows then w.(ledger := w.ledger.Insert(id, severity)) else w, None)
    case Closing(id, i) =>
      (if i in w.ledger.rows then w.(ledger := w.ledger.Close(i)) else w, None)
  }

  /** One database call of a running check; None means the check returns. */
  function CheckStep(w: World, job: Job, phase: Phase, probe: Verdict, at: int): (World, Option<Phase>) {
    match phase
    case Begin =>
      (match RunVerdict(job.m, probe, at)
       case None => (w, None)
       case Some(verdict) =>
         if !w.Has(job.id) then (w, None)
         else (w.(results := w.results[job.id := w.results[job.id] + [verdict]]), Some(Ran(probe, at, verdict))))
    case Ran(p, t, verdict) =>
      (w, Some(Decided(p, t, Decide(job.m, verdict, if job.id in w.results then w.results[job.id] else []))))
    case Decided(p, t, status) =>
      if job.id !in w.rows then (w, None)
      else
        (w.(rows := w.rows[job.id := WriteBack(w.rows[job.id], job.m, status, at)]),
         if status != job.m.status then Some(Hooking(p, t, at, Finding(job.id, status))) else None)
    case Hooking(p, t, writtenAt, hook) =>
      var (w', next) := HookStep(w, hook);
      (w', match next case Some(h) => Some(Hooking(p, t, writtenAt, h)) case None => None)
  }

  predicate Enabled(s: State, mv: Move) {
    match mv
    case Fetch(due) =>
      && s.loop.Selecting?
      && (forall j :: j in due ==> j.id in s.w.rows && s.w.rows[j.id] == j.m && j.m.Schedulable())
    case Consider => s.loop.Ranging?
    case Send => s.loop.Marked?
    case Unmark => s.loop.Dropping?
    case RequestStop => !s.stopping
    case CloseJobs => s.loop.Selecting? && s.stopping
    case Receive(i) => i < |s.workers| && s.workers[i].Idle? && s.queue != []
    case Advance(i, _, _) => i < |s.workers| && s.workers[i].Busy?
    case WindowLost(i) => i < |s.workers| && s.workers[i].Busy? && s.workers[i].phase.Ran?
    case Abort(i) => i < |s.workers| && s.workers[i].Busy?
    case Release(i) => i < |s.workers| && s.workers[i].Returned?
    case Exit(i) => i < |s.workers| && s.workers[i].Idle? && s.queue == [] && s.loop.Closed?
    case Beat(id, _, _) => id in s.tokens && s.w.Has(id)
    case BeatAdvance(h) => h in s.beats
    case BeatAbort(h) => h in s.beats
    case RequestRead(a) =>
      (match a
       case RotateToken(id) => id in s.tokens
       case Heartbeat(id, _, _) => id in s.tokens
       case _ => true)
    case RequestWrite(r, _) => r in s.requests
    case RequestAbort(r) => r in s.requests
    case Api(a) =>
      match a
      case Check(_, _, _, _) => false
      case Heartbeat(id, _, _) => id in s.tokens
      case RotateToken(id) => id in s.tokens
      case Create(id, kind, _, _) => kind.Push? ==> id in s.tokens
      case _ => true
  }

  function Apply(s: State, mv: Move): State
    requires Enabled(s, mv)
  {
    match mv
    case Fetch(due) => s.(loop := Ranging(due))
    case Consider =>
      var rest := s.loop.rest;
      if rest == [] then s.(loop := Selecting)
      else if rest[0].id in s.inProgress then s.(loop := Ranging(rest[1..]))
      else s.(inProgress := s.inProgress + {rest[0].id}, loop := Marked(rest[0], rest[1..]))
    case Send =>
      if |s.queue| < s.Capacity() then
        s.(queue := s.queue + [s.loop.job], accepted := s.accepted + [s.loop.job], loop := Ranging(s.loop.rest))
      else s.(loop := Dropping(s.loop.job, s.loop.rest))
    case Unmark => s.(inProgress := s.inProgress - {s.loop.job.id}, loop := Ranging(s.loop.rest))
    case RequestStop => s.(stopping := true)
    case CloseJobs => s.(loop := Closed)
    case Receive(i) =>
      s.(workers := s.workers[i := Busy(if s.Received() < 0 then 0 else s.Received(), s.queue[0], Begin)],
         queue := s.queue[1..])
    case Advance(i, probe, at) =>
      var v := s.workers[i];
      var (w', next) := CheckStep(s.w, v.job, v.phase, probe, at);
      s.(w := w',
         workers := s.workers[i := match next case Some(p) => Busy(v.k, v.job, p) case None => Returned(v.k, v.job)])
    case WindowLost(i) =>
      var v := s.workers[i];
      var blind := Decide(v.job.m, v.phase.verdict, []);
      s.(workers := s.workers[i := Busy(v.k, v.job, Decided(v.phase.probe, v.phase.at, blind))])
    case Abort(i) => s.(workers := s.workers[i := Returned(s.workers[i].k, s.workers[i].job)])
    case Release(i) =>
      s.(workers := s.workers[i := Idle],
         inProgress := s.inProgress - {s.workers[i].job.id},
         finished := s.finished + [s.workers[i].k])
    case Exit(i) => s.(workers := s.workers[i := Exited])
    case Beat(id, pushed, at) =>
      var w' := AfterHeartbeat(s.w, id, pushed, at);
      var moved := s.w.rows[id].hasToken && s.w.rows[id].enabled && PushedVerdict(pushed) != s.w.rows[id].status;
      s.(w := w'.(ledger := s.w.ledger),
         beats := if moved then s.beats + multiset{Finding(id, PushedVerdict(pushed))} else s.beats)
    case BeatAdvance(h) =>
      var (w', next) := HookStep(s.w, h);
      s.(w := w', beats := s.beats - multiset{h} + match next case Some(h') => multiset{h'} case None => multiset{})
    case BeatAbort(h) => s.(beats := s.beats - multiset{h})
    case RequestRead(a) =>
      s.(requests := s.requests + match Read(s.w, a) case Some(r) => multiset{r} case None => multiset{})
    case RequestWrite(r, at) =>
      var written := Update(s.w, r, at);
      s.(w := written.w,
         requests := s.requests - multiset{r}
                     + match written.next case Some(r') => multiset{r'} case None => multiset{},
         beats := if r.Recording? && written.moved then s.beats + multiset{Finding(r.id, r.status)} else s.beats)
    case RequestAbort(r) => s.(requests := s.requests - multiset{r})
    case Api(a) => s.(w := Lifecycle.Step(s.w, a))
  }

  /** Runs are arbitrary sequences of moves; a move that is not enabled does nothing. */
  function Next(s: State, mv: Move): State {
    if Enabled(s, mv) then Apply(s, mv) else s
  }

  function Exec(s: State, moves: seq<Move>): State {
    if moves == [] then s else Next(Exec(s, moves[..|moves| - 1]), moves[|moves| - 1])
  }

  /** A freshly started scheduler over a sound database. */
  ghost predicate Initial(s: State) {
    && s.w.Valid()
    && (forall m :: m !in s.tokens ==> |s.w.ledger.ActiveOf(m)| <= 1)
    && s.requests == multiset{} && s.beats == multiset{} && s.inProgress == {} && s.queue == [] && s.loop.Selecting?
    && |s.workers| > 0 && (forall v :: v in s.workers ==> v.Idle?)
    && !s.stopping && s.accepted == [] && s.finished == []
  }
}
