/** Safety of the queue and worker protocol in every interleaving. */
module Exclusion {
  import opened Basics
  import opened Incidents
  import opened Lifecycle
  import opened Interleaving

  predicate Holds(v: Worker, id: MonitorId) {
    (v.Busy? || v.Returned?) && v.job.id == id
  }

  predicate Carries(v: Worker, n: nat) {
    (v.Busy? || v.Returned?) && v.k == n
  }

  predicate OnLoop(l: Loop, id: MonitorId) {
    (l.Marked? || l.Dropping?) && l.job.id == id
  }

  /** How often `id` is queued, held by a worker, and how often number `n` is carried. */
  function Queued(q: seq<Job>, id: MonitorId): nat {
    if q == [] then 0 else One(q[0].id == id) + Queued(q[1..], id)
  }

  function Held(ws: seq<Worker>, id: MonitorId): nat {
    if ws == [] then 0 else One(Holds(ws[0], id)) + Held(ws[1..], id)
  }

  function Carried(ws: seq<Worker>, n: nat): nat {
    if ws == [] then 0 else One(Carries(ws[0], n)) + Carried(ws[1..], n)
  }

  /** An id is marked in progress exactly when it is queued, or with a worker, or between
      mark and send, and never in two of these places or twice in one. */
  ghost predicate Marks(inProgress: set<MonitorId>, queue: seq<Job>, workers: seq<Worker>, loop: Loop) {
    forall id :: One(id in inProgress) == Queued(queue, id) + Held(workers, id) + One(OnLoop(loop, id))
  }

  /** Jobs leave the channel in the order they were accepted, and every received job is
      either with one worker or finished once. */
  ghost predicate Accounts(accepted: seq<Job>, queue: seq<Job>, workers: seq<Worker>, finished: seq<nat>) {
    && |queue| <= |accepted| && queue == accepted[|accepted| - |queue|..]
    && (forall n: nat :: One(n < |accepted| - |queue|) == Carried(workers, n) + multiset(finished)[n])
    && (forall v :: v in workers && (v.Busy? || v.Returned?) ==>
          v.k < |accepted| - |queue| && accepted[v.k] == v.job)
  }

  ghost predicate Protocol(s: State) {
    && Marks(s.inProgress, s.queue, s.workers, s.loop)
    && Accounts(s.accepted, s.queue, s.workers, s.finished)
    && |s.queue| <= s.Capacity()
    && (forall v :: v in s.workers && v.Exited? ==> s.loop.Closed? && s.queue == [])
    && |s.workers| > 0
  }

  // ---- Counting lemmas ------------------------------------------------------------

  lemma {:induction false} WorkerUpdate(ws: seq<Worker>, i: nat, v: Worker, id: MonitorId, n: nat)
    requires i < |ws|
    ensures Held(ws[i := v], id) + One(Holds(ws[i], id)) == Held(ws, id) + One(Holds(v, id))
    ensures Carried(ws[i := v], n) + One(Carries(ws[i], n)) == Carried(ws, n) + One(Carries(v, n))
  {
    if i == 0 {
      assert ws[0 := v][1..] == ws[1..];
    } else {
      assert ws[i := v][1..] == ws[1..][i - 1 := v];
      WorkerUpdate(ws[1..], i - 1, v, id, n);
    }
  }

  lemma WorkerUpdates(ws: seq<Worker>, i: nat, v: Worker)
    requires i < |ws|
    ensures forall id :: Held(ws[i := v], id) + One(Holds(ws[i], id)) == Held(ws, id) + One(Holds(v, id))
    ensures forall n :: Carried(ws[i := v], n) + One(Carries(ws[i], n)) == Carried(ws, n) + One(Carries(v, n))
  {
    forall id ensures Held(ws[i := v], id) + One(Holds(ws[i], id)) == Held(ws, id) + One(Holds(v, id)) {
      WorkerUpdate(ws, i, v, id, 0);
    }
    forall n ensures Carried(ws[i := v], n) + One(Carries(ws[i], n)) == Carried(ws, n) + One(Carries(v, n)) {
      WorkerUpdate(ws, i, v, 0, n);
    }
  }

  lemma {:induction false} QueuedAppend(q: seq<Job>, j: Job, id: MonitorId)
    ensures Queued(q + [j], id) == Queued(q, id) + One(j.id == id)
  {
    if q == [] {
      assert (q + [j])[1..] == [];
    } else {
      assert (q + [j])[1..] == q[1..] + [j];
      QueuedAppend(q[1..], j, id);
    }
  }

  lemma {:induction false} HeldZero(ws: seq<Worker>, id: MonitorId, n: nat)
    requires forall v :: v in ws ==> !v.Busy? && !v.Returned?
    ensures Held(ws, id) == 0 && Carried(ws, n) == 0
  {
    if ws != [] {
      assert ws[0] in ws;
      HeldZero(ws[1..], id, n);
    }
  }

  lemma {:induction false} HeldAt(ws: seq<Worker>, i: nat, id: MonitorId)
    requires i < |ws| && Holds(ws[i], id)
    ensures Held(ws, id) >= 1
  {
    WorkerUpdate(ws, i, Idle, id, 0);
  }

  lemma {:induction false} HeldTwice(ws: seq<Worker>, i: nat, j: nat, id: MonitorId)
    requires i < |ws| && j < |ws| && i != j && Holds(ws[i], id) && Holds(ws[j], id)
    ensures Held(ws, id) >= 2
  {
    WorkerUpdate(ws, i, Idle, id, 0);
    HeldAt(ws[i := Idle], j, id);
  }

  lemma {:induction false} QueuedAt(q: seq<Job>, a: nat)
    requires a < |q|
    ensures Queued(q, q[a].id) >= 1
    ensures forall b :: 0 <= b < |q| && b != a && q[b].id == q[a].id ==> Queued(q, q[a].id) >= 2
  {
    if a == 0 {
      forall b | 1 <= b < |q| && q[b].id == q[0].id ensures Queued(q, q[0].id) >= 2 {
        QueuedAt(q[1..], b - 1);
        assert q[1..][b - 1] == q[b];
      }
    } else {
      QueuedAt(q[1..], a - 1);
      assert q[1..][a - 1] == q[a];
      forall b | 0 <= b < |q| && b != a && q[b].id == q[a].id ensures Queued(q, q[a].id) >= 2 {
        if b > 0 {
          assert q[1..][b - 1] == q[b];
        }
      }
    }
  }

  lemma {:induction false} QueuedWitness(q: seq<Job>, id: MonitorId)
    requires Queued(q, id) >= 1
    ensures exists a :: 0 <= a < |q| && q[a].id == id
  {
    if q[0].id != id {
      QueuedWitness(q[1..], id);
      var a :| 0 <= a < |q[1..]| && q[1..][a].id == id;
      assert q[a + 1].id == id;
    }
  }

  lemma {:induction false} HeldWitness(ws: seq<Worker>, id: MonitorId)
    requires Held(ws, id) >= 1
    ensures exists i :: 0 <= i < |ws| && Holds(ws[i], id)
  {
    if !Holds(ws[0], id) {
      HeldWitness(ws[1..], id);
      var i :| 0 <= i < |ws[1..]| && Holds(ws[1..][i], id);
      assert Holds(ws[i + 1], id);
    }
  }

  // ---- Every move keeps the protocol ----------------------------------------------

  lemma {:induction false} InitialProtocol(s: State)
    requires Initial(s)
    ensures Protocol(s)
  {
    forall id ensures Held(s.workers, id) == 0 {
      HeldZero(s.workers, id, 0);
    }
    forall n ensures Carried(s.workers, n) == 0 {
      HeldZero(s.workers, 0, n);
    }
  }

  lemma ProtocolConsider(s: State)
    requires Protocol(s) && Enabled(s, Consider)
    ensures Protocol(Apply(s, Consider))
  {
    var s' := Apply(s, Consider);
    forall id ensures One(id in s'.inProgress) == Queued(s.queue, id) + Held(s.workers, id) + One(OnLoop(s'.loop, id)) {
      assert One(id in s.inProgress) == Queued(s.queue, id) + Held(s.workers, id) + One(OnLoop(s.loop, id));
    }
  }

  lemma MarksSend(inProgress: set<MonitorId>, queue: seq<Job>, workers: seq<Worker>, job: Job, rest: seq<Job>)
    requires Marks(inProgress, queue, workers, Marked(job, rest))
    ensures Marks(inProgress, queue + [job], workers, Ranging(rest))
  {
    forall id
      ensures One(id in inProgress) == Queued(queue + [job], id) + Held(workers, id) + One(OnLoop(Ranging(rest), id))
    {
      assert One(id in inProgress) == Queued(queue, id) + Held(workers, id) + One(OnLoop(Marked(job, rest), id));
      QueuedAppend(queue, job, id);
    }
  }

  lemma AccountsSend(accepted: seq<Job>, queue: seq<Job>, workers: seq<Worker>, finished: seq<nat>, job: Job)
    requires Accounts(accepted, queue, workers, finished)
    ensures Accounts(accepted + [job], queue + [job], workers, finished)
  {
  }

  lemma ProtocolSend(s: State)
    requires Protocol(s) && Enabled(s, Send)
    ensures Protocol(Apply(s, Send))
  {
    if |s.queue| < s.Capacity() {
      MarksSend(s.inProgress, s.queue, s.workers, s.loop.job, s.loop.rest);
      AccountsSend(s.accepted, s.queue, s.workers, s.finished, s.loop.job);
    }
  }

  lemma ProtocolUnmark(s: State)
    requires Protocol(s) && Enabled(s, Unmark)
    ensures Protocol(Apply(s, Unmark))
  {
  }

  /** A worker that stays on its job, in whatever phase, leaves the protocol alone. */
  lemma ProtocolSameJob(s: State, i: nat, v: Worker, w: World)
    requires Protocol(s) && i < |s.workers| && s.workers[i].Busy?
    requires (v.Busy? || v.Returned?) && v.k == s.workers[i].k && v.job == s.workers[i].job
    ensures Protocol(s.(workers := s.workers[i := v], w := w))
  {
    WorkerUpdates(s.workers, i, v);
    assert s.workers[i] in s.workers;
  }

  lemma MarksReceive(inProgress: set<MonitorId>, queue: seq<Job>, ws: seq<Worker>, loop: Loop, i: nat, v: Worker)
    requires Marks(inProgress, queue, ws, loop) && i < |ws| && ws[i].Idle? && queue != []
    requires v.Busy? && v.job == queue[0]
    ensures Marks(inProgress, queue[1..], ws[i := v], loop)
  {
    forall id ensures One(id in inProgress) == Queued(queue[1..], id) + Held(ws[i := v], id) + One(OnLoop(loop, id)) {
      assert One(id in inProgress) == Queued(queue, id) + Held(ws, id) + One(OnLoop(loop, id));
      WorkerUpdate(ws, i, v, id, 0);
    }
  }

  lemma AccountsReceive(accepted: seq<Job>, queue: seq<Job>, ws: seq<Worker>, finished: seq<nat>, i: nat, v: Worker)
    requires Accounts(accepted, queue, ws, finished) && i < |ws| && ws[i].Idle? && queue != []
    requires v.Busy? && v.job == queue[0] && v.k == |accepted| - |queue|
    ensures Accounts(accepted, queue[1..], ws[i := v], finished)
  {
    forall n: nat ensures One(n < |accepted| - |queue[1..]|) == Carried(ws[i := v], n) + multiset(finished)[n] {
      assert One(n < |accepted| - |queue|) == Carried(ws, n) + multiset(finished)[n];
      WorkerUpdate(ws, i, v, 0, n);
    }
    assert queue[0] == accepted[|accepted| - |queue|];
  }

  lemma ProtocolReceive(s: State, i: nat)
    requires Protocol(s) && Enabled(s, Receive(i))
    ensures Protocol(Apply(s, Receive(i)))
  {
    var v := Busy(s.Received(), s.queue[0], Begin);
    MarksReceive(s.inProgress, s.queue, s.workers, s.loop, i, v);
    AccountsReceive(s.accepted, s.queue, s.workers, s.finished, i, v);
  }

  lemma MarksRelease(inProgress: set<MonitorId>, queue: seq<Job>, ws: seq<Worker>, loop: Loop, i: nat)
    requires Marks(inProgress, queue, ws, loop) && i < |ws| && ws[i].Returned?
    ensures Marks(inProgress - {ws[i].job.id}, queue, ws[i := Idle], loop)
  {
    var left := inProgress - {ws[i].job.id};
    forall id ensures One(id in left) == Queued(queue, id) + Held(ws[i := Idle], id) + One(OnLoop(loop, id)) {
      assert One(id in inProgress) == Queued(queue, id) + Held(ws, id) + One(OnLoop(loop, id));
      WorkerUpdate(ws, i, Idle, id, 0);
    }
  }

  lemma AccountsRelease(accepted: seq<Job>, queue: seq<Job>, ws: seq<Worker>, finished: seq<nat>, i: nat)
    requires Accounts(accepted, queue, ws, finished) && i < |ws| && ws[i].Returned?
    ensures Accounts(accepted, queue, ws[i := Idle], finished + [ws[i].k])
  {
    var done: seq<nat> := finished + [ws[i].k];
    forall n: nat ensures One(n < |accepted| - |queue|) == Carried(ws[i := Idle], n) + multiset(done)[n] {
      assert One(n < |accepted| - |queue|) == Carried(ws, n) + multiset(finished)[n];
      WorkerUpdate(ws, i, Idle, 0, n);
    }
  }

  lemma ProtocolRelease(s: State, i: nat)
    requires Protocol(s) && Enabled(s, Release(i))
    ensures Protocol(Apply(s, Release(i)))
  {
    MarksRelease(s.inProgress, s.queue, s.workers, s.loop, i);
    AccountsRelease(s.accepted, s.queue, s.workers, s.finished, i);
  }

  lemma ProtocolExit(s: State, i: nat)
    requires Protocol(s) && Enabled(s, Exit(i))
    ensures Protocol(Apply(s, Exit(i)))
  {
    WorkerUpdates(s.workers, i, Exited);
  }

  lemma ProtocolStep(s: State, mv: Move)
    requires Protocol(s)
    ensures Protocol(Next(s, mv))
  {
    if Enabled(s, mv) {
      match mv {
        case Receive(i) => ProtocolReceive(s, i);
        case Advance(i, _, _) => ProtocolSameJob(s, i, Apply(s, mv).workers[i], Apply(s, mv).w);
        case WindowLost(i) => ProtocolSameJob(s, i, Apply(s, mv).workers[i], s.w);
        case Abort(i) => ProtocolSameJob(s, i, Apply(s, mv).workers[i], s.w);
        case Release(i) => ProtocolRelease(s, i);
        case Exit(i) => ProtocolExit(s, i);
        case Consider => ProtocolConsider(s);
        case Send => ProtocolSend(s);
        case Unmark => ProtocolUnmark(s);
        case _ => ProtocolElsewhere(s, mv);
      }
    }
  }

  lemma ProtocolElsewhere(s: State, mv: Move)
    requires Protocol(s) && Enabled(s, mv)
    requires mv.Fetch? || mv.RequestStop? || mv.CloseJobs? || mv.Beat? || mv.BeatAdvance? || mv.BeatAbort? || mv.Api?
          || mv.RequestRead? || mv.RequestWrite? || mv.RequestAbort?
    ensures Protocol(Apply(s, mv))
  {
    ElsewhereKeepsQueue(s, mv);
    var s' := Apply(s, mv);
    assert forall id :: OnLoop(s'.loop, id) <==> OnLoop(s.loop, id);
  }

  lemma ElsewhereKeepsQueue(s: State, mv: Move)
    requires Enabled(s, mv)
    requires mv.Fetch? || mv.RequestStop? || mv.CloseJobs? || mv.Beat? || mv.BeatAdvance? || mv.BeatAbort? || mv.Api?
          || mv.RequestRead? || mv.RequestWrite? || mv.RequestAbort?
    ensures var s' := Apply(s, mv);
            && s' == s.(w := s'.w, requests := s'.requests, beats := s'.beats, loop := s'.loop, stopping := s'.stopping)
            && (s.loop.Closed? ==> s'.loop.Closed?)
            && (s'.loop == s.loop || (s.loop.Selecting? && (s'.loop.Ranging? || s'.loop.Closed?)))
  {
  }

  lemma {:induction false} ProtocolForever(s: State, moves: seq<Move>)
    requires Protocol(s)
    ensures Protocol(Exec(s, moves))
  {
    if moves != [] {
      ProtocolForever(s, moves[..|moves| - 1]);
      ProtocolStep(Exec(s, moves[..|moves| - 1]), moves[|moves| - 1]);
    }
  }

  // ---- What the protocol means ----------------------------------------------------

  lemma WorkersDiffer(s: State, i: nat, j: nat)
    requires Protocol(s) && i < |s.workers| && j < |s.workers| && i != j
    requires (s.workers[i].Busy? || s.workers[i].Returned?) && (s.workers[j].Busy? || s.workers[j].Returned?)
    ensures s.workers[i].job.id != s.workers[j].job.id
  {
    var id := s.workers[i].job.id;
    assert One(id in s.inProgress) <= 1;
    if s.workers[j].job.id == id {
      HeldTwice(s.workers, i, j, id);
    }
  }

  /** A job that waits between mark and send, or on the queue, is with no worker. */
  lemma HeldIsElsewhere(s: State, i: nat)
    requires Protocol(s) && i < |s.workers| && (s.workers[i].Busy? || s.workers[i].Returned?)
    ensures s.workers[i].job.id in s.inProgress
    ensures !OnLoop(s.loop, s.workers[i].job.id)
    ensures forall j :: j in s.queue ==> j.id != s.workers[i].job.id
  {
    var id := s.workers[i].job.id;
    HeldAt(s.workers, i, id);
    assert One(id in s.inProgress) == Queued(s.queue, id) + Held(s.workers, id) + One(OnLoop(s.loop, id));
    forall j | j in s.queue ensures j.id != id {
      var a :| 0 <= a < |s.queue| && s.queue[a] == j;
      QueuedAt(s.queue, a);
    }
  }

  /** In every run no monitor is queued twice, queued while a worker has it, or with two
      workers; whatever is marked is queued, with a worker, or between mark and send, so a
      dropped or finished id does not stay marked; and at most 3W + 1 ids are marked. */
  lemma {:induction false} NoMonitorTwice(s: State, moves: seq<Move>)
    requires Initial(s)
    ensures var t := Exec(s, moves);
            && (forall a, b :: 0 <= a < b < |t.queue| ==> t.queue[a].id != t.queue[b].id)
            && (forall i, j, id :: 0 <= i < j < |t.workers| && Holds(t.workers[i], id) ==> !Holds(t.workers[j], id))
            && (forall a, i :: 0 <= a < |t.queue| && 0 <= i < |t.workers| ==> !Holds(t.workers[i], t.queue[a].id))
            && (forall id :: id in t.inProgress <==>
                  || (exists a :: 0 <= a < |t.queue| && t.queue[a].id == id)
                  || (exists i :: 0 <= i < |t.workers| && Holds(t.workers[i], id))
                  || OnLoop(t.loop, id))
            && |t.inProgress| <= 3 * |t.workers| + 1
  {
    InitialProtocol(s);
    ProtocolForever(s, moves);
    var t := Exec(s, moves);
    forall a, b | 0 <= a < b < |t.queue| ensures t.queue[a].id != t.queue[b].id {
      QueuedAt(t.queue, a);
      assert One(t.queue[a].id in t.inProgress) <= 1;
    }
    forall i, j, id | 0 <= i < j < |t.workers| && Holds(t.workers[i], id) ensures !Holds(t.workers[j], id) {
      if Holds(t.workers[j], id) {
        WorkersDiffer(t, i, j);
      }
    }
    forall a, i | 0 <= a < |t.queue| && 0 <= i < |t.workers| ensures !Holds(t.workers[i], t.queue[a].id) {
      if Holds(t.workers[i], t.queue[a].id) {
        HeldIsElsewhere(t, i);
      }
    }
    forall id
      ensures id in t.inProgress <==>
                || (exists a :: 0 <= a < |t.queue| && t.queue[a].id == id)
                || (exists i :: 0 <= i < |t.workers| && Holds(t.workers[i], id))
                || OnLoop(t.loop, id)
    {
      MarkedMeansHeld(t, id);
    }
    MarkedBound(t);
  }

  lemma {:induction false} MarkedMeansHeld(t: State, id: MonitorId)
    requires Protocol(t)
    ensures id in t.inProgress <==>
                || (exists a :: 0 <= a < |t.queue| && t.queue[a].id == id)
                || (exists i :: 0 <= i < |t.workers| && Holds(t.workers[i], id))
                || OnLoop(t.loop, id)
  {
    assert One(id in t.inProgress) == Queued(t.queue, id) + Held(t.workers, id) + One(OnLoop(t.loop, id));
    if Queued(t.queue, id) >= 1 {
      QueuedWitness(t.queue, id);
    } else if Held(t.workers, id) >= 1 {
      HeldWitness(t.workers, id);
    }
    forall a | 0 <= a < |t.queue| && t.queue[a].id == id ensures id in t.inProgress {
      QueuedAt(t.queue, a);
    }
    forall i | 0 <= i < |t.workers| && Holds(t.workers[i], id) ensures id in t.inProgress {
      HeldAt(t.workers, i, id);
    }
  }

  function QueuedIds(q: seq<Job>): set<MonitorId> {
    if q == [] then {} else {q[0].id} + QueuedIds(q[1..])
  }

  function HeldIds(ws: seq<Worker>): set<MonitorId> {
    if ws == [] then {} else (if ws[0].Busy? || ws[0].Returned? then {ws[0].job.id} else {}) + HeldIds(ws[1..])
  }

  lemma {:induction false} QueuedIdsBound(q: seq<Job>)
    ensures |QueuedIds(q)| <= |q|
    ensures forall id :: Queued(q, id) >= 1 ==> id in QueuedIds(q)
  {
    if q != [] {
      QueuedIdsBound(q[1..]);
    }
  }

  lemma {:induction false} HeldIdsBound(ws: seq<Worker>)
    ensures |HeldIds(ws)| <= |ws|
    ensures forall id :: Held(ws, id) >= 1 ==> id in HeldIds(ws)
  {
    if ws != [] {
      HeldIdsBound(ws[1..]);
    }
  }

  lemma {:induction false} MarkedBound(s: State)
    requires Protocol(s)
    ensures |s.inProgress| <= 3 * |s.workers| + 1
  {
    QueuedIdsBound(s.queue);
    HeldIdsBound(s.workers);
    var current := if s.loop.Marked? || s.loop.Dropping? then {s.loop.job.id} else {};
    var all := QueuedIds(s.queue) + HeldIds(s.workers) + current;
    forall id | id in s.inProgress ensures id in all {
      assert One(id in s.inProgress) == Queued(s.queue, id) + Held(s.workers, id) + One(OnLoop(s.loop, id));
    }
    SubsetSize(s.inProgress, all);
  }

  /** Once Stop has returned, the queue is empty, no id is marked, and every accepted job
      has been executed exactly once. */
  lemma {:induction false} StopDrains(s: State, moves: seq<Move>)
    requires Initial(s) && Exec(s, moves).Stopped()
    ensures Exec(s, moves).queue == [] && Exec(s, moves).inProgress == {}
    ensures forall n: nat :: multiset(Exec(s, moves).finished)[n] == One(n < |Exec(s, moves).accepted|)
  {
    InitialProtocol(s);
    ProtocolForever(s, moves);
    var t := Exec(s, moves);
    assert t.workers[0] in t.workers;
    forall id ensures id !in t.inProgress {
      HeldZero(t.workers, id, 0);
      assert One(id in t.inProgress) == Queued(t.queue, id) + Held(t.workers, id) + One(OnLoop(t.loop, id));
    }
    forall n: nat ensures multiset(t.finished)[n] == One(n < |t.accepted|) {
      HeldZero(t.workers, 0, n);
    }
  }

  // ---- Stop returns ---------------------------------------------------------------

  function HookRank(h: Hook): nat {
    if h.Finding? then 4 else 3
  }

  function PhaseRank(p: Phase): nat {
    match p
    case Begin => 7
    case Ran(_, _, _) => 6
    case Decided(_, _, _) => 5
    case Hooking(_, _, _, h) => HookRank(h)
  }

  function Rank(v: Worker): nat {
    match v
    case Exited => 0
    case Idle => 1
    case Returned(_, _) => 2
    case Busy(_, _, p) => PhaseRank(p)
  }

  function Ranks(ws: seq<Worker>): nat {
    if ws == [] then 0 else Rank(ws[0]) + Ranks(ws[1..])
  }

  function WorkLeft(s: State): nat {
    7 * |s.queue| + Ranks(s.workers)
  }

  predicate WorkerMove(mv: Move) {
    mv.Receive? || mv.Advance? || mv.WindowLost? || mv.Abort? || mv.Release? || mv.Exit?
  }

  lemma {:induction false} RanksUpdate(ws: seq<Worker>, i: nat, v: Worker)
    requires i < |ws|
    ensures Ranks(ws[i := v]) + Rank(ws[i]) == Ranks(ws) + Rank(v)
  {
    if i == 0 {
      assert ws[0 := v][1..] == ws[1..];
    } else {
      assert ws[i := v][1..] == ws[1..][i - 1 := v];
      RanksUpdate(ws[1..], i - 1, v);
    }
  }

  /** Every database call brings a check nearer its return. */
  lemma PhaseProgress(w: World, job: Job, phase: Phase, probe: Verdict, at: int)
    ensures var next := CheckStep(w, job, phase, probe, at).1; next.Some? ==> PhaseRank(next.value) < PhaseRank(phase)
  {
  }

  lemma WorkerMoveWorks(s: State, mv: Move)
    requires Enabled(s, mv) && WorkerMove(mv)
    ensures WorkLeft(Apply(s, mv)) < WorkLeft(s)
  {
    var s' := Apply(s, mv);
    RanksUpdate(s.workers, mv.i, s'.workers[mv.i]);
    assert s'.workers == s.workers[mv.i := s'.workers[mv.i]];
    if mv.Advance? {
      PhaseProgress(s.w, s.workers[mv.i].job, s.workers[mv.i].phase, mv.probe, mv.at);
    }
  }

  lemma OtherMovesKeepWork(s: State, mv: Move)
    requires s.loop.Closed? && !WorkerMove(mv)
    ensures WorkLeft(Next(s, mv)) == WorkLeft(s)
  {
  }

  lemma WorkerCanMove(s: State, i: nat) returns (mv: Move)
    requires s.loop.Closed? && i < |s.workers| && !s.workers[i].Exited?
    ensures WorkerMove(mv) && !mv.Abort? && !mv.WindowLost? && Enabled(s, mv)
  {
    mv := match s.workers[i]
          case Idle => if s.queue != [] then Receive(i) else Exit(i)
          case Busy(_, _, _) => Advance(i, Up, 0)
          case _ => Release(i);
  }

  /** After the channel is closed every worker move uses up work, no other move adds any,
      and until Stop returns some worker can move on: so Stop always returns. */
  lemma StopMakesProgress(s: State, mv: Move)
    requires s.loop.Closed?
    ensures Next(s, mv).loop.Closed?
    ensures WorkLeft(Next(s, mv)) <= WorkLeft(s)
    ensures WorkerMove(mv) && Enabled(s, mv) ==> WorkLeft(Next(s, mv)) < WorkLeft(s)
    ensures !s.Stopped() ==> exists mv' :: WorkerMove(mv') && !mv'.Abort? && !mv'.WindowLost? && Enabled(s, mv')
  {
    if !WorkerMove(mv) {
      OtherMovesKeepWork(s, mv);
    } else if Enabled(s, mv) {
      WorkerMoveWorks(s, mv);
    }
    if !s.Stopped() {
      var v :| v in s.workers && !v.Exited?;
      var i :| 0 <= i < |s.workers| && s.workers[i] == v;
      var mv' := WorkerCanMove(s, i);
      assert WorkerMove(mv') && Enabled(s, mv');
    }
  }
}
