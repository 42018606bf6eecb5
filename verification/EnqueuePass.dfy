/** One tick's pass over the due monitors: what it accepts, and that the interleaved loop, left
    alone by the workers, does exactly that. */
module EnqueuePass {
  import opened Incidents
  import opened Interleaving
  import opened IncidentSafety

  /** The pass, job by job: marked ids are skipped, the rest are sent while there is room. */
  function Pass(inProgress: set<MonitorId>, queue: seq<Job>, capacity: nat, due: seq<Job>)
    : (r: (set<MonitorId>, seq<Job>))
    ensures queue <= r.1
    decreases |due|
  {
    if due == [] then (inProgress, queue)
    else if due[0].id !in inProgress && |queue| < capacity then
      Pass(inProgress + {due[0].id}, queue + [due[0]], capacity, due[1..])
    else Pass(inProgress, queue, capacity, due[1..])
  }

  /** The loop goroutine's mutable state during a pass. */
  class JobQueue {
    const capacity: nat
    var inProgress: set<MonitorId>
    var jobs: seq<Job>

    constructor (workerCount: int)
      ensures capacity == 2 * (if workerCount <= 0 then 10 else workerCount)
      ensures inProgress == {} && jobs == []
    {
      capacity := 2 * (if workerCount <= 0 then 10 else workerCount);
      inProgress, jobs := {}, [];
    }

    method EnqueueDue(due: seq<Job>)
      modifies this
      ensures (inProgress, jobs) == Pass(old(inProgress), old(jobs), capacity, due)
    {
      var i := 0;
      while i < |due|
        invariant 0 <= i <= |due|
        invariant Pass(inProgress, jobs, capacity, due[i..]) == Pass(old(inProgress), old(jobs), capacity, due)
      {
        var m := due[i];
        assert due[i..][1..] == due[i + 1..];
        if m.id !in inProgress {
          inProgress := inProgress + {m.id};
          if |jobs| < capacity {
            jobs := jobs + [m];
          } else {
            inProgress := inProgress - {m.id};
          }
        }
        i := i + 1;
      }
    }
  }

  // ---- A closed form of the pass --------------------------------------------------

  predicate DistinctIds(due: seq<Job>) {
    forall i, j :: 0 <= i < j < |due| ==> due[i].id != due[j].id
  }

  function Unmarked(due: seq<Job>, inProgress: set<MonitorId>): seq<Job> {
    if due == [] then []
    else (if due[0].id in inProgress then [] else [due[0]]) + Unmarked(due[1..], inProgress)
  }

  function Take<T>(s: seq<T>, n: int): seq<T> {
    if n <= 0 then [] else if n <= |s| then s[..n] else s
  }

  function IdsOf(jobs: seq<Job>): set<MonitorId> {
    set j | j in jobs :: j.id
  }

  lemma {:induction false} UnmarkedIgnores(due: seq<Job>, inProgress: set<MonitorId>, id: MonitorId)
    requires forall j :: j in due ==> j.id != id
    ensures Unmarked(due, inProgress + {id}) == Unmarked(due, inProgress)
  {
    if due != [] {
      assert due[0] in due;
      UnmarkedIgnores(due[1..], inProgress, id);
    }
  }

  lemma TakeFirst<T>(x: T, rest: seq<T>, n: int)
    ensures Take([x] + rest, n) == if n <= 0 then [] else [x] + Take(rest, n - 1)
  {
  }

  lemma AcceptOne(inProgress: set<MonitorId>, queue: seq<Job>, j: Job, more: seq<Job>)
    ensures queue + [j] + more == queue + ([j] + more)
    ensures inProgress + {j.id} + IdsOf(more) == inProgress + IdsOf([j] + more)
  {
  }

  lemma {:induction false} FullTakesNothing(inProgress: set<MonitorId>, queue: seq<Job>, capacity: nat, due: seq<Job>)
    requires |queue| >= capacity
    ensures Pass(inProgress, queue, capacity, due) == (inProgress, queue)
    decreases |due|
  {
    if due != [] {
      FullTakesNothing(inProgress, queue, capacity, due[1..]);
    }
  }

  lemma DistinctTail(due: seq<Job>)
    requires due != [] && DistinctIds(due)
    ensures DistinctIds(due[1..]) && forall j :: j in due[1..] ==> j.id != due[0].id
  {
  }

  lemma DistinctCons(j: Job, rest: seq<Job>)
    requires DistinctIds(rest) && forall r :: r in rest ==> r.id != j.id
    ensures DistinctIds([j] + rest)
  {
  }

  /** On the distinct rows of a fetch the pass accepts exactly the first unmarked ones that
      fit, in order, and marks exactly those. */
  lemma {:induction false} PassTakesFirstUnmarked(inProgress: set<MonitorId>, queue: seq<Job>, capacity: nat,
                                                  due: seq<Job>)
    requires DistinctIds(due) && |queue| <= capacity
    ensures var taken := Take(Unmarked(due, inProgress), capacity - |queue|);
            Pass(inProgress, queue, capacity, due) == (inProgress + IdsOf(taken), queue + taken)
    decreases |due|
  {
    if |queue| == capacity {
      FullTakesNothing(inProgress, queue, capacity, due);
      NothingTaken(inProgress, queue);
    } else if due == [] {
      NothingTaken(inProgress, queue);
    } else {
      var free := Unmarked(due[1..], inProgress);
      DistinctTail(due);
      if due[0].id in inProgress {
        PassTakesFirstUnmarked(inProgress, queue, capacity, due[1..]);
        assert [] + free == free;
      } else {
        PassTakesFirstUnmarked(inProgress + {due[0].id}, queue + [due[0]], capacity, due[1..]);
        UnmarkedIgnores(due[1..], inProgress, due[0].id);
        TakeFirst(due[0], free, capacity - |queue|);
        AcceptOne(inProgress, queue, due[0], Take(free, capacity - |queue| - 1));
      }
    }
  }

  lemma NothingTaken(inProgress: set<MonitorId>, queue: seq<Job>)
    ensures inProgress + IdsOf([]) == inProgress && queue + [] == queue
  {
  }

  /** What is left of a fetch after marked ids are dropped, in order. */
  lemma {:induction false} UnmarkedMeans(due: seq<Job>, inProgress: set<MonitorId>)
    ensures forall j :: j in Unmarked(due, inProgress) <==> j in due && j.id !in inProgress
    ensures DistinctIds(due) ==> DistinctIds(Unmarked(due, inProgress))
  {
    if due != [] {
      UnmarkedMeans(due[1..], inProgress);
      assert due == [due[0]] + due[1..];
      var rest := Unmarked(due[1..], inProgress);
      if due[0].id in inProgress {
        assert Unmarked(due, inProgress) == rest;
      } else {
        assert forall j :: j in [due[0]] + rest <==> j == due[0] || j in rest;
      }
      if DistinctIds(due) {
        DistinctTail(due);
        if due[0].id !in inProgress {
          DistinctCons(due[0], rest);
        }
      }
    }
  }

  // ---- The interleaved loop left alone --------------------------------------------

  predicate LoopOnly(moves: seq<Move>) {
    forall mv :: mv in moves ==> mv.Consider? || mv.Send? || mv.Unmark?
  }

  /** What the loop's marks and queue will be once it has worked off what it ranges over. */
  function Outcome(t: State): (set<MonitorId>, seq<Job>) {
    match t.loop
    case Ranging(rest) => Pass(t.inProgress, t.queue, t.Capacity(), rest)
    case Marked(job, rest) =>
      if |t.queue| < t.Capacity() then Pass(t.inProgress, t.queue + [job], t.Capacity(), rest)
      else Pass(t.inProgress - {job.id}, t.queue, t.Capacity(), rest)
    case Dropping(job, rest) => Pass(t.inProgress - {job.id}, t.queue, t.Capacity(), rest)
    case _ => (t.inProgress, t.queue)
  }

  /** What the loop alone cannot change, and that it accepts what it queues. */
  ghost predicate OnlyQueues(s: State, t: State) {
    && t == s.(inProgress := t.inProgress, queue := t.queue, loop := t.loop, accepted := t.accepted)
    && s.queue <= t.queue && t.accepted == s.accepted + t.queue[|s.queue|..]
  }

  lemma LoopMoveKeepsOutcome(t: State, mv: Move)
    requires mv.Consider? || mv.Send? || mv.Unmark?
    ensures Outcome(Next(t, mv)) == Outcome(t) && OnlyQueues(t, Next(t, mv))
  {
    if mv.Consider? && t.loop.Ranging? && t.loop.rest != [] {
      var id := t.loop.rest[0].id;
      if id !in t.inProgress {
        assert t.inProgress + {id} - {id} == t.inProgress;
      }
    }
  }

  lemma OnlyQueuesTrans(s: State, t: State, u: State)
    requires OnlyQueues(s, t) && OnlyQueues(t, u)
    ensures OnlyQueues(s, u)
  {
    assert u.queue[|s.queue|..] == t.queue[|s.queue|..] + u.queue[|t.queue|..];
  }

  lemma {:induction false} LoopKeepsOutcome(s: State, moves: seq<Move>)
    requires LoopOnly(moves)
    ensures Outcome(Exec(s, moves)) == Outcome(s) && OnlyQueues(s, Exec(s, moves))
  {
    if moves != [] {
      var before, last := moves[..|moves| - 1], moves[|moves| - 1];
      assert last in moves;
      LoopKeepsOutcome(s, before);
      LoopMoveKeepsOutcome(Exec(s, before), last);
      OnlyQueuesTrans(s, Exec(s, before), Exec(s, moves));
    }
  }

  /** Left alone by the workers, the interleaved loop does exactly one pass: however it gets
      through the rows it ranges over, marks and queue end as those of the pass, the queued
      jobs are accepted, and nothing else changes. */
  lemma UninterruptedLoopIsPass(s: State, moves: seq<Move>)
    requires s.loop.Ranging? && LoopOnly(moves)
    requires Exec(s, moves).loop == Ranging([]) || Exec(s, moves).loop.Selecting?
    ensures var t := Exec(s, moves);
            && (t.inProgress, t.queue) == Pass(s.inProgress, s.queue, s.Capacity(), s.loop.rest)
            && OnlyQueues(s, t)
  {
    LoopKeepsOutcome(s, moves);
  }

  /** And it does get through. */
  lemma {:induction false} LoopFinishes(s: State) returns (moves: seq<Move>)
    requires s.loop.Ranging?
    ensures LoopOnly(moves) && Exec(s, moves).loop == Ranging([])
    decreases |s.loop.rest|
  {
    if s.loop.rest == [] {
      moves := [];
    } else {
      var first := if s.loop.rest[0].id in s.inProgress then [Consider]
                   else if |s.queue| < s.Capacity() then [Consider, Send]
                   else [Consider, Send, Unmark];
      OneRow(s, first);
      var more := LoopFinishes(Exec(s, first));
      ExecAppend(s, first, more);
      moves := first + more;
    }
  }

  lemma OneRow(s: State, first: seq<Move>)
    requires s.loop.Ranging? && s.loop.rest != []
    requires first == if s.loop.rest[0].id in s.inProgress then [Consider]
                      else if |s.queue| < s.Capacity() then [Consider, Send] else [Consider, Send, Unmark]
    ensures Exec(s, first).loop == Ranging(s.loop.rest[1..])
  {
    ExecFew(s);
    if s.loop.rest[0].id !in s.inProgress {
      var t := Next(s, Consider);
      assert t.loop == Marked(s.loop.rest[0], s.loop.rest[1..]) && t.queue == s.queue && t.workers == s.workers;
    }
  }

  lemma ExecFew(s: State)
    ensures Exec(s, [Consider]) == Next(s, Consider)
    ensures Exec(s, [Consider, Send]) == Next(Next(s, Consider), Send)
    ensures Exec(s, [Consider, Send, Unmark]) == Next(Next(Next(s, Consider), Send), Unmark)
  {
    ExecSnoc(s, [], Consider);
    ExecSnoc(s, [Consider], Send);
    ExecSnoc(s, [Consider, Send], Unmark);
    assert [] + [Consider] == [Consider] && [Consider] + [Send] == [Consider, Send];
    assert [Consider, Send] + [Unmark] == [Consider, Send, Unmark];
  }
}
