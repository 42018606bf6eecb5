/** Why bounded overtaking needs whole passes and check times that nobody puts back: two ways in
    which a monitor is let in twice while another one waits. */
module InterruptedPass {
  import opened Basics
  import opened Incidents
  import opened Lifecycle
  import opened Requests
  import opened Interleaving
  import opened IncidentSafety
  import opened StaleRows
  import opened EnqueuePass
  import opened Overtaking

  // ---- Stretches of a run ---------------------------------------------------------

  /** A stretch of loop and worker moves from one state to another. */
  ghost predicate Leads(t: State, moves: seq<Move>, t': State, fetches: seq<seq<Job>>) {
    Undisturbed(moves) && Exec(t, moves) == t' && Fetched(moves) == fetches
  }

  lemma {:induction false} FetchedAppend(xs: seq<Move>, ys: seq<Move>)
    ensures Fetched(xs + ys) == Fetched(xs) + Fetched(ys)
  {
    if ys == [] {
      assert xs + ys == xs && Fetched(xs) + [] == Fetched(xs);
    } else {
      assert (xs + ys)[..|xs + ys| - 1] == xs + ys[..|ys| - 1];
      FetchedAppend(xs, ys[..|ys| - 1]);
    }
  }

  lemma Join(t: State, xs: seq<Move>, t1: State, f: seq<seq<Job>>, ys: seq<Move>, t2: State, g: seq<seq<Job>>)
    requires Leads(t, xs, t1, f) && Leads(t1, ys, t2, g)
    ensures Leads(t, xs + ys, t2, f + g)
  {
    ExecAppend(t, xs, ys);
    FetchedAppend(xs, ys);
  }

  lemma OneMove(t: State, mv: Move)
    requires Undisturbed([mv])
    ensures Leads(t, [mv], Next(t, mv), if mv.Fetch? then [mv.due] else [])
  {
    assert [mv][..0] == [];
  }

  /** The loop works off what it ranges over and returns to its select. */
  lemma WholePass(t: State) returns (moves: seq<Move>)
    requires t.loop.Ranging? && DistinctIds(t.loop.rest) && |t.queue| <= t.Capacity()
    ensures LoopOnly(moves) && Leads(t, moves, AfterPass(t), [])
  {
    var pass := LoopFinishes(t);
    var t1 := Exec(t, pass);
    PassResult(t, pass);
    FetchesNothing(pass);
    OneMove(t1, Consider);
    Join(t, pass, t1, [], [Consider], Next(t1, Consider), []);
    moves := pass + [Consider];
    assert [] + [] == Fetched([]);
  }

  lemma PassResult(t: State, pass: seq<Move>)
    requires t.loop.Ranging? && DistinctIds(t.loop.rest) && |t.queue| <= t.Capacity()
    requires LoopOnly(pass) && Exec(t, pass).loop == Ranging([])
    ensures Next(Exec(t, pass), Consider) == AfterPass(t)
  {
    var taken, t1 := Taken(t, t.loop.rest), Exec(t, pass);
    UninterruptedLoopIsPass(t, pass);
    PassTakesFirstUnmarked(t.inProgress, t.queue, t.Capacity(), t.loop.rest);
    PassEnds(t, t1, taken);
  }

  lemma PassEnds(t: State, t1: State, taken: seq<Job>)
    requires OnlyQueues(t, t1) && t1.loop == Ranging([])
    requires t1.inProgress == t.inProgress + IdsOf(taken) && t1.queue == t.queue + taken
    ensures Next(t1, Consider)
         == t.(inProgress := t.inProgress + IdsOf(taken), queue := t.queue + taken, accepted := t.accepted + taken,
               loop := Selecting)
  {
    assert (t.queue + taken)[|t.queue|..] == taken;
  }

  lemma {:induction false} FetchesNothing(moves: seq<Move>)
    requires forall mv :: mv in moves ==> !mv.Fetch?
    ensures Fetched(moves) == []
  {
    if moves != [] {
      assert moves[|moves| - 1] in moves;
      FetchesNothing(moves[..|moves| - 1]);
    }
  }

  function AfterPass(t: State): State
    requires t.loop.Ranging?
  {
    var taken := Taken(t, t.loop.rest);
    t.(inProgress := t.inProgress + IdsOf(taken), queue := t.queue + taken, accepted := t.accepted + taken,
       loop := Selecting)
  }

  // ---- What a pass takes ----------------------------------------------------------

  lemma {:induction false} UnmarkedAll(js: seq<Job>, inProgress: set<MonitorId>)
    requires forall j :: j in js ==> j.id !in inProgress
    ensures Unmarked(js, inProgress) == js
  {
    if js != [] {
      assert js[0] in js && js == [js[0]] + js[1..];
      UnmarkedAll(js[1..], inProgress);
    }
  }

  lemma {:induction false} UnmarkedNone(js: seq<Job>, rest: seq<Job>, inProgress: set<MonitorId>)
    requires forall j :: j in js ==> j.id in inProgress
    ensures Unmarked(js + rest, inProgress) == Unmarked(rest, inProgress)
  {
    if js == [] {
      assert js + rest == rest;
    } else {
      assert js[0] in js && (js + rest)[1..] == js[1..] + rest;
      UnmarkedNone(js[1..], rest, inProgress);
    }
  }

  /** Four kinds of monitors, in the order of the due query: y, others that fill the queue, x. */
  ghost predicate Fetchable(w: World, y: Job, fill: seq<Job>, x: Job) {
    var due := [y] + fill + [x];
    && (forall j :: j in due ==> w.Has(j.id) && w.rows[j.id] == j.m && j.m.Schedulable())
    && DistinctIds(due) && InQueryOrder(due, CheckTimes(w))
    && y.m.kind.Probed? && y.m.status == Up
  }

  lemma DistinctParts(y: Job, fill: seq<Job>, x: Job)
    requires DistinctIds([y] + fill + [x])
    ensures DistinctIds(fill + [x]) && x.id != y.id
    ensures forall j :: j in fill ==> j.id != y.id && j.id != x.id
  {
    var due := [y] + fill + [x];
    assert forall i :: 0 <= i < |fill| ==> due[i + 1] == fill[i];
    assert due[|fill| + 1] == x && due[0] == y;
    assert forall i :: 0 <= i < |fill| + 1 ==> (fill + [x])[i] == due[i + 1];
  }

  /** With all others marked, y and x are left; with room for one, y is taken. */
  lemma TakesFirst(t: State, y: Job, fill: seq<Job>, x: Job)
    requires DistinctIds([y] + fill + [x]) && t.inProgress == IdsOf(fill) && |t.queue| + 1 == t.Capacity()
    ensures Taken(t, [y] + fill + [x]) == [y]
  {
    var due := [y] + fill + [x];
    DistinctParts(y, fill, x);
    assert due[1..] == fill + [x];
    assert y.id !in t.inProgress && x.id !in t.inProgress;
    forall j | j in fill ensures j.id in t.inProgress {
    }
    UnmarkedNone(fill, [x], t.inProgress);
    UnmarkedAll([x], t.inProgress);
    assert Unmarked(due, t.inProgress) == [y] + [x];
  }

  /** With nothing of it marked, a fetch with one row more than fits is taken but for that row. */
  lemma TakesAllBut(t: State, js: seq<Job>, x: Job)
    requires forall j :: j in js + [x] ==> j.id !in t.inProgress
    requires |t.queue| + |js| == t.Capacity()
    ensures Taken(t, js + [x]) == js
  {
    UnmarkedAll(js + [x], t.inProgress);
    assert (js + [x])[..|js|] == js;
  }

  // ---- The worker -----------------------------------------------------------------

  lemma CallsOfCheck(t: State, y: Job, at: int)
    requires |t.workers| > 0 && t.workers[0].Busy? && t.workers[0].job == y && t.workers[0].phase.Begin?
    requires t.w.Has(y.id) && y.m.kind.Probed? && y.m.status == Up
    ensures var call := Advance(0, Up, at);
            var t3 := Next(Next(Next(t, call), call), call);
            && t3 == t.(w := t3.w, workers := t.workers[0 := Returned(t.workers[0].k, y)])
            && t3.w.rows == t.w.rows[y.id := WriteBack(t.w.rows[y.id], y.m, Up, at)]
            && t3.w.results.Keys == t.w.results.Keys
  {
    ThreeCalls(t.w, y, Up, at);
    var call, k := Advance(0, Up, at), t.workers[0].k;
    var t1 := Next(t, call);
    var w1 := t.w.(results := t.w.results[y.id := t.w.results[y.id] + [Up]]);
    assert t1 == t.(w := w1, workers := t.workers[0 := Busy(k, y, Ran(Up, at, Up))]);
    var t2 := Next(t1, call);
    assert t2 == t.(w := w1, workers := t.workers[0 := Busy(k, y, Decided(Up, at, Up))]);
  }

  /** The check of a healthy monitor finds it healthy, writes its row and ends. */
  lemma WorkerChecks(t: State, y: Job) returns (moves: seq<Move>, t': State)
    requires |t.workers| > 0 && t.workers[0].Busy? && t.workers[0].job == y && t.workers[0].phase.Begin?
    requires t.w.Has(y.id) && y.m.kind.Probed? && y.m.status == Up
    ensures forall mv :: mv in moves ==> mv.Advance? || mv.Release?
    ensures Exec(t, moves) == t'
    ensures t' == t.(w := t'.w, inProgress := t.inProgress - {y.id}, workers := t.workers[0 := Idle],
                     finished := t'.finished)
    ensures t'.w.rows == t.w.rows[y.id := WriteBack(t.w.rows[y.id], y.m, Up, 0)]
    ensures t'.w.results.Keys == t.w.results.Keys
  {
    var call := Advance(0, Up, 0);
    CallsOfCheck(t, y, 0);
    var t3 := Next(Next(Next(t, call), call), call);
    t' := Next(t3, Release(0));
    ReleaseFirst(t3, y);
    moves := [call, call, call, Release(0)];
    FourMoves(t, call, call, call, Release(0));
  }

  lemma ReleaseFirst(t: State, y: Job)
    requires |t.workers| > 0 && t.workers[0].Returned? && t.workers[0].job == y
    ensures var t' := Next(t, Release(0));
            t' == t.(inProgress := t.inProgress - {y.id}, workers := t.workers[0 := Idle], finished := t'.finished)
  {
  }

  // ---- A worker in the middle of a pass -------------------------------------------

  /** y is sent and taken by a worker, and the pass goes on: the others fill the queue. */
  lemma InterruptedFirst(s: State, y: Job, fill: seq<Job>, x: Job) returns (moves: seq<Move>)
    requires Initial(s) && Fetchable(s.w, y, fill, x) && |fill| == 2 * |s.workers|
    ensures Leads(s, moves, s.(inProgress := {y.id} + IdsOf(fill), queue := fill, accepted := [y] + fill,
                               workers := s.workers[0 := Busy(0, y, Begin)]), [[y] + fill + [x]])
  {
    var due := [y] + fill + [x];
    DistinctParts(y, fill, x);
    assert due == [y] + (fill + [x]) && y in due;
    var start := [Fetch(due), Consider, Send, Receive(0)];
    FirstFour(s, y, fill + [x]);
    FirstFourFetch(due);
    var t := Exec(s, start);
    var pass := WholePass(t);
    TakesAllBut(t, fill, x);
    Join(s, start, t, [due], pass, AfterPass(t), []);
    moves := start + pass;
    assert [due] + [] == [due] && [] + fill == fill;
  }

  lemma FirstFourFetch(due: seq<Job>)
    ensures var moves := [Fetch(due), Consider, Send, Receive(0)]; Undisturbed(moves) && Fetched(moves) == [due]
  {
    FetchesNothing([Consider, Send, Receive(0)]);
    FetchedAppend([Fetch(due)], [Consider, Send, Receive(0)]);
    assert [Fetch(due)][..0] == [] && Fetched([Fetch(due)]) == [due];
    assert [Fetch(due)] + [Consider, Send, Receive(0)] == [Fetch(due), Consider, Send, Receive(0)];
    assert [due] + [] == [due];
  }

  lemma FirstFour(s: State, y: Job, rest: seq<Job>)
    requires Initial(s) && y.id in s.w.rows
    requires Enabled(s, Fetch([y] + rest))
    ensures Exec(s, [Fetch([y] + rest), Consider, Send, Receive(0)])
         == s.(inProgress := {y.id}, queue := [], accepted := [y], loop := Ranging(rest),
               workers := s.workers[0 := Busy(0, y, Begin)])
  {
    var due := [y] + rest;
    FourMoves(s, Fetch(due), Consider, Send, Receive(0));
    var t := s.(loop := Ranging(due));
    assert Next(s, Fetch(due)) == t;
    MarkAndSend(t, y, rest);
    assert s.workers[0] in s.workers;
    ReceiveFirst(t.(inProgress := {y.id}, queue := [y], accepted := [y], loop := Ranging(rest)), y);
  }

  lemma ReceiveFirst(t: State, y: Job)
    requires |t.workers| > 0 && t.workers[0].Idle? && t.queue == [y] && t.accepted == [y]
    ensures Next(t, Receive(0)) == t.(queue := [], workers := t.workers[0 := Busy(0, y, Begin)])
  {
  }

  lemma MarkAndSend(t: State, y: Job, rest: seq<Job>)
    requires t.loop == Ranging([y] + rest) && t.inProgress == {} && t.queue == [] && t.accepted == []
    requires |t.workers| > 0
    ensures Next(Next(t, Consider), Send)
         == t.(inProgress := {y.id}, queue := [y], accepted := [y], loop := Ranging(rest))
  {
    assert ([y] + rest)[1..] == rest;
    var t1 := Next(t, Consider);
    assert t1 == t.(inProgress := {y.id}, loop := Marked(y, rest));
  }

  /** The next fetch, the end of y's check, and the worker's next job. */
  lemma CheckEndsLate(t: State, y: Job, fill: seq<Job>, x: Job) returns (moves: seq<Move>, t': State)
    requires Fetchable(t.w, y, fill, x) && |fill| == 2 * |t.workers| > 0 && t.loop.Selecting?
    requires t.inProgress == {y.id} + IdsOf(fill) && t.queue == fill && t.accepted == [y] + fill
    requires t.workers[0] == Busy(0, y, Begin)
    ensures Leads(t, moves, t', [[y] + fill + [x]])
    ensures t'.loop == Ranging([y] + fill + [x]) && t'.inProgress == IdsOf(fill) && t'.accepted == [y] + fill
    ensures |t'.queue| + 1 == t'.Capacity()
  {
    var due := [y] + fill + [x];
    DistinctParts(y, fill, x);
    assert y in due;
    var t1 := t.(loop := Ranging(due));
    FetchLeads(t, due);
    var check, t2 := WorkerChecks(t1, y);
    assert t2.inProgress == IdsOf(fill);
    t' := Next(t2, Receive(0));
    ReceiveLeads(t2);
    FetchesNothing(check);
    Join(t, [Fetch(due)], t1, [due], check, t2, []);
    Join(t, [Fetch(due)] + check, t2, [due] + [], [Receive(0)], t', []);
    moves := [Fetch(due)] + check + [Receive(0)];
    assert [due] + [] + [] == [due];
  }

  lemma FetchLeads(t: State, due: seq<Job>)
    requires Enabled(t, Fetch(due))
    ensures Leads(t, [Fetch(due)], t.(loop := Ranging(due)), [due])
  {
    OneMove(t, Fetch(due));
  }

  lemma ReceiveLeads(t: State)
    requires |t.workers| > 0 && t.workers[0].Idle? && t.queue != []
    ensures var t' := Next(t, Receive(0));
            && Leads(t, [Receive(0)], t', [])
            && t' == t.(queue := t.queue[1..], workers := t'.workers) && |t'.workers| == |t.workers|
  {
    OneMove(t, Receive(0));
  }

  /** So y is let in again. */
  lemma InterruptedSecond(t: State, y: Job, fill: seq<Job>, x: Job) returns (moves: seq<Move>, t': State)
    requires Fetchable(t.w, y, fill, x) && |fill| == 2 * |t.workers| > 0 && t.loop.Selecting?
    requires t.inProgress == {y.id} + IdsOf(fill) && t.queue == fill && t.accepted == [y] + fill
    requires t.workers[0] == Busy(0, y, Begin)
    ensures Leads(t, moves, t', [[y] + fill + [x]])
    ensures t'.accepted == [y] + fill + [y]
  {
    var due := [y] + fill + [x];
    var late, t1 := CheckEndsLate(t, y, fill, x);
    TakesFirst(t1, y, fill, x);
    var pass := WholePass(t1);
    t' := AfterPass(t1);
    Join(t, late, t1, [due], pass, t', []);
    moves := late + pass;
    assert [due] + [] == [due];
  }

  /** From every start, with any number of workers and enough monitors to fill the queue: a run of
      loop and worker moves alone, all calls succeeding, in which both fetches return x in query
      order, x is never accepted, and y is accepted twice. */
  lemma InterruptedPassOvertakesTwice(s: State, y: Job, fill: seq<Job>, x: Job)
    requires Initial(s) && Fetchable(s.w, y, fill, x) && |fill| == 2 * |s.workers|
    ensures var due := [y] + fill + [x];
            exists moves :: Undisturbed(moves) && Fetched(moves) == [due, due]
                         && Exec(s, moves).accepted == [y] + fill + [y]
  {
    var due := [y] + fill + [x];
    var first := InterruptedFirst(s, y, fill, x);
    var t := Exec(s, first);
    var second, t' := InterruptedSecond(t, y, fill, x);
    Join(s, first, t, [due], second, t', [due]);
    assert [due] + [due] == [due, due];
    assert Exec(s, first + second).accepted == [y] + fill + [y];
  }

  // ---- An edit that puts a check time back ----------------------------------------

  const NO_CHANGE: Change := Change(None, 0, None)

  /** Between two passes: y is edited without a change, its check in between read and write. */
  lemma EditSpansCheck(t: State, y: Job) returns (moves: seq<Move>, t': State)
    requires |t.workers| > 0 && t.workers[0] == Busy(0, y, Begin) && t.w.Has(y.id) && t.w.rows[y.id] == y.m
    requires y.m.kind.Probed? && y.m.status == Up && t.requests == multiset{}
    ensures forall mv :: mv in moves ==> mv.RequestRead? || mv.RequestWrite? || mv.Advance? || mv.Release?
    ensures Exec(t, moves) == t'
    ensures t' == t.(w := t'.w, inProgress := t.inProgress - {y.id}, workers := t.workers[0 := Idle],
                     finished := t'.finished)
    ensures t'.w.rows == t.w.rows && t'.w.results.Keys == t.w.results.Keys
  {
    var edit := Edit(y.id, NO_CHANGE);
    var read, write := RequestRead(edit), RequestWrite(Editing(y.id, y.m, edit), 0);
    var t1 := t.(requests := multiset{Editing(y.id, y.m, edit)});
    EditReads(t, y);
    var check, t2 := WorkerChecks(t1, y);
    t' := Next(t2, write);
    assert t2.requests == multiset{Editing(y.id, y.m, edit)};
    EditWritesBack(t2, t, y);
    moves := [read] + check + [write];
    assert [read][..0] == [] && Exec(t, [read]) == Next(t, read);
    ExecAppend(t, [read], check);
    ExecSnoc(t, [read] + check, write);
  }

  lemma EditReads(t: State, y: Job)
    requires y.id in t.w.rows && t.w.rows[y.id] == y.m && t.requests == multiset{}
    ensures var edit := Edit(y.id, NO_CHANGE);
            Next(t, RequestRead(edit)) == t.(requests := multiset{Editing(y.id, y.m, edit)})
  {
  }

  lemma EditWritesBack(t: State, before: State, y: Job)
    requires var edit := Edit(y.id, NO_CHANGE); t.requests == multiset{Editing(y.id, y.m, edit)}
    requires y.id in before.w.rows && before.w.rows[y.id] == y.m
    requires t.w.rows == before.w.rows[y.id := WriteBack(y.m, y.m, Up, 0)]
    ensures var t' := Next(t, RequestWrite(Editing(y.id, y.m, Edit(y.id, NO_CHANGE)), 0));
            && t' == t.(w := t'.w, requests := multiset{})
            && t'.w.rows == before.w.rows && t'.w.results == t.w.results
  {
  }

  lemma LoopFetch(s: State, due: seq<Job>) returns (pass: seq<Move>)
    requires Enabled(s, Fetch(due)) && DistinctIds(due) && |s.queue| <= s.Capacity()
    ensures LoopOnly(pass) && Exec(Next(s, Fetch(due)), pass) == AfterPass(s.(loop := Ranging(due)))
  {
    pass := WholePass(Next(s, Fetch(due)));
  }

  /** One tick, its edit and check, and the next tick. */
  function TwoTicks(s: State, due: seq<Job>, pass1: seq<Move>, between: seq<Move>, pass2: seq<Move>): State {
    AfterBlock(Exec(AfterBlock(s, Tick(due, pass1)), between), Tick(due, pass2))
  }

  predicate BetweenTicks(moves: seq<Move>) {
    forall mv :: mv in moves ==> mv.Receive? || mv.Advance? || mv.Release? || mv.RequestRead? || mv.RequestWrite?
  }

  /** From every start, with any number of workers and enough monitors to fill the queue: two
      whole passes over the same rows in query order, and in between the first check of y with
      an edit of y around its status write. x is never accepted, and y twice. */
  lemma StaleEditOvertakesTwice(s: State, y: Job, fill: seq<Job>, x: Job)
    requires Initial(s) && Fetchable(s.w, y, fill, x) && |fill| + 1 == 2 * |s.workers|
    ensures var due := [y] + fill + [x];
            exists pass1, between, pass2 :: LoopOnly(pass1) && BetweenTicks(between) && LoopOnly(pass2)
              && Enabled(s, Fetch(due)) && Enabled(Exec(AfterBlock(s, Tick(due, pass1)), between), Fetch(due))
              && TwoTicks(s, due, pass1, between, pass2).accepted == [y] + fill + [y]
  {
    var due := [y] + fill + [x];
    var pass1, t1 := FirstTick(s, y, fill, x);
    var between, t2 := CheckAndEdit(t1, y, fill, x);
    assert CheckTimes(t2.w) == CheckTimes(s.w);
    assert Fetchable(t2.w, y, fill, x);
    var pass2 := SecondTick(t2, y, fill, x);
    assert TwoTicks(s, due, pass1, between, pass2).accepted == [y] + fill + [y];
  }

  lemma FirstTick(s: State, y: Job, fill: seq<Job>, x: Job) returns (pass: seq<Move>, t: State)
    requires Initial(s) && Fetchable(s.w, y, fill, x) && |fill| + 1 == 2 * |s.workers|
    ensures Enabled(s, Fetch([y] + fill + [x])) && LoopOnly(pass) && AfterBlock(s, Tick([y] + fill + [x], pass)) == t
    ensures t == s.(inProgress := IdsOf([y] + fill), queue := [y] + fill, accepted := [y] + fill)
  {
    var due := [y] + fill + [x];
    pass := LoopFetch(s, due);
    t := AfterPass(s.(loop := Ranging(due)));
    TakesAllBut(s.(loop := Ranging(due)), [y] + fill, x);
  }

  lemma CheckAndEdit(t: State, y: Job, fill: seq<Job>, x: Job) returns (between: seq<Move>, t': State)
    requires Fetchable(t.w, y, fill, x) && |fill| + 1 == 2 * |t.workers|
    requires t.workers[0].Idle? && t.requests == multiset{}
    requires t.inProgress == IdsOf([y] + fill) && t.queue == [y] + fill && t.accepted == [y] + fill
    requires t.loop.Selecting?
    ensures BetweenTicks(between) && Exec(t, between) == t'
    ensures t'.w.rows == t.w.rows && t'.w.results.Keys == t.w.results.Keys
    ensures t'.loop.Selecting? && t'.queue == fill && t'.accepted == [y] + fill
    ensures t'.inProgress == IdsOf(fill) && |t'.workers| == |t.workers|
  {
    DistinctParts(y, fill, x);
    assert y in [y] + fill + [x] && ([y] + fill)[1..] == fill;
    var t1 := Next(t, Receive(0));
    assert t1 == t.(queue := fill, workers := t.workers[0 := Busy(0, y, Begin)]);
    var edit, t2 := EditSpansCheck(t1, y);
    t' := t2;
    assert IdsOf([y] + fill) - {y.id} == IdsOf(fill);
    between := [Receive(0)] + edit;
    assert [Receive(0)][..0] == [];
    ExecAppend(t, [Receive(0)], edit);
  }

  lemma SecondTick(t: State, y: Job, fill: seq<Job>, x: Job) returns (pass: seq<Move>)
    requires Fetchable(t.w, y, fill, x) && |fill| + 1 == 2 * |t.workers| && t.loop.Selecting?
    requires t.inProgress == IdsOf(fill) && t.queue == fill && t.accepted == [y] + fill
    ensures Enabled(t, Fetch([y] + fill + [x])) && LoopOnly(pass)
    ensures AfterBlock(t, Tick([y] + fill + [x], pass)).accepted == [y] + fill + [y]
  {
    var due := [y] + fill + [x];
    pass := LoopFetch(t, due);
    TakesFirst(t.(loop := Ranging(due)), y, fill, x);
  }
}
