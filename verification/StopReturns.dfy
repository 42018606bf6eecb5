/** From wherever a run of the scheduler is, Stop can be called and returns, and the jobs accepted
    by then are executed. */
module StopReturns {
  import opened Basics
  import opened Interleaving
  import opened Exclusion
  import opened IncidentSafety
  import opened EnqueuePass

  /** The loop gets back to its select and stops, the workers drain the queue, and no call fails. */
  predicate Unfailing(moves: seq<Move>) {
    forall mv :: mv in moves ==>
      || mv.Consider? || mv.Send? || mv.Unmark? || mv.RequestStop? || mv.CloseJobs?
      || mv.Receive? || mv.Advance? || mv.Release? || mv.Exit?
  }

  lemma {:induction false} Drain(s: State) returns (moves: seq<Move>)
    requires s.loop.Closed?
    ensures Unfailing(moves) && Exec(s, moves).Stopped()
    decreases WorkLeft(s)
  {
    if s.Stopped() {
      moves := [];
    } else {
      StopMakesProgress(s, Unmark);
      var mv :| WorkerMove(mv) && !mv.Abort? && !mv.WindowLost? && Enabled(s, mv);
      StopMakesProgress(s, mv);
      var more := Drain(Next(s, mv));
      FirstMove(s, mv, more);
      moves := [mv] + more;
    }
  }

  lemma BackFromPass(s: State) returns (moves: seq<Move>)
    requires s.loop.Ranging?
    ensures Unfailing(moves) && Exec(s, moves).loop.Selecting?
  {
    var pass := LoopFinishes(s);
    ExecSnoc(s, pass, Consider);
    moves := pass + [Consider];
  }

  lemma BackFromDrop(s: State) returns (moves: seq<Move>)
    requires s.loop.Dropping? || s.loop.Ranging?
    ensures Unfailing(moves) && Exec(s, moves).loop.Selecting?
  {
    if s.loop.Dropping? {
      var more := BackFromPass(Next(s, Unmark));
      FirstMove(s, Unmark, more);
      moves := [Unmark] + more;
    } else {
      moves := BackFromPass(s);
    }
  }

  lemma BackToSelect(s: State) returns (moves: seq<Move>)
    ensures Unfailing(moves) && (Exec(s, moves).loop.Selecting? || Exec(s, moves).loop.Closed?)
  {
    if s.loop.Selecting? || s.loop.Closed? {
      moves := [];
    } else if s.loop.Marked? {
      var more := BackFromDrop(Next(s, Send));
      FirstMove(s, Send, more);
      moves := [Send] + more;
    } else {
      moves := BackFromDrop(s);
    }
  }

  lemma CloseAfterSelect(s: State) returns (moves: seq<Move>)
    requires s.loop.Selecting? || s.loop.Closed?
    ensures Unfailing(moves) && Exec(s, moves).loop.Closed?
  {
    if s.loop.Closed? {
      moves := [];
    } else {
      moves := [RequestStop, CloseJobs];
      TwoMore(s, [], RequestStop, CloseJobs);
      assert [] + [RequestStop, CloseJobs] == moves;
      assert Next(s, RequestStop) == s.(stopping := true);
    }
  }

  lemma StopRun(s: State) returns (moves: seq<Move>)
    ensures Unfailing(moves) && Exec(s, moves).Stopped()
  {
    var back := BackToSelect(s);
    var t := Exec(s, back);
    var close := CloseAfterSelect(t);
    var u := Exec(t, close);
    var drain := Drain(u);
    ExecAppend(s, back, close);
    ExecAppend(s, back + close, drain);
    moves := back + close + drain;
  }

  lemma AcceptedStep(s: State, mv: Move)
    ensures s.accepted <= Next(s, mv).accepted
  {
  }

  lemma {:induction false} AcceptedOnlyGrows(s: State, moves: seq<Move>)
    ensures s.accepted <= Exec(s, moves).accepted
  {
    if moves != [] {
      AcceptedOnlyGrows(s, moves[..|moves| - 1]);
      AcceptedStep(Exec(s, moves[..|moves| - 1]), moves[|moves| - 1]);
    }
  }

  /** After any run there is a continuation in which Stop returns: nothing is queued or marked,
      and every job accepted before or since has been executed exactly once. */
  lemma StopReturnsFromAnywhere(s: State, moves: seq<Move>)
    requires Initial(s)
    ensures exists more ::
              var t := Exec(s, moves + more);
              && Unfailing(more) && t.Stopped() && t.queue == [] && t.inProgress == {}
              && Exec(s, moves).accepted <= t.accepted
              && forall n: nat :: multiset(t.finished)[n] == One(n < |t.accepted|)
  {
    var more := StopRun(Exec(s, moves));
    ExecAppend(s, moves, more);
    StopDrains(s, moves + more);
    AcceptedOnlyGrows(Exec(s, moves), more);
  }
}
