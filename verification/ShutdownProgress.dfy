/**
  What the safety laws of Shutdown leave open: that handlers do run while the service serves, and that
  a stop gets through once every handler took its last steps.
 */
module ShutdownProgress {
  import opened Settlement
  import opened Shutdown

  lemma {:induction false} ExecConcat(s: State, first: seq<Action>, second: seq<Action>)
    ensures ExecFrom(s, first + second) == ExecFrom(ExecFrom(s, first), second)
  {
    hide Step;
    if |second| == 0 {
      assert first + second == first;
    } else {
      var run := first + second;
      assert run[..|run| - 1] == first + second[..|second| - 1];
      ExecConcat(s, first, second[..|second| - 1]);
    }
  }

  lemma ExecOne(s: State, action: Action)
    ensures ExecFrom(s, [action]) == Step(s, action)
  {
    assert [action][..0] == [];
  }

  lemma ExecThree(s: State, a: Action, b: Action, c: Action)
    ensures ExecFrom(s, [a, b, c]) == Step(Step(Step(s, a), b), c)
  {
    hide Step;
    ExecConcat(s, [a, b], [c]);
    ExecConcat(s, [a], [b]);
    ExecOne(s, a);
    ExecOne(Step(s, a), b);
    ExecOne(Step(Step(s, a), b), c);
    assert [a, b] == [a] + [b] && [a, b, c] == [a, b] + [c];
  }

  // ---------------------------------------------------------------------------------------------
  // Handlers run
  // ---------------------------------------------------------------------------------------------

  /** A delivery that arrives while the service serves gets a handler task. */
  lemma DeliveryIsHandled(s: State, d: Delivery)
    requires s.phase.Serving? && d !in s.delivered
    ensures Step(s, Deliver(d)) == s.(tasks := s.tasks[d := Created], delivered := s.delivered + {d})
  {
  }

  /**
    In every phase before the force close a handler task can begin, settle its delivery as its handler
    ended and leave: then exactly that settlement was added, and the scope it opened is closed again.
   */
  lemma HandlerRuns(s: State, d: Delivery, verdict: Verdict)
    requires Inv(s) && At(s, d, Created) && d !in s.cancelled && !verdict.Nacked?
    ensures var open := Step(s, Begin(d));
            && At(open, d, Open) && open.count == s.count + 1 && !open.empty
            && var after := ExecFrom(open, [Settle(d, verdict), End(d), Unregister(d)]);
               && d !in after.tasks && after.tasks == s.tasks - {d}
               && after.settled == s.settled + [(d, verdict)] && after.begun == s.begun + {d}
               && after.count == s.count && after.empty == s.empty && after.phase == s.phase
  {
    hide OpenScopes, Settlements;
    var open := Step(s, Begin(d));
    StepKeepsInv(s, Begin(d));
    ExecThree(open, Settle(d, verdict), End(d), Unregister(d));
    assert s.tasks[d := Open][d := Settled][d := Ended] - {d} == s.tasks - {d};
  }

  // ---------------------------------------------------------------------------------------------
  // The stop gets through
  // ---------------------------------------------------------------------------------------------

  /** The steps a cancelled handler has left: one that did not begin only aborts, an open one rejects. */
  function LastSteps(stage: Stage, d: Delivery): seq<Action> {
    match stage
    case Created => [Abort(d)]
    case Open => [Settle(d, Rejected(true)), End(d)]
    case Settled => [End(d)]
    case Ended => []
  }

  lemma {:induction false} InvKept(s: State, run: seq<Action>)
    requires Inv(s)
    ensures Inv(ExecFrom(s, run))
  {
    hide Step, Inv;
    if |run| > 0 {
      InvKept(s, run[..|run| - 1]);
      StepKeepsInv(ExecFrom(s, run[..|run| - 1]), run[|run| - 1]);
    }
  }

  lemma HandlerFinishes(s: State, d: Delivery)
    requires Inv(s) && s.phase.Cancelling? && d in Unfinished(s.tasks)
    ensures var after := ExecFrom(s, LastSteps(s.tasks[d], d));
            after.phase.Cancelling? && Unfinished(after.tasks) == Unfinished(s.tasks) - {d}
  {
    hide OpenScopes, Settlements;
    assert d in s.cancelled;
    match s.tasks[d]
    case Created => ExecOne(s, Abort(d));
    case Open =>
      ExecOne(s, Settle(d, Rejected(true)));
      ExecConcat(s, [Settle(d, Rejected(true))], [End(d)]);
      ExecOne(Step(s, Settle(d, Rejected(true))), End(d));
      assert LastSteps(s.tasks[d], d) == [Settle(d, Rejected(true))] + [End(d)];
    case Settled => ExecOne(s, End(d));
  }

  /** The remaining handlers take their last steps, one after the other. */
  lemma {:induction false} AllFinish(s: State) returns (run: seq<Action>)
    requires Inv(s) && s.phase.Cancelling?
    ensures forall action | action in run :: action.Abort? || action.Settle? || action.End?
    ensures ExecFrom(s, run).phase.Cancelling? && Unfinished(ExecFrom(s, run).tasks) == {}
    decreases |Unfinished(s.tasks)|
  {
    hide Inv, Step;
    if Unfinished(s.tasks) == {} {
      run := [];
    } else {
      var d :| d in Unfinished(s.tasks);
      var steps := LastSteps(s.tasks[d], d);
      HandlerFinishes(s, d);
      InvKept(s, steps);
      var rest := AllFinish(ExecFrom(s, steps));
      ExecConcat(s, steps, rest);
      run := steps + rest;
    }
  }

  lemma ClosesFromCancelling(s: State) returns (run: seq<Action>)
    requires Inv(s) && s.phase.Cancelling?
    ensures forall action | action in run :: LastStep(action)
    ensures ExecFrom(s, run).phase.Closed?
  {
    hide Inv;
    var finishing := AllFinish(s);
    var gathered := ExecFrom(s, finishing);
    ExecOne(gathered, HandlersGathered);
    ExecOne(Step(gathered, HandlersGathered), Disconnected);
    ExecConcat(gathered, [HandlersGathered], [Disconnected]);
    ExecConcat(s, finishing, [HandlersGathered] + [Disconnected]);
    run := finishing + ([HandlersGathered] + [Disconnected]);
  }

  /** A step of the stop, or one that takes a handler nearer to its end. */
  predicate LastStep(action: Action) {
    !action.Deliver? && !action.Begin? && !action.FailToSettle? && !action.Unregister?
  }

  function StopSteps(): seq<Action> {
    [StopRequested, AcceptingStopped, DrainEnded, CancelHandlers]
  }

  lemma StopStepsCancel(s: State)
    ensures var after := ExecFrom(s, StopSteps()).phase;
            after == if Rank(s.phase) <= 4 then Cancelling else s.phase
  {
    hide Unfinished;
    ExecThree(s, StopRequested, AcceptingStopped, DrainEnded);
    var ending := ExecFrom(s, [StopRequested, AcceptingStopped, DrainEnded]);
    ExecOne(ending, CancelHandlers);
    ExecConcat(s, [StopRequested, AcceptingStopped, DrainEnded], [CancelHandlers]);
    assert StopSteps() == [StopRequested, AcceptingStopped, DrainEnded] + [CancelHandlers];
  }

  /**
    From every reachable state the steps of the stop and the last steps of the handlers close the
    service: a stop can always get through, whatever it finds.
   */
  lemma StopGetsThrough(s: State) returns (run: seq<Action>)
    requires Inv(s)
    ensures forall action | action in run :: LastStep(action)
    ensures ExecFrom(s, run).phase.Closed?
  {
    hide Inv, Step;
    StopStepsCancel(s);
    InvKept(s, StopSteps());
    var asked := ExecFrom(s, StopSteps());
    if asked.phase.Cancelling? {
      var rest := ClosesFromCancelling(asked);
      ExecConcat(s, StopSteps(), rest);
      run := StopSteps() + rest;
    } else {
      ExecOne(asked, Disconnected);
      Disconnects(asked);
      ExecConcat(s, StopSteps(), [Disconnected]);
      run := StopSteps() + [Disconnected];
    }
  }

  lemma Disconnects(s: State)
    requires s.phase.Disconnecting? || s.phase.Closed?
    ensures Step(s, Disconnected).phase.Closed?
  {
  }
}
