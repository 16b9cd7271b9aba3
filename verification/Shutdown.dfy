/**
  The stop of a service in three phases (kontiki/container.py) against the deliveries that keep
  arriving and the handlers that keep running while it awaits (kontiki/messaging/consumer).
 */
module Shutdown {
  import opened Settlement

  type Delivery = nat

  /**
    A handler task: created, running with its scope open and the delivery unsettled, past the
    settlement with its scope still open, or ended and not yet unregistered.
   */
  datatype Stage = Created | Open | Settled | Ended

  /** How far the stop has come; it awaits something in every phase after the first. */
  datatype Phase = Serving | StopAccepting | Draining | ForceClosing | Cancelling | Disconnecting | Closed

  datatype State = State(
    phase: Phase,
    tasks: map<Delivery, Stage>,
    count: int,
    empty: bool,
    delivered: set<Delivery>,
    begun: set<Delivery>,
    cancelled: set<Delivery>,
    settled: seq<(Delivery, Verdict)>)

  datatype Action =
    | Deliver(d: Delivery)
    | Begin(d: Delivery)
    | Abort(d: Delivery)
    | Settle(d: Delivery, verdict: Verdict)
    | FailToSettle(d: Delivery)
    | End(d: Delivery)
    | Unregister(d: Delivery)
    | StopRequested
    | AcceptingStopped
    | DrainEnded
    | CancelHandlers
    | HandlersGathered
    | Disconnected

  const START := State(Serving, map[], 0, true, {}, {}, {}, [])

  predicate At(s: State, d: Delivery, stage: Stage) {
    d in s.tasks && s.tasks[d] == stage
  }

  function Moved(s: State, d: Delivery, stage: Stage): State {
    s.(tasks := s.tasks[d := stage])
  }

  /** The handlers that have not ended. */
  function Unfinished(tasks: map<Delivery, Stage>): set<Delivery> {
    set d | d in tasks && !tasks[d].Ended?
  }

  function OpenScopes(tasks: map<Delivery, Stage>): set<Delivery> {
    set d | d in tasks && (tasks[d].Open? || tasks[d].Settled?)
  }

  /** The callback of a consumer: during a shutdown the delivery goes straight back. */
  function Delivered(s: State, d: Delivery): State {
    if d in s.delivered || s.phase.Closed? then s
    else if s.phase.Serving? then Moved(s, d, Created).(delivered := s.delivered + {d})
    else s.(delivered := s.delivered + {d}, settled := s.settled + [(d, Nacked)])
  }

  /** The steps of handlers; one that is cancelled before it began never runs. */
  function HandlerStep(s: State, action: Action): State {
    match action
    case Begin(d) =>
      if At(s, d, Created) && d !in s.cancelled
      then Moved(s, d, Open).(begun := s.begun + {d}, count := s.count + 1,
                              empty := if s.count + 1 == 1 then false else s.empty)
      else s
    case Abort(d) => if At(s, d, Created) && d in s.cancelled then Moved(s, d, Ended) else s
    case Settle(d, verdict) =>
      if At(s, d, Open) && !verdict.Nacked? && !s.phase.Closed?
      then Moved(s, d, Settled).(settled := s.settled + [(d, verdict)])
      else s
    case FailToSettle(d) => if At(s, d, Open) then Moved(s, d, Settled) else s
    case End(d) =>
      if At(s, d, Settled)
      then Moved(s, d, Ended).(count := s.count - 1, empty := if s.count - 1 == 0 then true else s.empty)
      else s
    case Unregister(d) => if At(s, d, Ended) then s.(tasks := s.tasks - {d}) else s
    case _ => s
  }

  /** The steps of the stop, each taken only when the await before it can return. */
  function StopStep(s: State, action: Action): State {
    match action
    case StopRequested => if s.phase.Serving? then s.(phase := StopAccepting) else s
    case AcceptingStopped => if s.phase.StopAccepting? then s.(phase := Draining) else s
    case DrainEnded => if s.phase.Draining? then s.(phase := ForceClosing) else s
    case CancelHandlers =>
      if s.phase.ForceClosing? then s.(phase := Cancelling, cancelled := s.cancelled + Unfinished(s.tasks)) else s
    case HandlersGathered =>
      if s.phase.Cancelling? && Unfinished(s.tasks) == {} then s.(phase := Disconnecting, tasks := map[]) else s
    case Disconnected => if s.phase.Disconnecting? then s.(phase := Closed) else s
    case _ => s
  }

  function Step(s: State, action: Action): State {
    if action.Deliver? then Delivered(s, action.d) else StopStep(HandlerStep(s, action), action)
  }

  function ExecFrom(s: State, run: seq<Action>): State {
    if |run| == 0 then s else Step(ExecFrom(s, run[..|run| - 1]), run[|run| - 1])
  }

  function Exec(run: seq<Action>): State {
    ExecFrom(START, run)
  }

  // ---------------------------------------------------------------------------------------------
  // Every reachable state
  // ---------------------------------------------------------------------------------------------

  function Settlements(log: seq<(Delivery, Verdict)>, d: Delivery): nat {
    if |log| == 0 then 0
    else Settlements(log[..|log| - 1], d) + if log[|log| - 1].0 == d then 1 else 0
  }

  /** What the stage of a handler says about its delivery. */
  predicate Accounted(s: State, d: Delivery) {
    var times := Settlements(s.settled, d);
    && times <= 1
    && (d !in s.delivered ==> times == 0 && d !in s.begun && d !in s.tasks && d !in s.cancelled)
    && (d in s.cancelled && d !in s.begun ==> times == 0)
    && (d in s.tasks && s.tasks[d].Created? ==> times == 0 && d !in s.begun)
    && (d in s.tasks && s.tasks[d].Open? ==> times == 0 && d in s.begun)
    && (d in s.tasks && s.tasks[d].Settled? ==> d in s.begun)
    && (d in s.cancelled ==> s.phase.Cancelling? || s.phase.Disconnecting? || s.phase.Closed?)
  }

  /** A delivery without a settlement was cancelled before its handler began, or still waits for it. */
  predicate Explained(s: State, d: Delivery) {
    d in s.delivered && Settlements(s.settled, d) == 0 ==>
      (d !in s.begun && d in s.cancelled) || At(s, d, Created) || At(s, d, Open)
  }

  ghost predicate Inv(s: State) {
    && (forall d :: Accounted(s, d))
    && Counted(s) && Quiet(s)
  }

  lemma LogGrows(log: seq<(Delivery, Verdict)>, x: (Delivery, Verdict), d: Delivery)
    ensures Settlements(log + [x], d) == Settlements(log, d) + if x.0 == d then 1 else 0
  {
    assert (log + [x])[..|log|] == log;
  }

  /** The only delivery a step of its own concerns. */
  function Settling(s: State, action: Action): (Delivery, Verdict) {
    match action
    case Deliver(d) => (d, Nacked)
    case Settle(d, verdict) => (d, verdict)
    case _ => (0, Nacked)
  }

  lemma StepKeepsAccounted(s: State, action: Action, d: Delivery)
    requires Accounted(s, d)
    ensures Accounted(Step(s, action), d)
  {
    hide Settlements;
    LogGrows(s.settled, Settling(s, action), d);
    match action
    case Deliver(_) =>
    case Begin(_) =>
    case Abort(_) =>
    case Settle(_, _) =>
    case FailToSettle(_) =>
    case End(_) =>
    case Unregister(_) =>
    case _ => hide HandlerStep; assert HandlerStep(s, action) == s by { StopLeavesHandlers(s, action); }
  }

  lemma StopLeavesHandlers(s: State, action: Action)
    requires action.StopRequested? || action.AcceptingStopped? || action.DrainEnded? || action.CancelHandlers?
             || action.HandlersGathered? || action.Disconnected?
    ensures HandlerStep(s, action) == s
  {
  }

  lemma StepKeepsExplained(s: State, action: Action, d: Delivery)
    requires Accounted(s, d) && Explained(s, d) && !action.FailToSettle?
    requires s.phase.Cancelling? ==> Unfinished(s.tasks) <= s.cancelled
    ensures Explained(Step(s, action), d)
  {
    hide Settlements;
    LogGrows(s.settled, Settling(s, action), d);
    if action.HandlersGathered? && s.phase.Cancelling? {
      assert d in s.tasks && !s.tasks[d].Ended? ==> d in Unfinished(s.tasks);
    }
  }

  predicate Counted(s: State) {
    s.count == |OpenScopes(s.tasks)| && (s.empty <==> s.count == 0)
  }

  lemma BeginKeepsCount(s: State, d: Delivery)
    requires Counted(s)
    ensures Counted(HandlerStep(s, Begin(d)))
  {
    if At(s, d, Created) && d !in s.cancelled {
      var open := OpenScopes(s.tasks);
      assert OpenScopes(Moved(s, d, Open).tasks) == open + {d} && d !in open;
    }
  }

  lemma EndKeepsCount(s: State, d: Delivery)
    requires Counted(s)
    ensures Counted(HandlerStep(s, End(d)))
  {
    if At(s, d, Settled) {
      var open := OpenScopes(s.tasks);
      assert OpenScopes(Moved(s, d, Ended).tasks) == open - {d} && d in open;
    }
  }

  lemma HandlerKeepsCount(s: State, action: Action)
    requires Counted(s)
    ensures Counted(HandlerStep(s, action))
  {
    match action
    case Begin(d) => BeginKeepsCount(s, d);
    case End(d) => EndKeepsCount(s, d);
    case _ => assert OpenScopes(HandlerStep(s, action).tasks) == OpenScopes(s.tasks);
  }

  lemma StepKeepsCount(s: State, action: Action)
    requires Counted(s) && forall d :: Accounted(s, d)
    ensures Counted(Step(s, action))
  {
    hide HandlerStep;
    HandlerKeepsCount(s, action);
    if action.Deliver? {
      assert Accounted(s, action.d);
      assert OpenScopes(Delivered(s, action.d).tasks) == OpenScopes(s.tasks);
    } else if action.HandlersGathered? && Unfinished(HandlerStep(s, action).tasks) == {} {
      var tasks := HandlerStep(s, action).tasks;
      assert forall d | d in OpenScopes(tasks) :: d in Unfinished(tasks);
      assert OpenScopes(tasks) == {} && OpenScopes(map[]) == {};
    }
  }

  predicate Quiet(s: State) {
    && (s.phase.Cancelling? ==> Unfinished(s.tasks) <= s.cancelled)
    && (s.phase.Disconnecting? || s.phase.Closed? ==> s.tasks == map[])
  }

  lemma StepKeepsQuiet(s: State, action: Action)
    requires Quiet(s)
    ensures Quiet(Step(s, action))
  {
    var after := Step(s, action);
    if s.phase.Cancelling? {
      forall d | d in after.tasks && !after.tasks[d].Ended? ensures d in after.cancelled {
        assert d in Unfinished(s.tasks);
      }
    }
  }

  lemma StepKeepsInv(s: State, action: Action)
    requires Inv(s)
    ensures Inv(Step(s, action))
  {
    hide Step, Accounted, Counted, Quiet;
    forall d ensures Accounted(Step(s, action), d) {
      StepKeepsAccounted(s, action, d);
    }
    StepKeepsCount(s, action);
    StepKeepsQuiet(s, action);
  }

  lemma {:induction false} RunKeepsInv(run: seq<Action>)
    ensures Inv(Exec(run))
  {
    hide Step, Inv;
    if |run| == 0 {
      StartInv();
    } else {
      RunKeepsInv(run[..|run| - 1]);
      StepKeepsInv(Exec(run[..|run| - 1]), run[|run| - 1]);
    }
  }

  lemma StartInv()
    ensures Inv(START)
  {
    assert OpenScopes(map[]) == {};
  }

  /** In every run the counter is the number of open scopes, and the event is set exactly when there is none. */
  lemma CountsOpenScopes(run: seq<Action>)
    ensures var s := Exec(run);
            s.count == |OpenScopes(s.tasks)| && (s.empty <==> OpenScopes(s.tasks) == {})
  {
    hide Exec, Accounted, Quiet, OpenScopes;
    RunKeepsInv(run);
  }

  /** While the event is set, the only unfinished handlers are tasks that have not begun. */
  lemma DrainedButUnbegun(run: seq<Action>)
    requires Exec(run).empty
    ensures var s := Exec(run); forall d | d in Unfinished(s.tasks) :: s.tasks[d].Created? && d !in s.begun
  {
    hide Exec, Quiet;
    RunKeepsInv(run);
    var s := Exec(run);
    forall d | d in Unfinished(s.tasks) ensures s.tasks[d].Created? && d !in s.begun {
      assert Accounted(s, d);
      assert d !in OpenScopes(s.tasks);
    }
  }

  // ---------------------------------------------------------------------------------------------
  // Once the service is shutting down
  // ---------------------------------------------------------------------------------------------

  /** No handler task appears, and none begins whose task was not there. */
  lemma StepStartsNothing(s: State, action: Action)
    requires !s.phase.Serving?
    ensures var after := Step(s, action);
            !after.phase.Serving? && after.tasks.Keys <= s.tasks.Keys && after.begun <= s.begun + s.tasks.Keys
  {
  }

  /**
    From the moment the service is shutting down, handler tasks only disappear and every delivery
    that arrives is given back at once.
   */
  lemma {:induction false} NoNewHandlers(s: State, run: seq<Action>)
    requires !s.phase.Serving? && forall d :: Accounted(s, d)
    ensures var after := ExecFrom(s, run);
            && !after.phase.Serving?
            && after.tasks.Keys <= s.tasks.Keys && after.begun <= s.begun + s.tasks.Keys
            && (forall d | d in after.delivered - s.delivered :: (d, Nacked) in after.settled)
  {
    hide Step, Accounted;
    if |run| > 0 {
      var before, action := ExecFrom(s, run[..|run| - 1]), run[|run| - 1];
      NoNewHandlers(s, run[..|run| - 1]);
      StepStartsNothing(before, action);
      StepGivesBack(before, action);
    }
  }

  lemma StepGivesBack(s: State, action: Action)
    requires !s.phase.Serving?
    ensures var after := Step(s, action);
            && s.settled <= after.settled && s.delivered <= after.delivered
            && forall d | d in after.delivered - s.delivered :: (d, Nacked) in after.settled
  {
    if action.Deliver? {
      assert (s.settled + [(action.d, Nacked)])[|s.settled|] == (action.d, Nacked);
    }
  }

  /**
    After the force close no handler remains and nothing is in flight. Unless settling itself
    failed, every delivery was settled exactly once, except those whose handler was cancelled
    before it began: these were never settled, and go back with the closed connection.
   */
  lemma ClosedAccounts(run: seq<Action>)
    requires Exec(run).phase.Closed?
    ensures var s := Exec(run);
            && s.tasks == map[] && s.count == 0 && s.empty
            && (forall d :: Settlements(s.settled, d) <= 1)
            && ((forall action | action in run :: !action.FailToSettle?) ==>
                 forall d | d in s.delivered ::
                   Settlements(s.settled, d) == if d in s.cancelled && d !in s.begun then 0 else 1)
  {
    hide Exec, Settlements;
    RunKeepsInv(run);
    var s := Exec(run);
    assert OpenScopes(map[]) == {};
    forall d ensures Settlements(s.settled, d) <= 1 {
      assert Accounted(s, d);
    }
    if forall action | action in run :: !action.FailToSettle? {
      forall d | d in s.delivered
        ensures Settlements(s.settled, d) == if d in s.cancelled && d !in s.begun then 0 else 1
      {
        assert Accounted(s, d);
        RunExplains(run, d);
      }
    }
  }

  lemma {:induction false} RunExplains(run: seq<Action>, d: Delivery)
    requires forall action | action in run :: !action.FailToSettle?
    ensures Explained(Exec(run), d)
  {
    hide Step, Accounted, Counted, Explained;
    if |run| == 0 {
      StartExplained(d);
    } else {
      var s, action := Exec(run[..|run| - 1]), run[|run| - 1];
      RunExplains(run[..|run| - 1], d);
      RunKeepsInv(run[..|run| - 1]);
      StepKeepsExplained(s, action, d);
    }
  }

  lemma StartExplained(d: Delivery)
    ensures Explained(START, d)
  {
  }

  // ---------------------------------------------------------------------------------------------
  // The phases
  // ---------------------------------------------------------------------------------------------

  function Rank(phase: Phase): nat {
    match phase
    case Serving => 0
    case StopAccepting => 1
    case Draining => 2
    case ForceClosing => 3
    case Cancelling => 4
    case Disconnecting => 5
    case Closed => 6
  }

  lemma StepRank(s: State, action: Action)
    ensures Rank(s.phase) <= Rank(Step(s, action).phase) <= Rank(s.phase) + 1
    ensures action.StopRequested? && !s.phase.Serving? ==> Step(s, action) == s
  {
  }

  /** The stop goes through its phases in order and skips none; a second stop changes nothing. */
  lemma {:induction false} PhasesInOrder(run: seq<Action>, rank: nat)
    requires rank <= Rank(Exec(run).phase)
    ensures exists k :: 0 <= k <= |run| && Rank(Exec(run[..k]).phase) == rank
                        && forall j | k <= j <= |run| :: Rank(Exec(run[..j]).phase) >= rank
  {
    hide Step, Rank;
    assert run[..|run|] == run;
    if rank == Rank(Exec(run).phase) {
      assert Rank(Exec(run[..|run|]).phase) == rank;
    } else if |run| == 0 {
      StartRank();
    } else {
      var init := run[..|run| - 1];
      StepRank(Exec(init), run[|run| - 1]);
      PhasesInOrder(init, rank);
      var k :| 0 <= k <= |init| && Rank(Exec(init[..k]).phase) == rank
               && forall j | k <= j <= |init| :: Rank(Exec(init[..j]).phase) >= rank;
      assert init[..k] == run[..k];
      forall j | k <= j <= |run| ensures Rank(Exec(run[..j]).phase) >= rank {
        if j <= |init| {
          assert init[..j] == run[..j];
        }
      }
    }
  }

  lemma StartRank()
    ensures Rank(START.phase) == 0
  {
  }
}
