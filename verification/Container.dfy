/**
  ServiceContainer.stop and the consumer it stops (kontiki/container.py,
  kontiki/messaging/consumer): the same steps as in Shutdown, taken by methods on shared state.
 */
module Container {
  import opened Wrappers
  import opened InFlight
  import opened Settlement
  import opened Shutdown
  import Ordering

  datatype TaskCall = StopTask | DrainTask | ForceStopTask

  /** What the stop asks of the parts of the service. */
  datatype Call =
    | HttpStopAccepting
    | ConsumerStopAccepting
    | RegistryStopAccepting
    | RegistryUnregister
    | HttpDrain
    | ConsumerDrain
    | ConsumerForceClose
    | RegistryStop
    | StopDelegate(name: string)
    | OnTask(call: TaskCall, task: nat)

  const HEARTBEAT := "_kontiki_heartbeat"

  /** The parts of a service that is connected. */
  datatype Parts = Parts(http: bool, tasks: nat, delegates: seq<string>, registry: bool, registered: bool)

  function EachTask(call: TaskCall, tasks: nat): seq<Call> {
    if tasks == 0 then [] else EachTask(call, tasks - 1) + [OnTask(call, tasks - 1)]
  }

  function When(condition: bool, call: Call): seq<Call> {
    if condition then [call] else []
  }

  function AcceptingCalls(parts: Parts): seq<Call> {
    When(parts.http, HttpStopAccepting) + [ConsumerStopAccepting] + EachTask(StopTask, parts.tasks)
    + When(HEARTBEAT in parts.delegates, StopDelegate(HEARTBEAT))
    + When(parts.registry, RegistryStopAccepting) + When(parts.registry && parts.registered, RegistryUnregister)
  }

  function DrainCalls(parts: Parts): seq<Call> {
    When(parts.http, HttpDrain) + [ConsumerDrain] + EachTask(DrainTask, parts.tasks)
  }

  /** Every delegate but the heartbeat, in the given order. */
  function StopDelegates(names: seq<string>): seq<Call> {
    if |names| == 0 then []
    else StopDelegates(names[..|names| - 1])
         + When(names[|names| - 1] != HEARTBEAT, StopDelegate(names[|names| - 1]))
  }

  /** What follows once the consumer is closed. */
  function CallsAfterClose(parts: Parts): seq<Call> {
    EachTask(ForceStopTask, parts.tasks) + StopDelegates(Ordering.Sort(parts.delegates))
    + When(parts.registry, RegistryStop) + When(parts.http, HttpDrain)
  }

  function ClosingCalls(parts: Parts): seq<Call> {
    [ConsumerForceClose] + CallsAfterClose(parts)
  }

  // ---------------------------------------------------------------------------------------------
  // What is called how often
  // ---------------------------------------------------------------------------------------------

  function Times(calls: seq<Call>, call: Call): nat {
    if |calls| == 0 then 0
    else Times(calls[..|calls| - 1], call) + if calls[|calls| - 1] == call then 1 else 0
  }

  lemma {:induction false} TimesConcat(a: seq<Call>, b: seq<Call>, call: Call)
    ensures Times(a + b, call) == Times(a, call) + Times(b, call)
  {
    if |b| == 0 {
      assert a + b == a;
    } else {
      assert (a + b)[..|a + b| - 1] == a + b[..|b| - 1];
      TimesConcat(a, b[..|b| - 1], call);
    }
  }

  lemma {:induction false} TaskTimes(kind: TaskCall, tasks: nat, call: Call)
    ensures Times(EachTask(kind, tasks), call) ==
            if call.OnTask? && call.call == kind && call.task < tasks then 1 else 0
  {
    if tasks > 0 {
      TaskTimes(kind, tasks - 1, call);
    }
  }

  lemma TimesWhen(condition: bool, one: Call, call: Call)
    ensures Times(When(condition, one), call) == if condition && one == call then 1 else 0
  {
    assert When(condition, one) == [one] || When(condition, one) == [];
    assert Times([one], call) == if one == call then 1 else 0;
  }

  lemma {:induction false} DelegateTimes(names: seq<string>, call: Call)
    requires Distinct(names)
    ensures Times(StopDelegates(names), call) ==
            if call.StopDelegate? && call.name in names && call.name != HEARTBEAT then 1 else 0
  {
    hide Times, When;
    if |names| == 0 {
      TimesWhen(false, call, call);
      NothingWhenFalse(call);
    } else {
      var init, last := names[..|names| - 1], names[|names| - 1];
      DelegateTimes(init, call);
      TimesConcat(StopDelegates(init), When(last != HEARTBEAT, StopDelegate(last)), call);
      TimesWhen(last != HEARTBEAT, StopDelegate(last), call);
      assert names == init + [last];
      assert call.StopDelegate? ==> (call.name in names <==> call.name in init || call.name == last);
    }
  }

  lemma NothingWhenFalse(call: Call)
    ensures When(false, call) == []
  {
  }

  lemma OneWhenTrue(call: Call)
    ensures When(true, call) == [call]
  {
  }

  function Once(condition: bool): nat {
    if condition then 1 else 0
  }

  /** How often a stop makes the call while it stops accepting. */
  lemma AcceptingTimes(parts: Parts, call: Call)
    ensures Times(AcceptingCalls(parts), call) ==
            match call
            case HttpStopAccepting => Once(parts.http)
            case ConsumerStopAccepting => 1
            case OnTask(kind, t) => Once(kind.StopTask? && t < parts.tasks)
            case StopDelegate(name) => Once(name == HEARTBEAT && name in parts.delegates)
            case RegistryStopAccepting => Once(parts.registry)
            case RegistryUnregister => Once(parts.registry && parts.registered)
            case _ => 0
  {
    hide Times, When, EachTask;
    TaskTimes(StopTask, parts.tasks, call);
    TimesWhen(parts.http, HttpStopAccepting, call);
    TimesWhen(true, ConsumerStopAccepting, call);
    TimesWhen(HEARTBEAT in parts.delegates, StopDelegate(HEARTBEAT), call);
    TimesWhen(parts.registry, RegistryStopAccepting, call);
    TimesWhen(parts.registry && parts.registered, RegistryUnregister, call);
    OneWhenTrue(ConsumerStopAccepting);
    TimesOfSix(When(parts.http, HttpStopAccepting), When(true, ConsumerStopAccepting),
               EachTask(StopTask, parts.tasks), When(HEARTBEAT in parts.delegates, StopDelegate(HEARTBEAT)),
               When(parts.registry, RegistryStopAccepting),
               When(parts.registry && parts.registered, RegistryUnregister), call);
  }

  lemma DrainTimes(parts: Parts, call: Call)
    ensures Times(DrainCalls(parts), call) ==
            match call
            case HttpDrain => Once(parts.http)
            case ConsumerDrain => 1
            case OnTask(kind, t) => Once(kind.DrainTask? && t < parts.tasks)
            case _ => 0
  {
    hide Times, When, EachTask;
    var http, consumer := When(parts.http, HttpDrain), When(true, ConsumerDrain);
    TaskTimes(DrainTask, parts.tasks, call);
    TimesWhen(parts.http, HttpDrain, call);
    TimesWhen(true, ConsumerDrain, call);
    OneWhenTrue(ConsumerDrain);
    TimesConcat(http, consumer, call);
    TimesConcat(http + consumer, EachTask(DrainTask, parts.tasks), call);
  }

  lemma ClosingTimes(parts: Parts, call: Call)
    requires Distinct(parts.delegates)
    ensures Times(ClosingCalls(parts), call) ==
            match call
            case ConsumerForceClose => 1
            case OnTask(kind, t) => Once(kind.ForceStopTask? && t < parts.tasks)
            case StopDelegate(name) => Once(name != HEARTBEAT && name in parts.delegates)
            case RegistryStop => Once(parts.registry)
            case HttpDrain => Once(parts.http)
            case _ => 0
  {
    hide Times, When, EachTask, StopDelegates, Ordering.Sort, Distinct;
    var consumer, sorted := When(true, ConsumerForceClose), Ordering.Sort(parts.delegates);
    var registry, http := When(parts.registry, RegistryStop), When(parts.http, HttpDrain);
    TaskTimes(ForceStopTask, parts.tasks, call);
    TimesWhen(true, ConsumerForceClose, call);
    TimesWhen(parts.registry, RegistryStop, call);
    TimesWhen(parts.http, HttpDrain, call);
    OneWhenTrue(ConsumerForceClose);
    SortedDistinct(parts.delegates);
    DelegateTimes(sorted, call);
    var tasks, delegates := EachTask(ForceStopTask, parts.tasks), StopDelegates(sorted);
    TimesConcat(consumer, CallsAfterClose(parts), call);
    TimesConcat(tasks, delegates, call);
    TimesConcat(tasks + delegates, registry, call);
    TimesConcat(tasks + delegates + registry, http, call);
  }

  /** All calls of a stop that got through. */
  function StopCalls(parts: Parts): seq<Call> {
    AcceptingCalls(parts) + DrainCalls(parts) + ClosingCalls(parts)
  }

  /**
    A stop that gets through unregisters exactly once if the service has a connected registry client
    and not at all otherwise; stops, drains and force-stops each periodic task once; stops each
    delegate once; and makes every other call once to each part the service has, but for the second
    drain of the HTTP server.
   */
  lemma EachPartStopped(parts: Parts, call: Call)
    requires Distinct(parts.delegates)
    ensures Times(StopCalls(parts), call) ==
            match call
            case OnTask(_, t) => Once(t < parts.tasks)
            case StopDelegate(name) => Once(name in parts.delegates)
            case RegistryUnregister => Once(parts.registry && parts.registered)
            case RegistryStopAccepting => Once(parts.registry)
            case RegistryStop => Once(parts.registry)
            case HttpStopAccepting => Once(parts.http)
            case HttpDrain => 2 * Once(parts.http)
            case ConsumerStopAccepting => 1
            case ConsumerDrain => 1
            case ConsumerForceClose => 1
  {
    hide Times, AcceptingCalls, DrainCalls, ClosingCalls, Distinct;
    AcceptingTimes(parts, call);
    DrainTimes(parts, call);
    ClosingTimes(parts, call);
    TimesConcat(AcceptingCalls(parts), DrainCalls(parts), call);
    TimesConcat(AcceptingCalls(parts) + DrainCalls(parts), ClosingCalls(parts), call);
  }

  // ---------------------------------------------------------------------------------------------
  // In what order
  // ---------------------------------------------------------------------------------------------

  /** Every call of the one comes before every call of the other. */
  ghost predicate Before(calls: seq<Call>, first: Call, second: Call) {
    forall i, j | 0 <= i < |calls| && 0 <= j < |calls| && calls[i] == first && calls[j] == second :: i < j
  }

  lemma {:induction false} NeverCalled(calls: seq<Call>, call: Call)
    requires Times(calls, call) == 0
    ensures call !in calls
  {
    if |calls| > 0 {
      NeverCalled(calls[..|calls| - 1], call);
      assert calls == calls[..|calls| - 1] + [calls[|calls| - 1]];
    }
  }

  lemma BeforeAcross(a: seq<Call>, b: seq<Call>, first: Call, second: Call)
    requires Times(a, second) == 0 && Times(b, first) == 0
    ensures Before(a + b, first, second)
  {
    NeverCalled(a, second);
    NeverCalled(b, first);
    assert forall j | 0 <= j < |a| :: (a + b)[j] == a[j];
    assert forall i | 0 <= i < |b| :: (a + b)[|a| + i] == b[i];
  }

  lemma BeforeInside(a: seq<Call>, b: seq<Call>, c: seq<Call>, first: Call, second: Call)
    requires Before(b, first, second) && first !in a && second !in a && first !in c && second !in c
    ensures Before(a + b + c, first, second)
  {
    var all := a + b + c;
    forall i, j | 0 <= i < |all| && 0 <= j < |all| && all[i] == first && all[j] == second ensures i < j {
      assert |a| <= i < |a| + |b| && b[i - |a|] == first;
      assert |a| <= j < |a| + |b| && b[j - |a|] == second;
    }
  }

  predicate IsDrain(call: Call) {
    call.HttpDrain? || call.ConsumerDrain? || (call.OnTask? && call.call.DrainTask?)
  }

  predicate IsAccepting(call: Call) {
    call.HttpStopAccepting? || call.ConsumerStopAccepting? || call.RegistryStopAccepting? || call.RegistryUnregister?
    || (call.OnTask? && call.call.StopTask?) || call == StopDelegate(HEARTBEAT)
  }

  predicate IsClosing(call: Call) {
    call.ConsumerForceClose? || call.RegistryStop? || (call.OnTask? && call.call.ForceStopTask?)
    || (call.StopDelegate? && call.name != HEARTBEAT)
  }

  /**
    A stop that gets through takes in no more work before it drains anything, and closes nothing
    before it drained the consumer and every task; it unregisters only after the heartbeat stopped,
    so that no heartbeat follows, and it closes the consumer before it stops anything else by force.
   */
  lemma StopInOrder(parts: Parts, accepting: Call, drain: Call, closing: Call)
    requires Distinct(parts.delegates) && IsAccepting(accepting) && IsDrain(drain) && IsClosing(closing)
    ensures Before(StopCalls(parts), accepting, drain)
    ensures Before(StopCalls(parts), accepting, closing)
    ensures !drain.HttpDrain? ==> Before(StopCalls(parts), drain, closing)
    ensures !accepting.RegistryUnregister? ==> Before(StopCalls(parts), accepting, RegistryUnregister)
    ensures !closing.ConsumerForceClose? ==> Before(StopCalls(parts), ConsumerForceClose, closing)
  {
    hide Times, AcceptingCalls, DrainCalls, ClosingCalls, Distinct, Before;
    var a, d, c := AcceptingCalls(parts), DrainCalls(parts), ClosingCalls(parts);
    assert a + d + c == a + (d + c);
    PhaseOf(parts, accepting);
    PhaseOf(parts, drain);
    PhaseOf(parts, closing);
    BeforeAcross(a, d + c, accepting, drain);
    BeforeAcross(a, d + c, accepting, closing);
    if !drain.HttpDrain? {
      BeforeAcross(a + d, c, drain, closing);
    }
    if !accepting.RegistryUnregister? {
      UnregisterLast(parts, accepting);
      NotIn(d + c, accepting);
      PhaseOf(parts, RegistryUnregister);
      NotIn(d + c, RegistryUnregister);
      BeforeInside([], a, d + c, accepting, RegistryUnregister);
      assert [] + a + (d + c) == a + d + c;
    }
    if !closing.ConsumerForceClose? {
      CloseFirst(parts, closing);
      PhaseOf(parts, ConsumerForceClose);
      NotIn(a + d, closing);
      NotIn(a + d, ConsumerForceClose);
      BeforeInside(a + d, c, [], ConsumerForceClose, closing);
      assert a + d + c + [] == a + d + c;
    }
  }

  lemma NotIn(calls: seq<Call>, call: Call)
    requires Times(calls, call) == 0
    ensures call !in calls
  {
    NeverCalled(calls, call);
  }

  /** In which phases a call is not made. */
  lemma PhaseOf(parts: Parts, call: Call)
    requires Distinct(parts.delegates)
    ensures var a, d, c := AcceptingCalls(parts), DrainCalls(parts), ClosingCalls(parts);
            && (IsAccepting(call) ==> Times(d + c, call) == 0)
            && (IsDrain(call) ==> Times(a, call) == 0 && (!call.HttpDrain? ==> Times(c, call) == 0))
            && (IsClosing(call) ==> Times(a, call) == 0 && Times(a + d, call) == 0)
  {
    hide Times, AcceptingCalls, DrainCalls, ClosingCalls, Distinct;
    AcceptingTimes(parts, call);
    DrainTimes(parts, call);
    ClosingTimes(parts, call);
    TimesConcat(AcceptingCalls(parts), DrainCalls(parts), call);
    TimesConcat(DrainCalls(parts), ClosingCalls(parts), call);
  }

  /** Nothing follows the unregistration while the service stops accepting. */
  lemma UnregisterLast(parts: Parts, accepting: Call)
    requires IsAccepting(accepting) && !accepting.RegistryUnregister?
    ensures Before(AcceptingCalls(parts), accepting, RegistryUnregister)
  {
    hide Times, When, EachTask, Before;
    var unregister := When(parts.registry && parts.registered, RegistryUnregister);
    var before := When(parts.http, HttpStopAccepting) + [ConsumerStopAccepting] + EachTask(StopTask, parts.tasks)
                  + When(HEARTBEAT in parts.delegates, StopDelegate(HEARTBEAT))
                  + When(parts.registry, RegistryStopAccepting);
    AcceptingTimes(parts, RegistryUnregister);
    TimesConcat(before, unregister, RegistryUnregister);
    TimesWhen(parts.registry && parts.registered, RegistryUnregister, RegistryUnregister);
    TimesWhen(parts.registry && parts.registered, RegistryUnregister, accepting);
    BeforeAcross(before, unregister, accepting, RegistryUnregister);
  }

  lemma CloseFirst(parts: Parts, closing: Call)
    requires Distinct(parts.delegates) && IsClosing(closing) && !closing.ConsumerForceClose?
    ensures Before(ClosingCalls(parts), ConsumerForceClose, closing)
  {
    hide Times, When, CallsAfterClose, Before, Distinct;
    ClosingTimes(parts, ConsumerForceClose);
    TimesConcat([ConsumerForceClose], CallsAfterClose(parts), ConsumerForceClose);
    TimesWhen(true, ConsumerForceClose, ConsumerForceClose);
    TimesWhen(true, ConsumerForceClose, closing);
    OneWhenTrue(ConsumerForceClose);
    BeforeAcross([ConsumerForceClose], CallsAfterClose(parts), ConsumerForceClose, closing);
  }

  /** The turn of a call while the service stops accepting. */
  function AcceptingTurn(call: Call): nat {
    match call
    case HttpStopAccepting => 0
    case ConsumerStopAccepting => 1
    case OnTask(_, _) => 2
    case StopDelegate(_) => 3
    case RegistryStopAccepting => 4
    case _ => 5
  }

  /** The turn of a call while the service closes. */
  function ClosingTurn(call: Call): nat {
    match call
    case ConsumerForceClose => 0
    case OnTask(_, _) => 1
    case StopDelegate(_) => 2
    case RegistryStop => 3
    case _ => 4
  }

  /** The calls come turn by turn, those on tasks in their order and those on delegates in order of name. */
  ghost predicate InTurn(calls: seq<Call>, turn: Call -> nat) {
    forall i, j | 0 <= i < j < |calls| ::
      || turn(calls[i]) < turn(calls[j])
      || (calls[i].OnTask? && calls[j].OnTask? && calls[i].task < calls[j].task)
      || (calls[i].StopDelegate? && calls[j].StopDelegate? && Ordering.Less(calls[i].name, calls[j].name))
  }

  lemma InTurnConcat(a: seq<Call>, b: seq<Call>, turn: Call -> nat, n: nat)
    requires InTurn(a, turn) && InTurn(b, turn)
    requires (forall call | call in a :: turn(call) < n) && (forall call | call in b :: turn(call) >= n)
    ensures InTurn(a + b, turn)
  {
    assert forall i | 0 <= i < |a| :: (a + b)[i] == a[i] && a[i] in a;
    assert forall i | |a| <= i < |a + b| :: (a + b)[i] == b[i - |a|] && b[i - |a|] in b;
  }

  lemma {:induction false} TasksInTurn(kind: TaskCall, tasks: nat, turn: Call -> nat)
    ensures InTurn(EachTask(kind, tasks), turn)
    ensures |EachTask(kind, tasks)| == tasks && forall t | 0 <= t < tasks :: EachTask(kind, tasks)[t] == OnTask(kind, t)
  {
    if tasks > 0 {
      TasksInTurn(kind, tasks - 1, turn);
    }
  }

  lemma {:induction false} DelegatesInTurn(names: seq<string>, turn: Call -> nat)
    requires Ordering.StrictlySorted(names)
    ensures InTurn(StopDelegates(names), turn)
    ensures forall call | call in StopDelegates(names) :: call.StopDelegate? && call.name in names
  {
    hide Ordering.Less, InTurn;
    if |names| == 0 {
      NothingInTurn(turn);
    } else {
      var init, last := names[..|names| - 1], names[|names| - 1];
      DelegatesInTurn(init, turn);
      assert names == init + [last];
      forall name | name in init ensures Ordering.Less(name, last) {
        var k :| 0 <= k < |init| && init[k] == name;
        assert names[k] == init[k];
      }
      if last != HEARTBEAT {
        OneMoreDelegate(StopDelegates(init), last, turn);
      } else {
        assert StopDelegates(names) == StopDelegates(init);
      }
    }
  }

  lemma NothingInTurn(turn: Call -> nat)
    ensures InTurn([], turn)
  {
  }

  lemma OneMoreDelegate(calls: seq<Call>, last: string, turn: Call -> nat)
    requires InTurn(calls, turn)
    requires forall call | call in calls :: call.StopDelegate? && Ordering.Less(call.name, last)
    ensures InTurn(calls + [StopDelegate(last)], turn)
  {
    hide Ordering.Less;
    assert forall i | 0 <= i < |calls| :: (calls + [StopDelegate(last)])[i] == calls[i] && calls[i] in calls;
  }

  lemma WhenInTurn(condition: bool, call: Call, turn: Call -> nat)
    ensures InTurn(When(condition, call), turn) && forall c | c in When(condition, call) :: c == call
  {
  }

  /** Within a phase the parts are called turn by turn. */
  lemma PhasesInTurn(parts: Parts)
    requires Distinct(parts.delegates)
    ensures InTurn(AcceptingCalls(parts), AcceptingTurn)
    ensures InTurn(ClosingCalls(parts), ClosingTurn)
  {
    hide *;
    AcceptingInTurn(parts);
    ClosingInTurn(parts);
  }

  /** All calls have that turn. */
  ghost predicate AllTurn(calls: seq<Call>, turn: Call -> nat, n: nat) {
    InTurn(calls, turn) && forall call | call in calls :: turn(call) == n
  }

  lemma FiveInTurn(a: seq<Call>, b: seq<Call>, c: seq<Call>, d: seq<Call>, e: seq<Call>, turn: Call -> nat)
    requires AllTurn(a, turn, 0) && AllTurn(b, turn, 1) && AllTurn(c, turn, 2)
    requires AllTurn(d, turn, 3) && AllTurn(e, turn, 4)
    ensures InTurn(a + b + c + d + e, turn)
  {
    hide InTurn;
    InTurnConcat(a, b, turn, 1);
    InTurnConcat(a + b, c, turn, 2);
    InTurnConcat(a + b + c, d, turn, 3);
    InTurnConcat(a + b + c + d, e, turn, 4);
  }

  lemma ClosingInTurn(parts: Parts)
    requires Distinct(parts.delegates)
    ensures InTurn(ClosingCalls(parts), ClosingTurn)
  {
    hide InTurn, When, EachTask, StopDelegates, Distinct, Ordering.Sort;
    var sorted := Ordering.Sort(parts.delegates);
    var tasks, delegates := EachTask(ForceStopTask, parts.tasks), StopDelegates(sorted);
    var registry, http := When(parts.registry, RegistryStop), When(parts.http, HttpDrain);
    assert AllTurn([ConsumerForceClose], ClosingTurn, 0) by {
      WhenInTurn(true, ConsumerForceClose, ClosingTurn);
      OneWhenTrue(ConsumerForceClose);
    }
    assert AllTurn(tasks, ClosingTurn, 1) by { TasksInTurn(ForceStopTask, parts.tasks, ClosingTurn); }
    assert AllTurn(delegates, ClosingTurn, 2) by {
      SameDistinct(parts.delegates);
      Ordering.SortMembers(parts.delegates);
      DelegatesInTurn(sorted, ClosingTurn);
    }
    assert AllTurn(registry, ClosingTurn, 3) by { WhenInTurn(parts.registry, RegistryStop, ClosingTurn); }
    assert AllTurn(http, ClosingTurn, 4) by { WhenInTurn(parts.http, HttpDrain, ClosingTurn); }
    FiveInTurn([ConsumerForceClose], tasks, delegates, registry, http, ClosingTurn);
    OneThenFour(ConsumerForceClose, tasks, delegates, registry, http);
  }

  lemma OneThenFour(call: Call, b: seq<Call>, c: seq<Call>, d: seq<Call>, e: seq<Call>)
    ensures [call] + (b + c + d + e) == [call] + b + c + d + e
  {
  }

  lemma SameDistinct(names: seq<string>)
    requires Distinct(names)
    ensures forall i, j | 0 <= i < j < |names| :: names[i] != names[j]
  {
  }

  lemma AcceptingInTurn(parts: Parts)
    ensures InTurn(AcceptingCalls(parts), AcceptingTurn)
  {
    hide InTurn, When, EachTask;
    var http := When(parts.http, HttpStopAccepting);
    var heartbeat := When(HEARTBEAT in parts.delegates, StopDelegate(HEARTBEAT));
    var consumer, tasks := [ConsumerStopAccepting], EachTask(StopTask, parts.tasks);
    var accepting := When(parts.registry, RegistryStopAccepting);
    var unregister := When(parts.registry && parts.registered, RegistryUnregister);
    WhenInTurn(parts.http, HttpStopAccepting, AcceptingTurn);
    WhenInTurn(true, ConsumerStopAccepting, AcceptingTurn);
    OneWhenTrue(ConsumerStopAccepting);
    TasksInTurn(StopTask, parts.tasks, AcceptingTurn);
    WhenInTurn(HEARTBEAT in parts.delegates, StopDelegate(HEARTBEAT), AcceptingTurn);
    WhenInTurn(parts.registry, RegistryStopAccepting, AcceptingTurn);
    WhenInTurn(parts.registry && parts.registered, RegistryUnregister, AcceptingTurn);
    InTurnConcat(http, consumer, AcceptingTurn, 1);
    InTurnConcat(http + consumer, tasks, AcceptingTurn, 2);
    InTurnConcat(http + consumer + tasks, heartbeat, AcceptingTurn, 3);
    InTurnConcat(http + consumer + tasks + heartbeat, accepting, AcceptingTurn, 4);
    InTurnConcat(http + consumer + tasks + heartbeat + accepting, unregister, AcceptingTurn, 5);
  }

  /**
    A stop stops every delegate exactly once and nothing else: the heartbeat before the drain, so
    that the fleet sees the service leave, and all the others after it.
   */
  lemma DelegatesStoppedOnce(parts: Parts, name: string)
    requires Distinct(parts.delegates)
    ensures var stopped := name in parts.delegates;
            && Times(AcceptingCalls(parts), StopDelegate(name)) == (if stopped && name == HEARTBEAT then 1 else 0)
            && Times(DrainCalls(parts), StopDelegate(name)) == 0
            && Times(ClosingCalls(parts), StopDelegate(name)) == (if stopped && name != HEARTBEAT then 1 else 0)
  {
    hide Times, AcceptingCalls, DrainCalls, ClosingCalls, Distinct;
    AcceptingTimes(parts, StopDelegate(name));
    DrainTimes(parts, StopDelegate(name));
    ClosingTimes(parts, StopDelegate(name));
  }

  lemma TimesOfSix(a: seq<Call>, b: seq<Call>, c: seq<Call>, d: seq<Call>, e: seq<Call>, f: seq<Call>, call: Call)
    ensures Times(a + b + c + d + e + f, call)
         == Times(a, call) + Times(b, call) + Times(c, call) + Times(d, call) + Times(e, call) + Times(f, call)
  {
    hide Times;
    TimesConcat(a, b, call);
    TimesConcat(a + b, c, call);
    TimesConcat(a + b + c, d, call);
    TimesConcat(a + b + c + d, e, call);
    TimesConcat(a + b + c + d + e, f, call);
  }

  lemma SortedDistinct(names: seq<string>)
    requires Distinct(names)
    ensures var sorted := Ordering.Sort(names);
            && Distinct(sorted)
            && forall name :: name in sorted <==> name in names
  {
    hide Ordering.Sort;
    Ordering.SortMembers(names);
    var sorted := Ordering.Sort(names);
    forall i, j | 0 <= i < j < |sorted| ensures sorted[i] != sorted[j] {
      assert Ordering.Less(sorted[i], sorted[j]);
      Ordering.LessIrreflexive(sorted[i]);
    }
  }

  // ---------------------------------------------------------------------------------------------
  // The container
  // ---------------------------------------------------------------------------------------------

  /** What goes on while the stop awaits: deliveries and handlers. */
  predicate Environment(action: Action) {
    action.Deliver? || action.Begin? || action.Abort? || action.Settle? || action.FailToSettle? || action.End?
    || action.Unregister?
  }

  predicate AllEnvironment(env: seq<Action>) {
    forall action | action in env :: Environment(action)
  }

  lemma {:induction false} ExecConcat(s: State, a: seq<Action>, b: seq<Action>)
    ensures ExecFrom(s, a + b) == ExecFrom(ExecFrom(s, a), b)
  {
    hide Step;
    if |b| == 0 {
      assert a + b == a;
    } else {
      assert (a + b)[..|a + b| - 1] == a + b[..|b| - 1];
      ExecConcat(s, a, b[..|b| - 1]);
    }
  }

  lemma ExecOne(s: State, a: seq<Action>, action: Action)
    ensures ExecFrom(s, a + [action]) == Step(ExecFrom(s, a), action)
  {
    assert (a + [action])[..|a|] == a;
  }

  lemma ExecSingle(s: State, action: Action)
    ensures ExecFrom(s, [action]) == Step(s, action)
  {
    assert [action][..0] == [];
  }

  /** An open scope is counted. */
  lemma OpenIsCounted(s: State, d: Delivery)
    requires Inv(s) && At(s, d, Settled)
    ensures s.count > 0
  {
    assert d in OpenScopes(s.tasks);
  }

  class ServiceContainer {
    const parts: Parts
    const workInFlight: WorkInFlight
    var shuttingDown: bool
    var stopStarted: bool
    var connected: bool
    var handlerTasks: map<Delivery, Stage>
    var delivered: set<Delivery>
    var begun: set<Delivery>
    var cancelled: set<Delivery>
    var settled: seq<(Delivery, Verdict)>
    var calls: seq<Call>
    ghost var phase: Phase

    ghost function Now(): State
      reads this, workInFlight
    {
      State(phase, handlerTasks, workInFlight.count, workInFlight.empty, delivered, begun, cancelled, settled)
    }

    ghost predicate Valid()
      reads this, workInFlight
    {
      && workInFlight.Valid() && Inv(Now()) && Distinct(parts.delegates)
      && (shuttingDown <==> !phase.Serving?) && (stopStarted <==> !phase.Serving?)
      && (connected <==> !phase.Closed?)
    }

    constructor (parts: Parts)
      requires Distinct(parts.delegates)
      ensures Valid() && Now() == START && calls == [] && this.parts == parts
    {
      this.parts := parts;
      workInFlight := new WorkInFlight();
      shuttingDown, stopStarted, connected := false, false, true;
      handlerTasks, delivered, begun, cancelled, settled, calls := map[], {}, {}, {}, [], [];
      phase := Serving;
      new;
      StartInv();
    }

    /** The callback that a consumer runs for each delivery. */
    method OnMessage(d: Delivery)
      requires Valid()
      modifies this
      ensures Valid() && Now() == Step(old(Now()), Deliver(d)) && calls == old(calls)
    {
      hide Inv;
      StepKeepsInv(Now(), Deliver(d));
      if d in delivered || !connected {
        return;
      }
      delivered := delivered + {d};
      if shuttingDown {
        settled := settled + [(d, Nacked)];
      } else {
        handlerTasks := handlerTasks[d := Created];
      }
    }

    /** One step of a handler task, taken when its stage allows it. */
    method AdvanceHandler(action: Action)
      requires Valid() && Environment(action) && !action.Deliver?
      modifies this, workInFlight
      ensures Valid() && Now() == Step(old(Now()), action) && calls == old(calls)
    {
      hide Inv, OpenScopes, Unfinished;
      var d := action.d;
      StepKeepsInv(Now(), action);
      if d !in handlerTasks {
        return;
      }
      match action
      case Begin(_) =>
        if handlerTasks[d].Created? && d !in cancelled {
          workInFlight.Begin();
          handlerTasks, begun := handlerTasks[d := Open], begun + {d};
        }
      case Abort(_) =>
        if handlerTasks[d].Created? && d in cancelled {
          handlerTasks := handlerTasks[d := Ended];
        }
      case Settle(_, verdict) =>
        if handlerTasks[d].Open? && !verdict.Nacked? && connected {
          handlerTasks, settled := handlerTasks[d := Settled], settled + [(d, verdict)];
        }
      case FailToSettle(_) =>
        if handlerTasks[d].Open? {
          handlerTasks := handlerTasks[d := Settled];
        }
      case End(_) =>
        if handlerTasks[d].Settled? {
          OpenIsCounted(Now(), d);
          workInFlight.End();
          handlerTasks := handlerTasks[d := Ended];
        }
      case Unregister(_) =>
        if handlerTasks[d].Ended? {
          handlerTasks := handlerTasks - {d};
        }
    }

    /** An await of the stop: everything else goes on. */
    method Await(env: seq<Action>)
      requires Valid() && AllEnvironment(env)
      modifies this, workInFlight
      ensures Valid() && Now() == ExecFrom(old(Now()), env) && calls == old(calls) && phase == old(phase)
    {
      hide Inv, Step;
      var i := 0;
      while i < |env|
        invariant 0 <= i <= |env| && Valid() && calls == old(calls) && phase == old(phase)
        invariant Now() == ExecFrom(old(Now()), env[..i])
      {
        assert env[..i + 1] == env[..i] + [env[i]];
        ExecOne(old(Now()), env[..i], env[i]);
        EnvironmentKeepsPhase(Now(), env[i]);
        if env[i].Deliver? {
          OnMessage(env[i].d);
        } else {
          AdvanceHandler(env[i]);
        }
        i := i + 1;
      }
      assert env[..|env|] == env;
    }

    /** Consumer.force_close up to the gather: every handler that has not ended is cancelled. */
    method CancelUnfinished()
      requires Valid() && phase.ForceClosing?
      modifies this
      ensures Valid() && Now() == Step(old(Now()), CancelHandlers) && calls == old(calls) && phase.Cancelling?
    {
      hide Inv;
      StepKeepsInv(Now(), CancelHandlers);
      var tasks := handlerTasks.Keys;
      while tasks != {}
        invariant tasks <= handlerTasks.Keys
        invariant handlerTasks == old(handlerTasks) && calls == old(calls)
        invariant cancelled == old(cancelled) + set d | d in handlerTasks && !handlerTasks[d].Ended? && d !in tasks
        invariant Now() == old(Now()).(cancelled := cancelled)
        invariant workInFlight.Valid() && Distinct(parts.delegates)
        invariant shuttingDown && stopStarted && connected
      {
        var d :| d in tasks;
        if !handlerTasks[d].Ended? {
          cancelled := cancelled + {d};
        }
        tasks := tasks - {d};
      }
      assert cancelled == old(cancelled) + Unfinished(handlerTasks);
      phase := Cancelling;
    }

    /** The gather of force_close: it returns once every handler task has ended. */
    method Gather(env: seq<Action>) returns (done: bool, ghost used: seq<Action>)
      requires Valid() && phase.Cancelling? && AllEnvironment(env)
      modifies this, workInFlight
      ensures Valid() && calls == old(calls) && used <= env
      ensures done ==> Now() == ExecFrom(old(Now()), used + [HandlersGathered]) && phase.Disconnecting?
      ensures !done ==> used == env && Now() == ExecFrom(old(Now()), used) && phase.Cancelling?
      ensures !done ==> Unfinished(handlerTasks) != {}
    {
      hide Inv, Step;
      var i := 0;
      while i < |env| && exists d :: d in handlerTasks && !handlerTasks[d].Ended?
        invariant 0 <= i <= |env| && Valid() && calls == old(calls) && phase.Cancelling?
        invariant Now() == ExecFrom(old(Now()), env[..i])
      {
        assert env[..i + 1] == env[..i] + [env[i]];
        ExecOne(old(Now()), env[..i], env[i]);
        Await([env[i]]);
        assert ExecFrom(ExecFrom(old(Now()), env[..i]), [env[i]]) == ExecFrom(old(Now()), env[..i + 1]) by {
          ExecConcat(old(Now()), env[..i], [env[i]]);
        }
        i := i + 1;
      }
      used := env[..i];
      if exists d :: d in handlerTasks && !handlerTasks[d].Ended? {
        done := false;
        var d :| d in handlerTasks && !handlerTasks[d].Ended?;
        assert d in Unfinished(handlerTasks);
      } else {
        done := true;
        ExecOne(old(Now()), used, HandlersGathered);
        StepKeepsInv(Now(), HandlersGathered);
        GatheredStep(Now());
        handlerTasks := map[];
        phase := Disconnecting;
      }
    }

    method CallTasks(kind: TaskCall)
      modifies this`calls
      ensures calls == old(calls) + EachTask(kind, parts.tasks)
    {
      var i := 0;
      while i < parts.tasks
        invariant 0 <= i <= parts.tasks && calls == old(calls) + EachTask(kind, i)
      {
        calls := calls + [OnTask(kind, i)];
        i := i + 1;
      }
    }

    method CallWhen(condition: bool, call: Call)
      modifies this`calls
      ensures calls == old(calls) + When(condition, call)
    {
      if condition {
        calls := calls + [call];
      }
    }

    method CallAccepting()
      modifies this`calls
      ensures calls == old(calls) + AcceptingCalls(parts)
    {
      hide When, EachTask;
      CallWhen(parts.http, HttpStopAccepting);
      calls := calls + [ConsumerStopAccepting];
      CallTasks(StopTask);
      CallWhen(HEARTBEAT in parts.delegates, StopDelegate(HEARTBEAT));
      CallWhen(parts.registry, RegistryStopAccepting);
      CallWhen(parts.registry && parts.registered, RegistryUnregister);
    }

    /** _stop_accepting: no new work, and the registry hears that the service leaves. */
    method StopAcceptingPhase(env: seq<Action>)
      requires Valid() && phase.StopAccepting? && AllEnvironment(env)
      modifies this, workInFlight
      ensures Valid() && phase.Draining? && Now() == ExecFrom(old(Now()), env + [AcceptingStopped])
      ensures calls == old(calls) + AcceptingCalls(parts)
    {
      hide Inv, Step, AcceptingCalls, Environment, AllEnvironment;
      CallAccepting();
      Await(env);
      StopSteps(Now(), AcceptingStopped);
      ExecOne(old(Now()), env, AcceptingStopped);
      phase := Draining;
    }

    method CallDrain()
      modifies this`calls
      ensures calls == old(calls) + DrainCalls(parts)
    {
      hide When, EachTask;
      CallWhen(parts.http, HttpDrain);
      calls := calls + [ConsumerDrain];
      CallTasks(DrainTask);
    }

    /** _drain_in_flight under the grace period. */
    method DrainPhase(env: seq<Action>)
      requires Valid() && phase.Draining? && AllEnvironment(env)
      modifies this, workInFlight
      ensures Valid() && phase.ForceClosing? && Now() == ExecFrom(old(Now()), env + [DrainEnded])
      ensures calls == old(calls) + DrainCalls(parts)
    {
      hide Inv, Step, DrainCalls, Environment, AllEnvironment;
      CallDrain();
      Await(env);
      StopSteps(Now(), DrainEnded);
      ExecOne(old(Now()), env, DrainEnded);
      phase := ForceClosing;
    }

    /** The delegates other than the heartbeat, in order of name. */
    method StopOtherDelegates()
      modifies this`calls
      ensures calls == old(calls) + StopDelegates(Ordering.Sort(parts.delegates))
    {
      hide Ordering.Sort;
      var names, i := Ordering.Sort(parts.delegates), 0;
      while i < |names|
        invariant 0 <= i <= |names| && calls == old(calls) + StopDelegates(names[..i])
      {
        assert names[..i + 1][..i] == names[..i];
        if names[i] != HEARTBEAT {
          calls := calls + [StopDelegate(names[i])];
        }
        i := i + 1;
      }
      assert names[..|names|] == names;
    }

    method CallAfterClose()
      modifies this`calls
      ensures calls == old(calls) + CallsAfterClose(parts)
    {
      hide When, EachTask, StopDelegates, Ordering.Sort;
      CallTasks(ForceStopTask);
      StopOtherDelegates();
      CallWhen(parts.registry, RegistryStop);
      CallWhen(parts.http, HttpDrain);
    }

    /** Cancel, gather and close the connection; the gather lasts as long as a cancelled handler runs. */
    method Disconnect(gathering: seq<Action>, closing: seq<Action>) returns (done: bool, ghost gathered: seq<Action>)
      requires Valid() && phase.ForceClosing? && AllEnvironment(gathering) && AllEnvironment(closing)
      modifies this, workInFlight
      ensures Valid() && gathered <= gathering && (!done ==> gathered == gathering) && calls == old(calls)
      ensures Now() == ExecFrom(old(Now()), ClosingRun(gathered, if done then Some(closing) else None))
      ensures if done then phase.Closed? else phase.Cancelling? && Unfinished(handlerTasks) != {}
    {
      hide Inv, Step, Unfinished, Environment, AllEnvironment;
      ghost var start := Now();
      ExecSingle(start, CancelHandlers);
      CancelUnfinished();
      done, gathered := Gather(gathering);
      if done {
        ExecConcat(start, [CancelHandlers], gathered + [HandlersGathered]);
        ghost var run := [CancelHandlers] + (gathered + [HandlersGathered]);
        Await(closing);
        ExecConcat(start, run, closing);
        StopSteps(Now(), Disconnected);
        ExecOne(start, run + closing, Disconnected);
        connected, phase := false, Closed;
        assert run + closing + [Disconnected] == ClosingRun(gathered, Some(closing));
      } else {
        ExecConcat(start, [CancelHandlers], gathered);
        assert [CancelHandlers] + gathered == ClosingRun(gathered, None);
      }
    }

    /** _force_close. */
    method ForceClosePhase(gathering: seq<Action>, closing: seq<Action>)
      returns (done: bool, ghost gathered: seq<Action>)
      requires Valid() && phase.ForceClosing? && AllEnvironment(gathering) && AllEnvironment(closing)
      modifies this, workInFlight
      ensures Valid() && gathered <= gathering && (!done ==> gathered == gathering)
      ensures Now() == ExecFrom(old(Now()), ClosingRun(gathered, if done then Some(closing) else None))
      ensures calls == old(calls) + if done then ClosingCalls(parts) else [ConsumerForceClose]
      ensures if done then phase.Closed? else phase.Cancelling? && Unfinished(handlerTasks) != {}
    {
      hide Inv, Step, ExecFrom, CallsAfterClose, ClosingRun, Unfinished, AllEnvironment;
      calls := calls + [ConsumerForceClose];
      done, gathered := Disconnect(gathering, closing);
      if done {
        CallAfterClose();
      }
    }

    /**
      stop: only the first call does anything. It announces the shutdown, stops accepting, drains,
      and closes by force, while the environment goes on in every await.
     */
    method Stop(accepting: seq<Action>, draining: seq<Action>, gathering: seq<Action>, closing: seq<Action>)
      returns (done: bool, ghost gathered: seq<Action>)
      requires Valid()
      requires AllEnvironment(accepting) && AllEnvironment(draining)
      requires AllEnvironment(gathering) && AllEnvironment(closing)
      modifies this, workInFlight
      ensures Valid()
      ensures old(stopStarted) ==> Now() == old(Now()) && calls == old(calls) && !done
      ensures !old(stopStarted) ==>
                && gathered <= gathering && (!done ==> gathered == gathering)
                && Now() == ExecFrom(old(Now()), StopRun(accepting, draining, gathered,
                                                         if done then Some(closing) else None))
                && (done ==> calls == old(calls) + StopCalls(parts))
                && (!done ==> calls == old(calls) + AcceptingCalls(parts) + DrainCalls(parts) + [ConsumerForceClose])
                && (if done then phase.Closed? && handlerTasks == map[] && workInFlight.count == 0
                    else phase.Cancelling? && Unfinished(handlerTasks) != {})
    {
      hide Inv, Step, ExecFrom, ClosingCalls, AcceptingCalls, DrainCalls, ClosingRun, StopRun, Unfinished;
      hide Environment, AllEnvironment;
      done, gathered := false, [];
      if stopStarted {
        return;
      }
      ghost var start := Now();
      StopSteps(start, StopRequested);
      ExecSingle(start, StopRequested);
      stopStarted, shuttingDown, phase := true, true, StopAccepting;
      ghost var run := [StopRequested];

      StopAcceptingPhase(accepting);
      ExecConcat(start, run, accepting + [AcceptingStopped]);
      run := run + (accepting + [AcceptingStopped]);

      DrainPhase(draining);
      ExecConcat(start, run, draining + [DrainEnded]);
      run := run + (draining + [DrainEnded]);

      done, gathered := ForceClosePhase(gathering, closing);
      ghost var rest := ClosingRun(gathered, if done then Some(closing) else None);
      ExecConcat(start, run, rest);
      StopRunParts(accepting, draining, gathered, if done then Some(closing) else None);
      if done {
        ClosedIsEmpty(Now());
      }
    }
  }

  lemma ClosedIsEmpty(s: State)
    requires Inv(s) && s.phase.Closed?
    ensures s.tasks == map[] && s.count == 0
  {
    assert OpenScopes(map[]) == {};
  }

  /** The steps of the force close, with what went on meanwhile; without closing it never got past the gather. */
  function ClosingRun(gathered: seq<Action>, closing: Option<seq<Action>>): seq<Action> {
    [CancelHandlers] + gathered + if closing.Some? then [HandlersGathered] + closing.value + [Disconnected] else []
  }

  /** The steps of a stop, with what went on meanwhile. */
  function StopRun(accepting: seq<Action>, draining: seq<Action>, gathered: seq<Action>, closing: Option<seq<Action>>)
    : seq<Action>
  {
    [StopRequested] + accepting + [AcceptingStopped] + draining + [DrainEnded] + ClosingRun(gathered, closing)
  }

  lemma StopRunParts(accepting: seq<Action>, draining: seq<Action>, gathered: seq<Action>, closing: Option<seq<Action>>)
    ensures [StopRequested] + (accepting + [AcceptingStopped]) + (draining + [DrainEnded])
            + ClosingRun(gathered, closing)
         == StopRun(accepting, draining, gathered, closing)
  {
    hide ClosingRun;
  }

  lemma GatheredStep(s: State)
    requires s.phase.Cancelling? && forall d | d in s.tasks :: s.tasks[d].Ended?
    ensures Step(s, HandlersGathered) == s.(phase := Disconnecting, tasks := map[])
  {
    assert Unfinished(s.tasks) == {};
  }

  /** The steps of the stop that only move it on. */
  lemma StopSteps(s: State, action: Action)
    requires Inv(s)
    ensures Inv(Step(s, action))
    ensures action.StopRequested? && s.phase.Serving? ==> Step(s, action) == s.(phase := StopAccepting)
    ensures action.AcceptingStopped? && s.phase.StopAccepting? ==> Step(s, action) == s.(phase := Draining)
    ensures action.DrainEnded? && s.phase.Draining? ==> Step(s, action) == s.(phase := ForceClosing)
    ensures action.Disconnected? && s.phase.Disconnecting? ==> Step(s, action) == s.(phase := Closed)
  {
    hide Inv;
    StepKeepsInv(s, action);
  }

  lemma EnvironmentKeepsPhase(s: State, action: Action)
    requires Environment(action)
    ensures Step(s, action).phase == s.phase
  {
  }
}
