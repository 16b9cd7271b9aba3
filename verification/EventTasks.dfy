/**
  One delivery of an event to its handler (OnEventTask in kontiki/messaging/consumer/event.py): the
  scope it runs in, and how it is settled in every way a handler can end.
 */
module EventTasks {
  import opened Wrappers
  import opened HandlerScope
  import opened InFlight
  import Broker
  import Serialization
  import Whereabouts
  import opened Settlement

  /** How a handler ends; a cancellation is no exception that is caught and reported. */
  datatype HandlerEnd = Completes | Raises | IsCancelled

  /** What a settlement does to a copy of a work queue; one-off queues drop what they reject. */
  function OnWorkQueue(settlement: Verdict, copy: nat): Option<Broker.Op> {
    match settlement
    case Acked => Some(Broker.Succeed(copy))
    case Rejected(requeue) => if requeue then Some(Broker.Fail(copy)) else None
    case Nacked => Some(Broker.GiveBack(copy))
  }

  class OnEventTask {
    const eventType: string
    const requeue: bool

    constructor (eventType: string, requeue: bool)
      ensures this.eventType == eventType && this.requeue == requeue
    {
      this.eventType, this.requeue := eventType, requeue;
    }

    /** The body of message.process: the handler runs only on a body that can be read. */
    method Process(body: Serialization.Body, handler: HandlerEnd) returns (settlement: Verdict, raised: bool)
      ensures settlement.Acked? <==> Serialization.Read(body).Some? && handler.Completes?
      ensures !settlement.Acked? ==> settlement == Rejected(requeue)
      ensures raised <==> Serialization.Read(body).None? || handler.Raises?
    {
      var obj := Serialization.Read(body);
      if obj.None? {
        return Rejected(requeue), true;
      }
      match handler
      case Completes => return Acked, false;
      case Raises => return Rejected(requeue), true;
      case IsCancelled => return Rejected(requeue), false;
    }

    /**
      consume_message and _consume_message: a delivery during a shutdown is given back untouched;
      any other runs in a scope of its own that is left again however the handler ends, is acked
      exactly when its body was read and the handler completed, and is rejected otherwise. Only
      exceptions are reported, from inside the scope.
     */
    method OnMessage(shuttingDown: bool, headers: Headers, body: Serialization.Body, handler: HandlerEnd,
                     scope: ContextVar, work: WorkInFlight, generated: Id)
      returns (settlement: Verdict, reportedIn: Option<Context>)
      requires work.Valid()
      modifies scope, work
      ensures scope.current == old(scope.current) && work.Valid() && work.count == old(work.count)
      ensures settlement.Nacked? <==> shuttingDown
      ensures settlement.Acked? <==> !shuttingDown && Serialization.Read(body).Some? && handler.Completes?
      ensures settlement.Rejected? ==> settlement.requeue == requeue
      ensures reportedIn == if !shuttingDown && (Serialization.Read(body).None? || handler.Raises?)
                            then Some(Entered(Event, eventType, headers, generated)) else None
    {
      if shuttingDown {
        return Nacked, None;
      }
      var token := scope.Enter(Event, eventType, headers, work, generated);
      var raised;
      settlement, raised := Process(body, handler);
      reportedIn := if raised then scope.Value() else None;
      scope.Reset(token);
    }
  }

  /**
    The settlements of a competing event are steps of its work queue: an ack ends the copy, a return
    makes it ready again, and exactly the rejects burn an attempt.
   */
  lemma SettlementSteps(p: Broker.QueuePair, settlement: Verdict, copy: nat)
    requires copy in p.unacked && OnWorkQueue(settlement, copy).Some?
    ensures var q := Broker.Step(p, OnWorkQueue(settlement, copy).value);
            && Broker.Attempts(q, copy) == Broker.Attempts(p, copy) + (if settlement.Rejected? then 1 else 0)
            && q.done[copy] == p.done[copy] + (if settlement.Acked? then 1 else 0)
            && q.ready[copy] == p.ready[copy] + (if settlement.Nacked? then 1 else 0)
            && q.unacked[copy] == p.unacked[copy] - 1
  {
    hide Broker.Step, Broker.Attempts;
    var op := OnWorkQueue(settlement, copy).value;
    Broker.StepAttempts(p, op, copy);
    Broker.StepUnacked(p, op, copy);
    Whereabouts.StepWork(p, op, copy);
  }
}
