/**
  The context a handler runs in and the headers it stamps on what it sends
  (kontiki/runtime/handler_scope.py and the flow part of kontiki/messaging/flow.py).
 */
module HandlerScope {
  import opened Wrappers
  import opened InFlight

  /** What the id generators return: never empty. */
  type Id = s: string | s != "" witness "0"

  datatype Header = FlowId | HopId | ParentHopId | Entrypoint | Operation | RpcService | Other(name: string)

  type Headers = map<Header, string>

  datatype Kind = Http | Task | Event | Rpc

  function KindName(kind: Kind): string {
    match kind
    case Http => "http"
    case Task => "task"
    case Event => "event"
    case Rpc => "rpc"
  }

  /** Bare only carries a flow: it is what a publication outside any handler leaves behind. */
  datatype Context =
    | Bare(flow: Option<string>)
    | Handler(kind: Kind, operation: string, flow: Option<string>, hop: Option<string>)

  /** HTTP requests and periodic tasks start flows; only messages continue one. */
  predicate Continues(kind: Kind) {
    kind.Event? || kind.Rpc?
  }

  /** The context of a new handler scope. */
  function Entered(kind: Kind, operation: string, headers: Headers, generated: Id): Context {
    var inbound := if Continues(kind) then headers else map[];
    var flow := if FlowId in inbound && inbound[FlowId] != "" then inbound[FlowId] else generated;
    Handler(kind, operation, Some(flow), if HopId in inbound then Some(inbound[HopId]) else None)
  }

  function FlowOf(context: Option<Context>): Option<string> {
    if context.None? then None else context.value.flow
  }

  /** The handler a hop is sent from; a bare context is none. */
  function HandlerOf(context: Option<Context>): Option<Context> {
    if context.Some? && context.value.Handler? then context else None
  }

  /** The hop the current handler was reached by. */
  function InboundHop(context: Option<Context>): Option<string> {
    if HandlerOf(context).Some? && Continues(context.value.kind) then context.value.hop else None
  }

  /** Precedence: explicit id, context, extra headers, a new id. */
  function Resolved(explicit: Option<string>, context: Option<Context>, extra: Headers, generated: Id): string {
    if explicit.Some? then explicit.value
    else if FlowOf(context).Some? then FlowOf(context).value
    else if FlowId in extra then extra[FlowId]
    else generated
  }

  function WithFlow(context: Option<Context>, flow: string): Context {
    if context.None? then Bare(Some(flow)) else context.value.(flow := Some(flow))
  }

  /** What a message's headers say about its hop; every other header stays. */
  ghost predicate DescribesHop(stamped: Headers, headers: Headers, context: Option<Context>,
                               rpcService: Option<string>, hop: Id) {
    var handler, inbound := HandlerOf(context), InboundHop(context);
    && HopId in stamped && stamped[HopId] == hop
    && (ParentHopId in stamped <==> inbound.Some? && inbound.value != "")
    && (ParentHopId in stamped ==> stamped[ParentHopId] == inbound.value)
    && (Entrypoint in stamped <==> handler.Some?) && (Operation in stamped <==> handler.Some?)
    && (handler.Some? ==> stamped[Entrypoint] == KindName(handler.value.kind)
                          && stamped[Operation] == handler.value.operation)
    && (RpcService in stamped <==> rpcService.Some?)
    && (rpcService.Some? ==> stamped[RpcService] == rpcService.value)
    && (forall header: Header | header.FlowId? || header.Other? ::
          && (header in stamped <==> header in headers)
          && (header in headers ==> stamped[header] == headers[header]))
  }

  function Stamped(headers: Headers, context: Option<Context>, rpcService: Option<string>, hop: Id): (s: Headers)
    ensures DescribesHop(s, headers, context, rpcService, hop)
  {
    var own := headers - {ParentHopId, Entrypoint, Operation, RpcService};
    var handler, inbound := HandlerOf(context), InboundHop(context);
    var hopped := own[HopId := hop];
    var described := if handler.None? then hopped
                     else hopped[Entrypoint := KindName(handler.value.kind)][Operation := handler.value.operation];
    var parented := if inbound.Some? && inbound.value != "" then described[ParentHopId := inbound.value] else described;
    if rpcService.Some? then parented[RpcService := rpcService.value] else parented
  }

  /**
    The flow of a message: an explicit id decides it, then the context it is sent from, and a new id
    only when there is neither.
   */
  ghost predicate CarriesFlow(stamped: Headers, explicit: Option<string>, context: Option<Context>, generated: Id) {
    && FlowId in stamped
    && (explicit.Some? ==> stamped[FlowId] == explicit.value)
    && (explicit.None? && context.Some? && context.value.flow.Some? ==> stamped[FlowId] == context.value.flow.value)
    && (explicit.None? && (context.None? || context.value.flow.None?) ==> stamped[FlowId] == generated)
  }

  /** Names the runtime writes itself; extra headers must not use them. */
  const RESERVED_NAMES: set<string> := {
    "event_type", "remote_method", "reply_to", "session_id", "service_name", "instance_id", "host", "timestamp"
  }

  predicate Reserved(header: Header) {
    !header.Other? || header.name in RESERVED_NAMES
  }

  predicate Allowed(extra: Headers) {
    forall header | header in extra :: !Reserved(header)
  }

  class HandlerContext {
    const kind: Option<Kind>
    const operation: string
    var flowId: Option<string>
    const hopId: Option<string>

    constructor (kind: Option<Kind>, operation: string, flowId: Option<string>, hopId: Option<string>)
      ensures this.kind == kind && this.operation == operation
      ensures this.flowId == flowId && this.hopId == hopId
    {
      this.kind, this.operation, this.flowId, this.hopId := kind, operation, flowId, hopId;
    }

    function Value(): Context
      reads this
    {
      if kind.None? then Bare(flowId) else Handler(kind.value, operation, flowId, hopId)
    }
  }

  /** What reset_handler_scope needs: the context that was current, and the counter to decrement. */
  datatype ScopeToken = ScopeToken(previous: HandlerContext?, workInFlight: WorkInFlight?)

  /** The context variable of one asyncio task. */
  class ContextVar {
    var current: HandlerContext?

    constructor ()
      ensures current == null
    {
      current := null;
    }

    function Value(): Option<Context>
      reads this, current
    {
      if current == null then None else Some(current.Value())
    }

    /** enter_handler_scope. */
    method Enter(kind: Kind, operation: string, headers: Headers, work: WorkInFlight?, generated: Id)
      returns (token: ScopeToken)
      requires work != null ==> work.Valid()
      modifies this, work
      ensures token == ScopeToken(old(current), work)
      ensures fresh(current) && Value() == Some(Entered(kind, operation, headers, generated))
      ensures current.kind == Some(kind) && current.operation == operation
      ensures kind.Http? || kind.Task? ==> current.flowId == Some(generated) && current.hopId.None?
      ensures kind.Event? || kind.Rpc? ==>
                && current.flowId == Some(if FlowId in headers && headers[FlowId] != "" then headers[FlowId]
                                          else generated)
                && current.hopId == (if HopId in headers then Some(headers[HopId]) else None)
      ensures work != null ==> work.Valid() && work.count == old(work.count) + 1
    {
      var inboundFlow: Option<string>, inboundHop: Option<string> := None, None;
      if Continues(kind) {
        inboundFlow := if FlowId in headers then Some(headers[FlowId]) else None;
        inboundHop := if HopId in headers then Some(headers[HopId]) else None;
      }
      var flow := if inboundFlow.Some? && inboundFlow.value != "" then inboundFlow.value else generated;
      token := ScopeToken(current, work);
      current := new HandlerContext(Some(kind), operation, Some(flow), inboundHop);
      if work != null {
        work.Begin();
      }
    }

    /** reset_handler_scope: the enclosing context object is current again. */
    method Reset(token: ScopeToken)
      requires token.workInFlight != null ==> token.workInFlight.Valid() && token.workInFlight.count > 0
      modifies this, token.workInFlight
      ensures current == token.previous
      ensures var work := token.workInFlight; work != null ==> work.Valid() && work.count == old(work.count) - 1
    {
      if token.workInFlight != null {
        token.workInFlight.End();
      }
      current := token.previous;
    }

    /** resolve_flow_id: the id is remembered in the current context, or in a new bare one. */
    method ResolveFlowId(explicit: Option<string>, extra: Headers, generated: Id) returns (flow: string)
      modifies this, current
      ensures flow == Resolved(explicit, old(Value()), extra, generated)
      ensures explicit.Some? ==> flow == explicit.value
      ensures explicit.None? && old(current) != null && old(current.flowId).Some? ==> flow == old(current.flowId).value
      ensures explicit.None? && (old(current) == null || old(current.flowId).None?) ==>
                flow == if FlowId in extra then extra[FlowId] else generated
      ensures Value() == Some(WithFlow(old(Value()), flow))
      ensures old(current) != null ==> current == old(current)
    {
      if explicit.Some? {
        flow := explicit.value;
      } else {
        var value := if current == null then None else current.flowId;
        if value.None? && FlowId in extra {
          value := Some(extra[FlowId]);
        }
        flow := if value.None? then generated else value.value;
      }
      if current == null {
        current := new HandlerContext(None, "", Some(flow), None);
      } else {
        current.flowId := Some(flow);
      }
    }

    /** apply_outbound_hop_headers. */
    method ApplyOutboundHopHeaders(headers: Headers, rpcService: Option<string>, hop: Id) returns (stamped: Headers)
      ensures stamped == Stamped(headers, Value(), rpcService, hop)
    {
      stamped := headers[HopId := hop];
      if current == null || current.kind.None? {
        stamped := stamped - {ParentHopId, Entrypoint, Operation};
      } else {
        stamped := stamped[Entrypoint := KindName(current.kind.value)][Operation := current.operation];
        if Continues(current.kind.value) && current.hopId.Some? && current.hopId.value != "" {
          stamped := stamped[ParentHopId := current.hopId.value];
        } else {
          stamped := stamped - {ParentHopId};
        }
      }
      if rpcService.Some? {
        stamped := stamped[RpcService := rpcService.value];
      } else {
        stamped := stamped - {RpcService};
      }
    }

    /** The headers of publish and call; reserved extra headers raise before anything else happens. */
    method OutboundHeaders(own: Headers, extra: Headers, explicit: Option<string>, rpcService: Option<string>,
                           generated: Id, hop: Id) returns (stamped: Option<Headers>)
      modifies this, current
      ensures stamped.Some? <==> Allowed(extra)
      ensures stamped.None? ==> current == old(current) && Value() == old(Value())
      ensures stamped.Some? ==>
                var flow := Resolved(explicit, old(Value()), map[], generated);
                && Value() == Some(WithFlow(old(Value()), flow))
                && (old(current) != null ==> current == old(current))
                && stamped.value == Stamped((own + extra)[FlowId := flow], Value(), rpcService, hop)
      ensures stamped.Some? ==> CarriesFlow(stamped.value, explicit, old(Value()), generated)
      ensures FlowId in extra || HopId in extra || ParentHopId in extra ==> stamped.None?
    {
      if exists header :: header in extra && Reserved(header) {
        return None;
      }
      var flow := ResolveFlowId(explicit, extra, generated);
      var hopHeaders := ApplyOutboundHopHeaders((own + extra)[FlowId := flow], rpcService, hop);
      stamped := Some(hopHeaders);
    }
  }
}
