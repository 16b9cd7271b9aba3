/**
  An RPC over the bus: the client's correlation maps (kontiki/messaging/publisher/messenger.py),
  the server's handler (kontiki/messaging/consumer/rpc.py) and a network that redelivers requests,
  loses and duplicates replies and delivers them late.
 */
module Rpc {
  import opened Wrappers
  import opened Serialization

  /** A correlation id; every call draws a fresh one. */
  type Cid = nat
  type Instance = nat

  /** A response model; what it builds from the fields is opaque. */
  type Model = string

  // ---------------------------------------------------------------------------------------------
  // What a handler's result means to the caller
  // ---------------------------------------------------------------------------------------------

  datatype HandlerResult = Returned(value: Value) | Raised(message: string)

  function RpcError(code: string, message: string): Value {
    Return(RpcReturn(Bool(false), Null, Str(message), CLIENT, Str(code)))
  }

  /** The reply of the server for the result of a handler. */
  function ReplyOf(result: HandlerResult): RpcReturn {
    match result
    case Returned(v) => if v.Return? then v.ret else RpcReturn(Bool(true), v, Null, NONE, Null)
    case Raised(m) => RpcReturn(Bool(false), Null, Str(m), SERVER, Str("INTERNAL_ERROR"))
  }

  function Wire(result: HandlerResult): Json {
    Dumps(Return(ReplyOf(result)))
  }

  datatype Outcome =
    | Result(value: Value)
    | Built(model: Model, fields: map<string, Value>)
    | ClientError(code: Value, message: Value)
    | ServerError(code: Value, message: Value)

  predicate Truthy(v: Value) {
    match v
    case Null => false
    case Bool(b) => b
    case Num(n) => n != 0.0
    case Str(s) => s != ""
    case Bytes(d) => d != []
    case List(items) => items != []
    case Dict(m) => m != map[]
    case Return(_) => true
  }

  /** How call ends on a decoded response. */
  function Interpret(response: Value, model: Option<Model>): Outcome {
    if !response.Return? then Result(response)
    else
      var r := response.ret;
      if Truthy(r.success) then
        if model.Some? && r.result.Dict? then Built(model.value, r.result.fields) else Result(r.result)
      else if r.errorType == CLIENT then ClientError(r.errorCode, r.message)
      else ServerError(r.errorCode, r.message)
  }

  /**
    Across the bus: a returned value arrives as itself exactly when no mapping in it carries a true
    tag, and a mapping builds the response model of the call when it has one; an rpc_error arrives as a
    client error with its code and message; an exception arrives as a server error INTERNAL_ERROR with
    its text.
   */
  lemma AcrossTheBus(result: HandlerResult)
    ensures result.Returned? && !result.value.Return? ==>
              ((Loads(Wire(result)).Some? && Interpret(Loads(Wire(result)).value, None) == Result(result.value)) <==>
               Untagged(result.value))
    ensures result.Returned? && !result.value.Return? && Untagged(result.value) ==>
              Loads(Wire(result)).Some? && forall model: Option<Model> ::
                Interpret(Loads(Wire(result)).value, model) ==
                if model.Some? && result.value.Dict? then Built(model.value, result.value.fields)
                else Result(result.value)
    ensures forall c, m | result == Returned(RpcError(c, m)) ::
              Loads(Wire(result)).Some? && forall model ::
                Interpret(Loads(Wire(result)).value, model) == ClientError(Str(c), Str(m))
    ensures result.Raised? ==>
              Loads(Wire(result)).Some? && forall model ::
                Interpret(Loads(Wire(result)).value, model) == ServerError(Str("INTERNAL_ERROR"), Str(result.message))
  {
    LoadsReturn(ReplyOf(result));
    if result.Returned? {
      RoundTrip(result.value);
    }
  }

  // ---------------------------------------------------------------------------------------------
  // The client
  // ---------------------------------------------------------------------------------------------

  /** The asyncio future of a call. */
  datatype Future = Pending | Done(response: Value) | Unreadable | Cancelled

  datatype End =
    | Replied(response: Value, model: Option<Model>, outcome: Outcome)
    | UnreadableReply
    | TimedOut
    | NotPublished
    | Abandoned

  /** futures and _response_models, the calls that wait on their future and the ended ones. */
  datatype Client = Client(
    futures: set<Cid>,
    models: map<Cid, Option<Model>>,
    waiting: map<Cid, Future>,
    ended: map<Cid, End>)

  predicate Known(c: Client, cid: Cid) {
    cid in c.waiting || cid in c.ended
  }

  /** call up to its wait: both entries are made before the request is published. */
  function BeginCall(c: Client, cid: Cid, model: Option<Model>, published: bool): Client {
    var entered := c.(futures := c.futures + {cid}, models := c.models[cid := model]);
    if published then entered.(waiting := c.waiting[cid := Pending])
    else entered.(ended := c.ended[cid := NotPublished])
  }

  /** _on_response: an unknown or late correlation id changes nothing but its own entry. */
  function OnResponse(c: Client, cid: Cid, body: Json): Client {
    if cid !in c.futures then c
    else
      var popped := c.(futures := c.futures - {cid});
      if cid in c.waiting && c.waiting[cid].Pending? then
        popped.(waiting := c.waiting[cid := if Loads(body).Some? then Done(Loads(body).value) else Unreadable])
      else popped
  }

  /** The timeout ends the wait for a pending future; from Python 3.12 also for one whose reply was not yet seen. */
  predicate Expires(future: Future, late: bool) {
    future.Pending? || (late && !future.Cancelled?)
  }

  /** wait_for when its time is over, late telling whether it may beat a reply that just came. */
  function TimeOut(c: Client, cid: Cid, late: bool): Client {
    if cid in c.waiting && Expires(c.waiting[cid], late) then c.(waiting := c.waiting[cid := Cancelled]) else c
  }

  /** call after its wait. */
  function Resume(c: Client, cid: Cid): Client {
    if cid !in c.waiting || c.waiting[cid].Pending? then c
    else
      var left := c.(waiting := c.waiting - {cid});
      match c.waiting[cid]
      case Done(response) =>
        var model := if cid in c.models then c.models[cid] else None;
        left.(models := c.models - {cid},
              ended := c.ended[cid := Replied(response, model, Interpret(response, model))])
      case Unreadable => left.(ended := c.ended[cid := UnreadableReply])
      case Cancelled =>
        left.(futures := c.futures - {cid}, models := c.models - {cid}, ended := c.ended[cid := TimedOut])
  }

  /** The caller's own task is cancelled while it waits. */
  function Abandon(c: Client, cid: Cid): Client {
    if cid !in c.waiting then c
    else c.(waiting := c.waiting - {cid}, ended := c.ended[cid := Abandoned])
  }

  function Stop(c: Client): Client {
    c.(futures := {}, models := map[])
  }

  // ---------------------------------------------------------------------------------------------
  // The whole system
  // ---------------------------------------------------------------------------------------------

  datatype Reply = Reply(cid: Cid, body: Json)

  datatype System = System(
    client: Client,
    requests: multiset<Cid>,
    busy: set<(Instance, Cid)>,
    running: set<(Instance, Cid)>,
    produced: set<(Cid, HandlerResult)>,
    replies: multiset<Reply>)

  /** How the publish of a request ends; an unconfirmed one reached the broker, but call raises. */
  datatype Publishing = Confirmed | Refused | Unconfirmed

  datatype Action =
    | Call(cid: Cid, model: Option<Model>, publishing: Publishing)
    | Deliver(instance: Instance, cid: Cid, readable: bool)
    | Redeliver(instance: Instance, cid: Cid)
    | Finish(instance: Instance, cid: Cid, result: HandlerResult, sent: bool, acked: bool)
    | CancelHandler(instance: Instance, cid: Cid)
    | DuplicateReply(reply: Reply)
    | LoseReply(reply: Reply)
    | Respond(reply: Reply)
    | FireTimeout(cid: Cid, late: bool)
    | ResumeCall(cid: Cid)
    | AbandonCall(cid: Cid)
    | StopClient

  const Idle := System(Client({}, map[], map[], map[]), multiset{}, {}, {}, {}, multiset{})

  /** A step whose guard does not hold changes nothing. */
  function Step(s: System, a: Action): System {
    match a
    case Call(cid, model, publishing) =>
      if Known(s.client, cid) then s
      else s.(client := BeginCall(s.client, cid, model, publishing.Confirmed?),
              requests := if publishing.Refused? then s.requests else s.requests + multiset{cid})
    case Deliver(instance, cid, readable) =>
      if cid !in s.requests then s
      else
        var taken := s.(requests := s.requests - multiset{cid});
        if (instance, cid) in s.busy || !readable then taken
        else taken.(busy := s.busy + {(instance, cid)}, running := s.running + {(instance, cid)})
    case Redeliver(instance, cid) =>
      if (instance, cid) !in s.running then s else s.(requests := s.requests + multiset{cid})
    case Finish(instance, cid, result, sent, acked) =>
      if (instance, cid) !in s.running then s
      else s.(busy := s.busy - {(instance, cid)},
              running := s.running - {(instance, cid)},
              produced := s.produced + {(cid, result)},
              replies := if sent then s.replies + multiset{Reply(cid, Wire(result))} else s.replies,
              requests := if acked then s.requests else s.requests + multiset{cid})
    case CancelHandler(instance, cid) =>
      if (instance, cid) !in s.running then s
      else s.(running := s.running - {(instance, cid)}, requests := s.requests + multiset{cid})
    case DuplicateReply(reply) => if reply in s.replies then s.(replies := s.replies + multiset{reply}) else s
    case LoseReply(reply) => s.(replies := s.replies - multiset{reply})
    case Respond(reply) =>
      if reply !in s.replies then s
      else s.(replies := s.replies - multiset{reply}, client := OnResponse(s.client, reply.cid, reply.body))
    case FireTimeout(cid, late) => s.(client := TimeOut(s.client, cid, late))
    case ResumeCall(cid) => s.(client := Resume(s.client, cid))
    case AbandonCall(cid) => s.(client := Abandon(s.client, cid))
    case StopClient => s.(client := Stop(s.client))
  }

  function Exec(run: seq<Action>): System {
    if |run| == 0 then Idle else Step(Exec(run[..|run| - 1]), run[|run| - 1])
  }

  // ---------------------------------------------------------------------------------------------
  // Invariants
  // ---------------------------------------------------------------------------------------------

  /** The body is the reply of a handler that ran for cid. */
  ghost predicate FromHandler(produced: set<(Cid, HandlerResult)>, cid: Cid, body: Json) {
    exists result :: (cid, result) in produced && body == Wire(result)
  }

  /** The response is the decoded reply of a handler that ran for cid. */
  ghost predicate HandlerResponse(produced: set<(Cid, HandlerResult)>, cid: Cid, response: Value) {
    exists result :: (cid, result) in produced && Loads(Wire(result)) == Some(response)
  }

  ghost predicate ClientInv(c: Client) {
    && c.futures <= c.models.Keys
    && (forall cid | cid in c.models :: Known(c, cid))
    && (forall cid | cid in c.waiting :: cid !in c.ended)
    && (forall cid | cid in c.waiting && (c.waiting[cid].Done? || c.waiting[cid].Unreadable?) :: cid !in c.futures)
    && (forall cid | cid in c.ended && (c.ended[cid].Replied? || c.ended[cid].TimedOut?) :: cid !in c.models)
    && (forall cid | cid in c.ended && c.ended[cid].Replied? ::
          c.ended[cid].outcome == Interpret(c.ended[cid].response, c.ended[cid].model))
  }

  /** Every response a call has or ended with comes from a handler. */
  ghost predicate ResponsesInv(produced: set<(Cid, HandlerResult)>, c: Client) {
    && (forall cid | cid in c.waiting && c.waiting[cid].Done? ::
          HandlerResponse(produced, cid, c.waiting[cid].response))
    && (forall cid | cid in c.ended && c.ended[cid].Replied? :: HandlerResponse(produced, cid, c.ended[cid].response))
  }

  ghost predicate RepliesInv(produced: set<(Cid, HandlerResult)>, replies: multiset<Reply>) {
    forall reply | reply in replies :: FromHandler(produced, reply.cid, reply.body)
  }

  ghost predicate SystemInv(s: System) {
    && ClientInv(s.client)
    && RepliesInv(s.produced, s.replies)
    && ResponsesInv(s.produced, s.client)
  }

  lemma BeginCallInv(c: Client, cid: Cid, model: Option<Model>, published: bool, produced: set<(Cid, HandlerResult)>)
    requires ClientInv(c) && !Known(c, cid) && ResponsesInv(produced, c)
    ensures ClientInv(BeginCall(c, cid, model, published))
    ensures ResponsesInv(produced, BeginCall(c, cid, model, published))
    ensures KeepsEnds(c, BeginCall(c, cid, model, published))
  {
  }

  lemma OnResponseInv(c: Client, cid: Cid, body: Json, produced: set<(Cid, HandlerResult)>)
    requires ClientInv(c) && ResponsesInv(produced, c) && FromHandler(produced, cid, body)
    ensures ClientInv(OnResponse(c, cid, body))
    ensures ResponsesInv(produced, OnResponse(c, cid, body))
    ensures KeepsEnds(c, OnResponse(c, cid, body))
  {
    hide Loads, Wire;
    var result :| (cid, result) in produced && body == Wire(result);
    assert Loads(body).Some? ==> HandlerResponse(produced, cid, Loads(body).value);
  }

  lemma TimeOutInv(c: Client, cid: Cid, late: bool, produced: set<(Cid, HandlerResult)>)
    requires ClientInv(c) && ResponsesInv(produced, c)
    ensures var next := TimeOut(c, cid, late);
            ClientInv(next) && ResponsesInv(produced, next) && KeepsEnds(c, next)
  {
  }

  lemma ResumeInv(c: Client, cid: Cid, produced: set<(Cid, HandlerResult)>)
    requires ClientInv(c) && ResponsesInv(produced, c)
    ensures ClientInv(Resume(c, cid)) && ResponsesInv(produced, Resume(c, cid)) && KeepsEnds(c, Resume(c, cid))
  {
    hide Interpret, HandlerResponse;
  }

  lemma AbandonInv(c: Client, cid: Cid, produced: set<(Cid, HandlerResult)>)
    requires ClientInv(c) && ResponsesInv(produced, c)
    ensures ClientInv(Abandon(c, cid)) && ResponsesInv(produced, Abandon(c, cid)) && KeepsEnds(c, Abandon(c, cid))
  {
  }

  ghost predicate KeepsEnds(c: Client, next: Client) {
    forall cid | cid in c.ended :: cid in next.ended && next.ended[cid] == c.ended[cid]
  }

  lemma StepInv(s: System, a: Action)
    requires SystemInv(s)
    ensures SystemInv(Step(s, a)) && KeepsEnds(s.client, Step(s, a).client)
  {
    hide BeginCall, OnResponse, TimeOut, Resume, Abandon, ClientInv, ResponsesInv, FromHandler, Wire;
    match a
    case Call(cid, model, publishing) =>
      if !Known(s.client, cid) {
        BeginCallInv(s.client, cid, model, publishing.Confirmed?, s.produced);
      }
    case Deliver(_, _, _) =>
    case Redeliver(_, _) =>
    case Finish(instance, cid, result, sent, _) =>
      ProducedGrows(s, cid, result);
    case CancelHandler(_, _) =>
    case DuplicateReply(_) =>
    case LoseReply(_) =>
    case Respond(reply) =>
      if reply in s.replies {
        OnResponseInv(s.client, reply.cid, reply.body, s.produced);
      }
    case FireTimeout(cid, late) =>
      TimeOutInv(s.client, cid, late, s.produced);
    case ResumeCall(cid) =>
      ResumeInv(s.client, cid, s.produced);
    case AbandonCall(cid) =>
      AbandonInv(s.client, cid, s.produced);
    case StopClient =>
      StopInv(s.client, s.produced);
  }

  lemma StopInv(c: Client, produced: set<(Cid, HandlerResult)>)
    requires ClientInv(c) && ResponsesInv(produced, c)
    ensures ClientInv(Stop(c)) && ResponsesInv(produced, Stop(c)) && KeepsEnds(c, Stop(c))
  {
  }

  lemma ProducedGrows(s: System, cid: Cid, result: HandlerResult)
    requires SystemInv(s)
    ensures var more := s.produced + {(cid, result)};
            && RepliesInv(more, s.replies) && RepliesInv(more, s.replies + multiset{Reply(cid, Wire(result))})
            && ResponsesInv(more, s.client)
  {
    hide Wire, Loads, ClientInv;
    var more := s.produced + {(cid, result)};
    forall c: Cid, body | FromHandler(s.produced, c, body) ensures FromHandler(more, c, body) {
      var r :| (c, r) in s.produced && body == Wire(r);
      assert (c, r) in more;
    }
    forall c: Cid, response | HandlerResponse(s.produced, c, response) ensures HandlerResponse(more, c, response) {
      var r :| (c, r) in s.produced && Loads(Wire(r)) == Some(response);
      assert (c, r) in more;
    }
    assert (cid, result) in more && FromHandler(more, cid, Wire(result));
  }

  lemma {:induction false} RunInv(run: seq<Action>)
    ensures SystemInv(Exec(run))
  {
    hide Step;
    if |run| > 0 {
      RunInv(run[..|run| - 1]);
      StepInv(Exec(run[..|run| - 1]), run[|run| - 1]);
    }
  }

  /** A call ends at most once: whatever happens later, its end stays. */
  lemma {:induction false} EndsOnce(run: seq<Action>, more: seq<Action>, cid: Cid)
    requires cid in Exec(run).client.ended
    ensures cid in Exec(run + more).client.ended
    ensures Exec(run + more).client.ended[cid] == Exec(run).client.ended[cid]
  {
    hide Step, SystemInv;
    if |more| == 0 {
      assert run + more == run;
    } else {
      var all := run + more;
      assert all[..|all| - 1] == run + more[..|more| - 1];
      EndsOnce(run, more[..|more| - 1], cid);
      RunInv(all[..|all| - 1]);
      StepInv(Exec(all[..|all| - 1]), all[|all| - 1]);
    }
  }

  /**
    Over every run, with redelivered requests, duplicate and late replies and timeouts: the pending
    futures lie inside the response models; a call that timed out or got a readable reply is in
    neither map; and a call that ended with a reply got the decoded reply of a handler that ran for
    its own correlation id, read as Interpret says.
   */
  lemma CallsMeetTheirReplies(run: seq<Action>, cid: Cid)
    ensures Exec(run).client.futures <= Exec(run).client.models.Keys
    ensures cid in Exec(run).client.ended &&
            (Exec(run).client.ended[cid].TimedOut? || Exec(run).client.ended[cid].Replied?) ==>
              cid !in Exec(run).client.futures && cid !in Exec(run).client.models
    ensures cid in Exec(run).client.ended && Exec(run).client.ended[cid].Replied? ==>
              var end := Exec(run).client.ended[cid];
              exists result :: (cid, result) in Exec(run).produced &&
                               Loads(Wire(result)) == Some(end.response) &&
                               end.outcome == Interpret(end.response, end.model)
  {
    RunInv(run);
    var s := Exec(run);
    if cid in s.client.ended && s.client.ended[cid].Replied? {
      assert HandlerResponse(s.produced, cid, s.client.ended[cid].response);
    }
  }

  /** Requests, handlers and replies exist only for calls that were made. */
  ghost predicate OnlyCalled(s: System) {
    && (forall cid | cid in s.requests :: Known(s.client, cid))
    && (forall run | run in s.running :: Known(s.client, run.1))
    && (forall run | run in s.produced :: Known(s.client, run.0))
  }

  lemma StepKeepsKnown(s: System, a: Action, cid: Cid)
    requires Known(s.client, cid)
    ensures Known(Step(s, a).client, cid)
  {
    hide Interpret, Loads, Wire;
  }

  /** A handler runs only for a request that some call sent. */
  lemma {:induction false} HandlersWereCalled(run: seq<Action>)
    ensures OnlyCalled(Exec(run))
  {
    if |run| > 0 {
      var s, a := Exec(run[..|run| - 1]), run[|run| - 1];
      HandlersWereCalled(run[..|run| - 1]);
      CalledStep(s, a);
    }
  }

  lemma CalledStep(s: System, a: Action)
    requires OnlyCalled(s)
    ensures OnlyCalled(Step(s, a))
  {
    hide Step, Known;
    forall cid: Cid | Known(s.client, cid) ensures Known(Step(s, a).client, cid) {
      StepKeepsKnown(s, a, cid);
    }
    NetworkStep(s, a);
    if a.Call? && !Known(s.client, a.cid) {
      CallKnown(s, a);
    }
  }

  /** Nothing enters the network but the request of a new call and what a running handler returns. */
  lemma NetworkStep(s: System, a: Action)
    ensures forall cid | cid in Step(s, a).requests ::
              cid in s.requests || (a.Call? && a.cid == cid && !Known(s.client, cid)) ||
              exists i :: (i, cid) in s.running
    ensures forall run | run in Step(s, a).running :: run in s.running || run.1 in s.requests
    ensures forall run | run in Step(s, a).produced :: run in s.produced || exists i :: (i, run.0) in s.running
  {
    hide BeginCall, OnResponse, TimeOut, Resume, Abandon, Wire, Known;
  }

  lemma CallKnown(s: System, a: Action)
    requires a.Call? && !Known(s.client, a.cid)
    ensures Known(Step(s, a).client, a.cid)
  {
  }

  // ---------------------------------------------------------------------------------------------
  // The two objects
  // ---------------------------------------------------------------------------------------------

  /** The messenger of a client: call is cut at its awaits. */
  class Messenger {
    var futures: set<Cid>
    var responseModels: map<Cid, Option<Model>>
    var waiting: map<Cid, Future>
    var ended: map<Cid, End>

    constructor ()
      ensures Abs() == Idle.client
    {
      futures, responseModels, waiting, ended := {}, map[], map[], map[];
    }

    function Abs(): Client
      reads this
    {
      Client(futures, responseModels, waiting, ended)
    }

    method StartCall(cid: Cid, model: Option<Model>, published: bool)
      requires !Known(Abs(), cid)
      modifies this
      ensures Abs() == BeginCall(old(Abs()), cid, model, published)
    {
      futures := futures + {cid};
      responseModels := responseModels[cid := model];
      if !published {
        ended := ended[cid := NotPublished];
        return;
      }
      waiting := waiting[cid := Pending];
    }

    method HandleResponse(cid: Cid, body: Json)
      modifies this
      ensures Abs() == OnResponse(old(Abs()), cid, body)
    {
      if cid in futures {
        futures := futures - {cid};
        if cid in waiting && waiting[cid].Pending? {
          var response := Loads(body);
          waiting := waiting[cid := if response.Some? then Done(response.value) else Unreadable];
        }
      }
    }

    method TimeOutCall(cid: Cid, late: bool)
      modifies this
      ensures Abs() == TimeOut(old(Abs()), cid, late)
    {
      if cid in waiting && Expires(waiting[cid], late) {
        waiting := waiting[cid := Cancelled];
      }
    }

    method FinishCall(cid: Cid)
      requires cid in waiting && !waiting[cid].Pending?
      modifies this
      ensures Abs() == Resume(old(Abs()), cid)
    {
      var future := waiting[cid];
      waiting := waiting - {cid};
      match future
      case Cancelled =>
        if cid in futures {
          futures := futures - {cid};
        }
        if cid in responseModels {
          responseModels := responseModels - {cid};
        }
        assert futures == old(futures) - {cid} && responseModels == old(responseModels) - {cid};
        ended := ended[cid := TimedOut];
      case Unreadable =>
        ended := ended[cid := UnreadableReply];
      case Done(response) =>
        var model := None;
        if cid in responseModels {
          model := responseModels[cid];
          responseModels := responseModels - {cid};
        }
        assert responseModels == old(responseModels) - {cid};
        ended := ended[cid := Replied(response, model, Interpret(response, model))];
    }

    method StopMessenger()
      modifies this
      ensures Abs() == Stop(old(Abs()))
    {
      futures, responseModels := {}, map[];
    }
  }

  /** The body decodes to a mapping, which has arguments to look up. */
  predicate Readable(body: Body) {
    Read(body).Some? && Read(body).value.Dict?
  }

  /** One RPC entry point of one instance. */
  class RpcTask {
    var futures: set<Cid>
    const instance: Instance

    constructor (instance: Instance)
      ensures futures == {} && this.instance == instance
    {
      futures := {};
      this.instance := instance;
    }

    /** What the task contributes to the system: the correlation ids it is busy with. */
    ghost predicate Shows(s: System)
      reads this
    {
      forall cid :: cid in futures <==> (instance, cid) in s.busy
    }

    /**
      A delivered request: a duplicate is dropped, one that cannot be read is dropped and its id is
      free again, and any other starts the handler.
     */
    method Accept(cid: Cid, body: Body, ghost s: System) returns (started: bool)
      requires Shows(s) && cid in s.requests
      modifies this
      ensures Shows(Step(s, Deliver(instance, cid, Readable(body))))
      ensures started <==> (instance, cid) !in s.busy && Readable(body)
    {
      if cid in futures {
        return false;
      }
      futures := futures + {cid};
      var request := Read(body);
      if request.None? || !request.value.Dict? {
        futures := futures - {cid};
        return false;
      }
      return true;
    }

    /** The end of the handler: its result becomes the one reply, and the entry is removed. */
    method Reply(cid: Cid, result: HandlerResult, sent: bool, acked: bool, ghost s: System) returns (body: Json)
      requires Shows(s) && (instance, cid) in s.running
      modifies this
      ensures Shows(Step(s, Finish(instance, cid, result, sent, acked)))
      ensures body == Wire(result)
    {
      var response: RpcReturn;
      match result {
        case Returned(v) =>
          response := if v.Return? then v.ret else RpcReturn(Bool(true), v, Null, NONE, Null);
        case Raised(message) =>
          response := RpcReturn(Bool(false), Null, Str(message), SERVER, Str("INTERNAL_ERROR"));
      }
      body := Dumps(Return(response));
      futures := futures - {cid};
    }
  }
}
