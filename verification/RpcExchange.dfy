/**
  What a call gets when its reply comes, and what one instance does with the requests it is sent, in
  every run of the system of Rpc.
 */
module RpcExchange {
  import opened Wrappers
  import opened Serialization
  import opened Rpc

  // ---------------------------------------------------------------------------------------------
  // How a waiting call ends
  // ---------------------------------------------------------------------------------------------

  /** The call waits for its reply and can still get it. */
  predicate Open(c: Client, cid: Cid) {
    cid in c.futures && cid in c.models && cid in c.waiting && c.waiting[cid] == Pending && cid !in c.ended
  }

  /** The end of a call whose reply has that body. */
  function EndOf(body: Json, model: Option<Model>): End {
    var response := Loads(body);
    if response.None? then UnreadableReply
    else Replied(response.value, model, Interpret(response.value, model))
  }

  /** The values that count as false. */
  const FALSY := [Null, Bool(false), Num(0.0), Str(""), Bytes([]), List([]), Dict(map[])]

  /** What an RpcReturn that the handler made itself means to the caller. */
  function Told(r: RpcReturn, model: Option<Model>): Outcome {
    if r.success in FALSY then
      if r.errorType == CLIENT then ClientError(r.errorCode, r.message) else ServerError(r.errorCode, r.message)
    else if model.None? || !r.result.Dict? then Result(r.result)
    else Built(model.value, r.result.fields)
  }

  lemma FalsyIsNotTruthy(v: Value)
    ensures v in FALSY <==> !Truthy(v)
  {
    var falsy := FALSY;
    assert falsy[0] == Null && falsy[1] == Bool(false) && falsy[2] == Num(0.0) && falsy[3] == Str("");
    assert falsy[4] == Bytes([]) && falsy[5] == List([]) && falsy[6] == Dict(map[]);
  }

  lemma OwnReturnMeans(v: Value, model: Option<Model>)
    requires v.Return? && Untagged(v)
    ensures var end := EndOf(Wire(Returned(v)), model); end.Replied? && end.outcome == Told(v.ret, model)
  {
    hide Dumps, Loads, Untagged, Truthy;
    RoundTrip(v);
    FalsyIsNotTruthy(v.ret.success);
  }

  /**
    What the end of a call tells of its handler: a value that carries no tag is the value the call
    returns, or the fields of its response model; an rpc_error and an exception are raised as such.
   */
  ghost predicate Means(end: End, result: HandlerResult, model: Option<Model>) {
    match result
    case Returned(v) =>
      && (!v.Return? && Untagged(v) ==>
            end.Replied? && end.outcome == if model.Some? && v.Dict? then Built(model.value, v.fields) else Result(v))
      && (forall code, message | v == RpcError(code, message) ::
            end.Replied? && end.outcome == ClientError(Str(code), Str(message)))
      && (v.Return? && Untagged(v) ==> end.Replied? && end.outcome == Told(v.ret, model))
    case Raised(text) => end.Replied? && end.outcome == ServerError(Str("INTERNAL_ERROR"), Str(text))
  }

  lemma WireMeans(result: HandlerResult, model: Option<Model>)
    ensures Means(EndOf(Wire(result), model), result, model)
  {
    hide Wire, Interpret, Loads, Untagged, RpcError, Told;
    AcrossTheBus(result);
    if result.Returned? && result.value.Return? && Untagged(result.value) {
      OwnReturnMeans(result.value, model);
    }
  }

  /** An open call ends with its reply, read with the model it was made with; no other call is touched. */
  lemma ReplyCompletes(c: Client, cid: Cid, body: Json)
    requires Open(c, cid)
    ensures var after := Resume(OnResponse(c, cid, body), cid);
            && after.ended == c.ended[cid := EndOf(body, c.models[cid])]
            && after.waiting == c.waiting - {cid} && after.futures == c.futures - {cid}
            && after.models == if Loads(body).Some? then c.models - {cid} else c.models
  {
    hide Loads, Interpret;
  }

  /** A call whose time is over ends so, with both entries gone, and a reply that comes later changes nothing. */
  lemma TimeoutCompletes(c: Client, cid: Cid, late: bool, body: Json)
    requires Open(c, cid)
    ensures var after := Resume(TimeOut(c, cid, late), cid);
            && after.ended == c.ended[cid := TimedOut]
            && after.waiting == c.waiting - {cid}
            && after.futures == c.futures - {cid} && after.models == c.models - {cid}
            && OnResponse(after, cid, body) == after
            && Resume(OnResponse(TimeOut(c, cid, late), cid, body), cid) == after
  {
    hide Loads, Interpret;
  }

  /**
    The calls that leave something behind: one whose request was not published and one whose caller
    gave up keep both entries, and one whose reply cannot be read keeps its response model.
   */
  lemma EntriesLeftBehind(c: Client, cid: Cid, model: Option<Model>, body: Json)
    ensures !Known(c, cid) ==>
              var failed := BeginCall(c, cid, model, false);
              && failed.ended == c.ended[cid := NotPublished] && failed.waiting == c.waiting
              && cid in failed.futures && cid in failed.models
    ensures Open(c, cid) ==>
              var abandoned := Abandon(c, cid);
              && abandoned.ended == c.ended[cid := Abandoned] && abandoned.waiting == c.waiting - {cid}
              && abandoned.futures == c.futures && abandoned.models == c.models
    ensures Open(c, cid) && Loads(body).None? ==> cid in Resume(OnResponse(c, cid, body), cid).models
    ensures Stop(c).futures == {} && Stop(c).models == map[] && OnResponse(Stop(c), cid, body) == Stop(c)
  {
    hide Loads, Interpret;
  }

  // ---------------------------------------------------------------------------------------------
  // One exchange, whatever else goes on
  // ---------------------------------------------------------------------------------------------

  /** The step is about another call. */
  predicate Elsewhere(a: Action, cid: Cid) {
    match a
    case Call(c, _, _) => c != cid
    case Deliver(_, c, _) => c != cid
    case Redeliver(_, c) => c != cid
    case Finish(_, c, _, _, _) => c != cid
    case CancelHandler(_, c) => c != cid
    case DuplicateReply(reply) => reply.cid != cid
    case LoseReply(reply) => reply.cid != cid
    case Respond(reply) => reply.cid != cid
    case FireTimeout(c, _) => c != cid
    case ResumeCall(c) => c != cid
    case AbandonCall(c) => c != cid
    case StopClient => false
  }

  ghost predicate AllElsewhere(run: seq<Action>, cid: Cid) {
    forall a | a in run :: Elsewhere(a, cid)
  }

  /** Both clients know the same about the call. */
  ghost predicate SameCall(c: Client, d: Client, cid: Cid) {
    && (cid in c.futures <==> cid in d.futures)
    && (cid in c.models <==> cid in d.models) && (cid in c.models ==> c.models[cid] == d.models[cid])
    && (cid in c.waiting <==> cid in d.waiting) && (cid in c.waiting ==> c.waiting[cid] == d.waiting[cid])
    && (cid in c.ended <==> cid in d.ended) && (cid in c.ended ==> c.ended[cid] == d.ended[cid])
  }

  /** Nothing about the call differs, at its client or in the network or at any instance. */
  ghost predicate SameFor(s: System, t: System, cid: Cid) {
    && SameCall(s.client, t.client, cid)
    && s.requests[cid] == t.requests[cid]
    && (forall i: Instance :: (i, cid) in s.busy <==> (i, cid) in t.busy)
    && (forall i: Instance :: (i, cid) in s.running <==> (i, cid) in t.running)
    && (forall body: Json :: s.replies[Reply(cid, body)] == t.replies[Reply(cid, body)])
  }

  lemma CallElsewhere(c: Client, cid: Cid, other: Cid, model: Option<Model>, published: bool)
    requires cid != other
    ensures SameCall(c, BeginCall(c, other, model, published), cid)
  {
  }

  lemma ResponseElsewhere(c: Client, cid: Cid, other: Cid, body: Json)
    requires cid != other
    ensures SameCall(c, OnResponse(c, other, body), cid)
  {
    hide Loads;
  }

  lemma WaitElsewhere(c: Client, cid: Cid, other: Cid, late: bool)
    requires cid != other
    ensures SameCall(c, TimeOut(c, other, late), cid)
    ensures SameCall(c, Abandon(c, other), cid)
  {
  }

  lemma ResumeElsewhere(c: Client, cid: Cid, other: Cid)
    requires cid != other
    ensures SameCall(c, Resume(c, other), cid)
  {
    hide Interpret;
  }

  lemma StepElsewhere(s: System, a: Action, cid: Cid)
    requires Elsewhere(a, cid)
    ensures SameFor(s, Step(s, a), cid)
  {
    hide Step, SameCall;
    ClientStepElsewhere(s, a, cid);
    RequestsElsewhere(s, a, cid);
    RepliesElsewhere(s, a, cid);
  }

  lemma ClientStepElsewhere(s: System, a: Action, cid: Cid)
    requires Elsewhere(a, cid)
    ensures SameCall(s.client, Step(s, a).client, cid)
  {
    hide BeginCall, OnResponse, TimeOut, Resume, Abandon, Wire, Known, SameCall;
    SameCallTwice(s.client, cid);
    match a
    case Call(c, model, publishing) => CallElsewhere(s.client, cid, c, model, publishing.Confirmed?);
    case Respond(reply) => ResponseElsewhere(s.client, cid, reply.cid, reply.body);
    case FireTimeout(c, late) => WaitElsewhere(s.client, cid, c, late);
    case ResumeCall(c) => ResumeElsewhere(s.client, cid, c);
    case AbandonCall(c) => WaitElsewhere(s.client, cid, c, false);
    case _ =>
  }

  lemma RequestsElsewhere(s: System, a: Action, cid: Cid)
    requires Elsewhere(a, cid)
    ensures var t := Step(s, a);
            && s.requests[cid] == t.requests[cid]
            && (forall i: Instance :: (i, cid) in s.busy <==> (i, cid) in t.busy)
            && (forall i: Instance :: (i, cid) in s.running <==> (i, cid) in t.running)
  {
    hide BeginCall, OnResponse, TimeOut, Resume, Abandon, Wire, Known, Stop;
  }

  lemma RepliesElsewhere(s: System, a: Action, cid: Cid)
    requires Elsewhere(a, cid)
    ensures forall body: Json :: s.replies[Reply(cid, body)] == Step(s, a).replies[Reply(cid, body)]
  {
    hide BeginCall, OnResponse, TimeOut, Resume, Abandon, Wire, Known, Stop;
  }

  lemma SameCallTwice(c: Client, cid: Cid)
    ensures SameCall(c, c, cid)
  {
  }

  lemma {:induction false} RunElsewhere(run: seq<Action>, more: seq<Action>, cid: Cid)
    requires AllElsewhere(more, cid)
    ensures SameFor(Exec(run), Exec(run + more), cid)
  {
    hide Step, Elsewhere;
    if |more| == 0 {
      assert run + more == run;
    } else {
      var all := run + more;
      assert all[..|all| - 1] == run + more[..|more| - 1];
      RunElsewhere(run, more[..|more| - 1], cid);
      StepElsewhere(Exec(all[..|all| - 1]), more[|more| - 1], cid);
    }
  }

  lemma ExecOne(run: seq<Action>, a: Action)
    ensures Exec(run + [a]) == Step(Exec(run), a)
  {
    assert (run + [a])[..|run|] == run;
  }

  /** Only instances that took a request of the call are busy with it. */
  lemma {:induction false} BusyWereCalled(run: seq<Action>)
    ensures forall r | r in Exec(run).busy :: Known(Exec(run).client, r.1)
  {
    hide Step, Known;
    if |run| > 0 {
      var s, a := Exec(run[..|run| - 1]), run[|run| - 1];
      BusyWereCalled(run[..|run| - 1]);
      HandlersWereCalled(run[..|run| - 1]);
      BusyStep(s, a);
      forall r | r in Step(s, a).busy ensures Known(Step(s, a).client, r.1) {
        StepKeepsKnown(s, a, r.1);
      }
    }
  }

  lemma BusyStep(s: System, a: Action)
    ensures forall r | r in Step(s, a).busy :: r in s.busy || r.1 in s.requests
  {
    hide BeginCall, OnResponse, TimeOut, Resume, Abandon, Wire, Known;
  }

  /** The call is open, and its request is on its way, handled by an instance, or answered. */
  ghost predicate Asked(s: System, cid: Cid, model: Option<Model>) {
    Open(s.client, cid) && s.client.models[cid] == model
  }

  lemma AskedElsewhere(s: System, t: System, cid: Cid, model: Option<Model>)
    requires Asked(s, cid, model) && SameFor(s, t, cid)
    ensures Asked(t, cid, model)
  {
  }

  lemma CallStep(s: System, cid: Cid, model: Option<Model>, instance: Instance)
    requires !Known(s.client, cid) && forall r | r in s.busy :: Known(s.client, r.1)
    ensures var t := Step(s, Call(cid, model, Confirmed));
            Asked(t, cid, model) && cid in t.requests && (instance, cid) !in t.busy
  {
    assert (instance, cid) in s.busy ==> Known(s.client, (instance, cid).1);
  }

  lemma DeliverStep(s: System, cid: Cid, model: Option<Model>, instance: Instance)
    requires Asked(s, cid, model) && cid in s.requests && (instance, cid) !in s.busy
    ensures var t := Step(s, Deliver(instance, cid, true)); Asked(t, cid, model) && (instance, cid) in t.running
  {
  }

  lemma FinishStep(s: System, cid: Cid, model: Option<Model>, instance: Instance, result: HandlerResult, acked: bool)
    requires Asked(s, cid, model) && (instance, cid) in s.running
    ensures var t := Step(s, Finish(instance, cid, result, true, acked));
            Asked(t, cid, model) && Reply(cid, Wire(result)) in t.replies
  {
    hide Wire;
  }

  lemma RespondStep(s: System, cid: Cid, model: Option<Model>, body: Json)
    requires Asked(s, cid, model) && Reply(cid, body) in s.replies
    ensures Step(s, Respond(Reply(cid, body))).client == OnResponse(s.client, cid, body)
  {
    hide OnResponse;
  }

  /** A run in which the request of a call is handled by an instance and its reply handled by the caller. */
  function Exchange(cid: Cid, model: Option<Model>, instance: Instance, result: HandlerResult, acked: bool,
                    sending: seq<Action>, handling: seq<Action>, replying: seq<Action>, waking: seq<Action>)
    : seq<Action>
  {
    [Call(cid, model, Confirmed)] + sending + [Deliver(instance, cid, true)] + handling
    + [Finish(instance, cid, result, true, acked)] + replying + [Respond(Reply(cid, Wire(result)))] + waking
    + [ResumeCall(cid)]
  }

  /**
    After every run, a call whose request is delivered and whose reply is handled before its time is
    over ends with the decoded result of its handler, read with its own response model, whatever all
    other calls do in between.
   */
  lemma CallGetsItsReply(prior: seq<Action>, cid: Cid, model: Option<Model>, instance: Instance,
                         result: HandlerResult, acked: bool, sending: seq<Action>, handling: seq<Action>,
                         replying: seq<Action>, waking: seq<Action>)
    requires !Known(Exec(prior).client, cid)
    requires AllElsewhere(sending, cid) && AllElsewhere(handling, cid)
    requires AllElsewhere(replying, cid) && AllElsewhere(waking, cid)
    ensures var run := prior + Exchange(cid, model, instance, result, acked, sending, handling, replying, waking);
            && cid in Exec(run).client.ended
            && Exec(run).client.ended[cid] == EndOf(Wire(result), model)
            && Means(Exec(run).client.ended[cid], result, model)
  {
    hide Exec, Step, Known, AllElsewhere, SameFor, Asked, Wire, Loads, Interpret, EndOf, OnResponse, Resume, Means;
    WireMeans(result, model);
    BusyWereCalled(prior);
    CallStep(Exec(prior), cid, model, instance);
    var called := prior + [Call(cid, model, Confirmed)];
    ExecOne(prior, Call(cid, model, Confirmed));
    RunElsewhere(called, sending, cid);
    SentOn(Exec(called), Exec(called + sending), cid, model, instance);
    var delivered := called + sending + [Deliver(instance, cid, true)];
    ExecOne(called + sending, Deliver(instance, cid, true));
    DeliverStep(Exec(called + sending), cid, model, instance);
    RunElsewhere(delivered, handling, cid);
    HandledOn(Exec(delivered), Exec(delivered + handling), cid, model, instance);
    var finished := delivered + handling + [Finish(instance, cid, result, true, acked)];
    ExecOne(delivered + handling, Finish(instance, cid, result, true, acked));
    FinishStep(Exec(delivered + handling), cid, model, instance, result, acked);
    RunElsewhere(finished, replying, cid);
    RepliedOn(Exec(finished), Exec(finished + replying), cid, model, Wire(result));
    var responded := finished + replying + [Respond(Reply(cid, Wire(result)))];
    ExecOne(finished + replying, Respond(Reply(cid, Wire(result))));
    RespondStep(Exec(finished + replying), cid, model, Wire(result));
    RunElsewhere(responded, waking, cid);
    ExecOne(responded + waking, ResumeCall(cid));
    Woken(Exec(finished + replying), Exec(responded), Exec(responded + waking), cid, model, Wire(result));
    assert responded + waking + [ResumeCall(cid)] ==
           prior + Exchange(cid, model, instance, result, acked, sending, handling, replying, waking);
  }

  lemma SentOn(s: System, t: System, cid: Cid, model: Option<Model>, instance: Instance)
    requires Asked(s, cid, model) && SameFor(s, t, cid) && cid in s.requests && (instance, cid) !in s.busy
    ensures Asked(t, cid, model) && cid in t.requests && (instance, cid) !in t.busy
  {
  }

  lemma HandledOn(s: System, t: System, cid: Cid, model: Option<Model>, instance: Instance)
    requires Asked(s, cid, model) && SameFor(s, t, cid) && (instance, cid) in s.running
    ensures Asked(t, cid, model) && (instance, cid) in t.running
  {
  }

  lemma RepliedOn(s: System, t: System, cid: Cid, model: Option<Model>, body: Json)
    requires Asked(s, cid, model) && SameFor(s, t, cid) && Reply(cid, body) in s.replies
    ensures Asked(t, cid, model) && Reply(cid, body) in t.replies
  {
  }

  lemma Woken(s: System, answered: System, t: System, cid: Cid, model: Option<Model>, body: Json)
    requires Asked(s, cid, model) && answered.client == OnResponse(s.client, cid, body) && SameFor(answered, t, cid)
    ensures var after := Step(t, ResumeCall(cid)).client;
            cid in after.ended && after.ended[cid] == EndOf(body, model)
  {
    hide Loads, Interpret;
  }

  // ---------------------------------------------------------------------------------------------
  // What an instance does with its requests
  // ---------------------------------------------------------------------------------------------

  /** What can happen to the handler of a request at an instance. */
  datatype Moment = Starts | Ends | BreaksOff

  predicate Is(moment: Moment, s: System, a: Action, instance: Instance, cid: Cid) {
    match moment
    case Starts => a == Deliver(instance, cid, true) && cid in s.requests && (instance, cid) !in s.busy
    case Ends => a.Finish? && a.instance == instance && a.cid == cid && (instance, cid) in s.running
    case BreaksOff => a == CancelHandler(instance, cid) && (instance, cid) in s.running
  }

  function Count(run: seq<Action>, moment: Moment, instance: Instance, cid: Cid): nat {
    if |run| == 0 then 0
    else
      var init, last := run[..|run| - 1], run[|run| - 1];
      Count(init, moment, instance, cid) + if Is(moment, Exec(init), last, instance, cid) then 1 else 0
  }

  /**
    Over every run, an instance starts a handler for a request exactly when it is not busy with it,
    stays busy until the handler ends, and stays so for good when the handler is cancelled: it runs
    one handler at a time for a call, and drops the request that a cancelled one gave back.
   */
  lemma {:induction false} OneHandlerAtATime(run: seq<Action>, instance: Instance, cid: Cid)
    ensures var started := Count(run, Starts, instance, cid);
            var ended, cancelled := Count(run, Ends, instance, cid), Count(run, BreaksOff, instance, cid);
            && started == ended + (if (instance, cid) in Exec(run).busy then 1 else 0)
            && started == ended + cancelled + (if (instance, cid) in Exec(run).running then 1 else 0)
  {
    hide Step, Is;
    if |run| > 0 {
      var s, a := Exec(run[..|run| - 1]), run[|run| - 1];
      OneHandlerAtATime(run[..|run| - 1], instance, cid);
      BusyAfter(s, a, instance, cid);
    }
  }

  lemma BusyAfter(s: System, a: Action, instance: Instance, cid: Cid)
    ensures var starts, ends := Is(Starts, s, a, instance, cid), Is(Ends, s, a, instance, cid);
            var cancelled := Is(BreaksOff, s, a, instance, cid);
            && !(starts && ends) && !(starts && cancelled) && !(cancelled && ends)
            && (starts ==> (instance, cid) !in s.busy)
            && (ends || cancelled ==> (instance, cid) in s.running)
            && ((instance, cid) in Step(s, a).busy <==> starts || ((instance, cid) in s.busy && !ends))
            && ((instance, cid) in Step(s, a).running <==>
                  starts || ((instance, cid) in s.running && !ends && !cancelled))
  {
    hide BeginCall, OnResponse, TimeOut, Resume, Abandon, Wire, Known;
  }
}
