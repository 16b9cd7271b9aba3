/**
  How flow and hop ids thread through a whole run of the mesh: any number of asyncio tasks that
  enter and leave handler scopes, start one another and send messages, in any order
  (kontiki/runtime/handler_scope.py, kontiki/messaging/flow.py, kontiki/messaging/publisher/messenger.py).
  No explicit flow id is passed.
 */
module Tracing {
  import opened Wrappers
  import opened HandlerScope

  /** One asyncio task: the context it started with, and the scopes it entered on top. */
  datatype Thread = Thread(base: Option<nat>, scopes: seq<nat>)

  /** Contexts are shared objects, named by their index; senders[i] is the one messages[i] was sent from. */
  datatype Mesh = Mesh(messages: seq<Headers>, senders: seq<nat>, contexts: seq<Context>, threads: seq<Thread>)

  datatype Action =
    | Start
    | Spawn(thread: nat)
    | Enter(thread: nat, kind: Kind, operation: string, message: Option<nat>, flow: Id)
    | Leave(thread: nat)
    | Send(thread: nat, own: Headers, extra: Headers, rpcService: Option<string>, flow: Id, hop: Id)

  const EMPTY := Mesh([], [], [], [])

  function CurrentOf(thread: Thread): Option<nat> {
    if |thread.scopes| == 0 then thread.base else Some(thread.scopes[|thread.scopes| - 1])
  }

  /** The headers a handler is reached with; a message from outside the mesh carries no tracing header. */
  function HeadersOf(mesh: Mesh, message: Option<nat>): Headers {
    if message.Some? && message.value < |mesh.messages| then mesh.messages[message.value] else map[]
  }

  function ContextAt(mesh: Mesh, index: Option<nat>): Option<Context> {
    if index.Some? && index.value < |mesh.contexts| then Some(mesh.contexts[index.value]) else None
  }

  /** Publish or call from a thread; a context without a flow gets one, and stays. */
  function Sent(mesh: Mesh, t: nat, own: Headers, extra: Headers, rpcService: Option<string>, flow: Id, hop: Id): Mesh
    requires t < |mesh.threads|
  {
    var thread := mesh.threads[t];
    var index, context := CurrentOf(thread), ContextAt(mesh, CurrentOf(thread));
    var resolved := Resolved(None, context, map[], flow);
    var after := WithFlow(context, resolved);
    var message := Stamped((own + extra)[FlowId := resolved], Some(after), rpcService, hop);
    if context.Some? then
      Mesh(mesh.messages + [message], mesh.senders + [index.value], mesh.contexts[index.value := after], mesh.threads)
    else
      Mesh(mesh.messages + [message], mesh.senders + [|mesh.contexts|], mesh.contexts + [after],
           mesh.threads[t := thread.(base := Some(|mesh.contexts|))])
  }

  function Step(mesh: Mesh, action: Action): Mesh {
    if !action.Start? && action.thread >= |mesh.threads| then mesh
    else
      match action
      case Start => mesh.(threads := mesh.threads + [Thread(None, [])])
      case Spawn(t) => mesh.(threads := mesh.threads + [Thread(CurrentOf(mesh.threads[t]), [])])
      case Enter(t, kind, operation, message, flow) =>
        var context := Entered(kind, operation, HeadersOf(mesh, message), flow);
        var thread := mesh.threads[t];
        mesh.(contexts := mesh.contexts + [context],
              threads := mesh.threads[t := thread.(scopes := thread.scopes + [|mesh.contexts|])])
      case Leave(t) =>
        var thread := mesh.threads[t];
        if |thread.scopes| == 0 then mesh
        else mesh.(threads := mesh.threads[t := thread.(scopes := thread.scopes[..|thread.scopes| - 1])])
      case Send(t, own, extra, rpcService, flow, hop) =>
        if Allowed(extra) then Sent(mesh, t, own, extra, rpcService, flow, hop) else mesh
  }

  function Exec(run: seq<Action>): Mesh {
    if |run| == 0 then EMPTY else Step(Exec(run[..|run| - 1]), run[|run| - 1])
  }

  // ---------------------------------------------------------------------------------------------
  // Messages and contexts agree
  // ---------------------------------------------------------------------------------------------

  /** The message carries a hop and its sender's flow, and names the hop its sender was reached by. */
  ghost predicate SentFrom(message: Headers, context: Context) {
    && FlowId in message && Some(message[FlowId]) == context.flow && message[FlowId] != ""
    && HopId in message && message[HopId] != ""
    && (ParentHopId in message <==> InboundHop(Some(context)).Some?)
    && (ParentHopId in message ==> message[ParentHopId] == InboundHop(Some(context)).value)
  }

  /** messages[m] carries this hop and this flow. */
  predicate Carries(message: Headers, hop: string, flow: Option<string>) {
    HopId in message && FlowId in message && message[HopId] == hop && Some(message[FlowId]) == flow
  }

  /** A context that continues a hop was created after the message that carried it. */
  ghost predicate Reached(messages: seq<Headers>, senders: seq<nat>, c: nat, context: Context)
    requires |messages| == |senders|
  {
    var hop := InboundHop(Some(context));
    && context.flow.Some? && context.flow.value != ""
    && (context.Handler? && context.hop.Some? ==> Continues(context.kind))
    && (hop.Some? ==> hop.value != "")
    && (hop.Some? ==> exists m :: 0 <= m < |messages| && senders[m] < c
                                  && Carries(messages[m], hop.value, context.flow))
  }

  /** The parent of a message was emitted earlier, in the same flow, by a sender created before its own. */
  ghost predicate HasParent(messages: seq<Headers>, senders: seq<nat>, i: nat)
    requires |messages| == |senders| && i < |messages|
  {
    var message := messages[i];
    ParentHopId in message && FlowId in message ==>
      exists m :: 0 <= m < i && senders[m] < senders[i]
                  && Carries(messages[m], message[ParentHopId], Some(message[FlowId]))
  }

  ghost predicate Traces(messages: seq<Headers>, senders: seq<nat>, contexts: seq<Context>) {
    && |senders| == |messages|
    && (forall i | 0 <= i < |senders| :: senders[i] < |contexts|)
    && (forall i | 0 <= i < |messages| :: SentFrom(messages[i], contexts[senders[i]]))
    && (forall c | 0 <= c < |contexts| :: Reached(messages, senders, c, contexts[c]))
    && (forall i | 0 <= i < |messages| :: HasParent(messages, senders, i))
  }

  /** A thread only refers to contexts that exist. */
  predicate Refers(thread: Thread, count: nat) {
    && (thread.base.Some? ==> thread.base.value < count)
    && (forall k | 0 <= k < |thread.scopes| :: thread.scopes[k] < count)
  }

  ghost predicate Inv(mesh: Mesh) {
    && Traces(mesh.messages, mesh.senders, mesh.contexts)
    && (forall t | 0 <= t < |mesh.threads| :: Refers(mesh.threads[t], |mesh.contexts|))
  }

  lemma MessageAdded(messages: seq<Headers>, senders: seq<nat>, contexts: seq<Context>, message: Headers, s: nat)
    requires Traces(messages, senders, contexts) && s < |contexts| && SentFrom(message, contexts[s])
    ensures Traces(messages + [message], senders + [s], contexts)
  {
    hide SentFrom, Carries;
    var ms, ss := messages + [message], senders + [s];
    forall c | 0 <= c < |contexts| ensures Reached(ms, ss, c, contexts[c]) {
      var hop := InboundHop(Some(contexts[c]));
      if hop.Some? {
        var m :| 0 <= m < |messages| && senders[m] < c && Carries(messages[m], hop.value, contexts[c].flow);
        assert ms[m] == messages[m] && ss[m] == senders[m];
      }
    }
    forall i | 0 <= i < |ms| ensures HasParent(ms, ss, i) {
      if i < |messages| {
        assert HasParent(messages, senders, i);
        if ParentHopId in ms[i] && FlowId in ms[i] {
          var m :| 0 <= m < i && senders[m] < senders[i]
                   && Carries(messages[m], messages[i][ParentHopId], Some(messages[i][FlowId]));
          assert ms[m] == messages[m] && ss[m] == senders[m];
        }
      } else {
        assert Reached(messages, senders, s, contexts[s]);
        assert SentFrom(message, contexts[s]);
        ParentOfSent(messages, senders, message, s, contexts[s]);
      }
    }
  }

  lemma ParentOfSent(messages: seq<Headers>, senders: seq<nat>, message: Headers, s: nat, context: Context)
    requires |senders| == |messages| && Reached(messages, senders, s, context) && SentFrom(message, context)
    ensures HasParent(messages + [message], senders + [s], |messages|)
  {
    var ms, ss := messages + [message], senders + [s];
    if ParentHopId in message {
      var hop := InboundHop(Some(context)).value;
      var m :| 0 <= m < |messages| && senders[m] < s && Carries(messages[m], hop, context.flow);
      assert ms[m] == messages[m] && ss[m] == senders[m];
    }
  }

  lemma ContextAdded(messages: seq<Headers>, senders: seq<nat>, contexts: seq<Context>, context: Context)
    requires Traces(messages, senders, contexts) && Reached(messages, senders, |contexts|, context)
    ensures Traces(messages, senders, contexts + [context])
  {
    hide SentFrom, Reached, HasParent;
  }

  lemma EnteredReached(mesh: Mesh, kind: Kind, operation: string, message: Option<nat>, flow: Id)
    requires Inv(mesh)
    ensures Reached(mesh.messages, mesh.senders, |mesh.contexts|,
                    Entered(kind, operation, HeadersOf(mesh, message), flow))
  {
    if message.Some? && message.value < |mesh.messages| {
      var m := message.value;
      assert SentFrom(mesh.messages[m], mesh.contexts[mesh.senders[m]]);
      assert Carries(mesh.messages[m], mesh.messages[m][HopId], Some(mesh.messages[m][FlowId]));
    }
  }

  lemma SentKeepsInv(mesh: Mesh, t: nat, own: Headers, extra: Headers, rpcService: Option<string>, flow: Id, hop: Id)
    requires Inv(mesh) && t < |mesh.threads|
    ensures Inv(Sent(mesh, t, own, extra, rpcService, flow, hop))
    ensures mesh.contexts <= Sent(mesh, t, own, extra, rpcService, flow, hop).contexts
  {
    hide Traces, HasParent, Stamped;
    var thread := mesh.threads[t];
    assert Refers(thread, |mesh.contexts|);
    var context := ContextAt(mesh, CurrentOf(thread));
    var resolved := Resolved(None, context, map[], flow);
    var after := WithFlow(context, resolved);
    var headers := (own + extra)[FlowId := resolved];
    var message := Stamped(headers, Some(after), rpcService, hop);
    FlowKnown(mesh);
    if context.Some? {
      var index := CurrentOf(thread).value;
      assert Reached(mesh.messages, mesh.senders, index, mesh.contexts[index]);
      assert after == context.value && mesh.contexts[index := after] == mesh.contexts;
      assert SentFrom(message, after);
      MessageAdded(mesh.messages, mesh.senders, mesh.contexts, message, index);
    } else {
      assert Reached(mesh.messages, mesh.senders, |mesh.contexts|, after);
      ContextAdded(mesh.messages, mesh.senders, mesh.contexts, after);
      assert SentFrom(message, after);
      MessageAdded(mesh.messages, mesh.senders, mesh.contexts + [after], message, |mesh.contexts|);
    }
  }

  lemma FlowKnown(mesh: Mesh)
    requires Inv(mesh)
    ensures |mesh.senders| == |mesh.messages|
    ensures forall c | 0 <= c < |mesh.contexts| :: Reached(mesh.messages, mesh.senders, c, mesh.contexts[c])
  {
  }

  lemma StepKeepsInv(mesh: Mesh, action: Action)
    requires Inv(mesh)
    ensures Inv(Step(mesh, action)) && mesh.contexts <= Step(mesh, action).contexts
  {
    hide Traces, Sent, Entered, Reached;
    FlowKnown(mesh);
    if action.Start? || action.thread < |mesh.threads| {
      match action
      case Start =>
      case Spawn(t) => assert Refers(mesh.threads[t], |mesh.contexts|);
      case Leave(t) => assert Refers(mesh.threads[t], |mesh.contexts|);
      case Enter(t, kind, operation, message, flow) =>
        EnteredReached(mesh, kind, operation, message, flow);
        ContextAdded(mesh.messages, mesh.senders, mesh.contexts,
                     Entered(kind, operation, HeadersOf(mesh, message), flow));
        assert Refers(mesh.threads[t], |mesh.contexts|);
      case Send(t, own, extra, rpcService, flow, hop) =>
        SentKeepsInv(mesh, t, own, extra, rpcService, flow, hop);
    }
  }

  lemma {:induction false} RunKeepsInv(run: seq<Action>)
    ensures Inv(Exec(run))
  {
    if |run| > 0 {
      RunKeepsInv(run[..|run| - 1]);
      StepKeepsInv(Exec(run[..|run| - 1]), run[|run| - 1]);
    }
  }

  // ---------------------------------------------------------------------------------------------
  // Hops form a forest
  // ---------------------------------------------------------------------------------------------

  /** Every generated hop id is new. */
  ghost predicate FreshHops(run: seq<Action>) {
    if |run| == 0 then true
    else
      var init, last := run[..|run| - 1], run[|run| - 1];
      FreshHops(init) &&
      (last.Send? ==> forall m: Headers | m in Exec(init).messages && HopId in m :: m[HopId] != last.hop)
  }

  ghost predicate HopsDistinct(messages: seq<Headers>) {
    forall i, j | 0 <= i < j < |messages| && HopId in messages[i] && HopId in messages[j] ::
      messages[i][HopId] != messages[j][HopId]
  }

  function IndexOf(messages: seq<Headers>, hop: string): (m: Option<nat>)
    ensures m.Some? ==> m.value < |messages| && HopId in messages[m.value] && messages[m.value][HopId] == hop
    ensures m.None? ==> forall k | 0 <= k < |messages| && HopId in messages[k] :: messages[k][HopId] != hop
  {
    if |messages| == 0 then None
    else
      var last := messages[|messages| - 1];
      if HopId in last && last[HopId] == hop then Some(|messages| - 1) else IndexOf(messages[..|messages| - 1], hop)
  }

  /** The message a handler was reached by when it sent messages[i]. */
  function ParentOf(messages: seq<Headers>, i: nat): (parent: Option<nat>)
    requires i < |messages|
    ensures parent.Some? ==> parent.value < |messages|
  {
    if ParentHopId in messages[i] then IndexOf(messages, messages[i][ParentHopId]) else None
  }

  /** From a message back to the one its chain started with. */
  function Lineage(messages: seq<Headers>, i: nat): (path: seq<nat>)
    requires i < |messages|
    ensures |path| > 0 && path[0] == i && forall k | 0 <= k < |path| :: path[k] < |messages|
  {
    var parent := ParentOf(messages, i);
    if parent.Some? && parent.value < i then [i] + Lineage(messages, parent.value) else [i]
  }

  function Root(messages: seq<Headers>, i: nat): (root: nat)
    requires i < |messages|
    ensures root < |messages|
  {
    var path := Lineage(messages, i);
    path[|path| - 1]
  }

  lemma {:induction false} FreshHopsAreDistinct(run: seq<Action>)
    requires FreshHops(run)
    ensures HopsDistinct(Exec(run).messages)
  {
    hide Stamped;
    if |run| > 0 {
      var init, last := run[..|run| - 1], run[|run| - 1];
      FreshHopsAreDistinct(init);
      var before, after := Exec(init).messages, Exec(run).messages;
      if after != before {
        assert after[..|before|] == before && |after| == |before| + 1;
        assert after[|before|][HopId] == last.hop;
        forall i, j | 0 <= i < j < |after| && HopId in after[i] && HopId in after[j]
          ensures after[i][HopId] != after[j][HopId]
        {
          assert after[i] == before[i] && before[i] in before;
        }
      }
    }
  }

  /**
    A parent was emitted earlier, it is the only message with that hop, and the child carries on
    its flow.
   */
  lemma ParentEmittedEarlier(run: seq<Action>, i: nat)
    requires FreshHops(run) && i < |Exec(run).messages| && ParentHopId in Exec(run).messages[i]
    ensures var messages := Exec(run).messages;
            var parent := ParentOf(messages, i);
            && parent.Some? && parent.value < i
            && FlowId in messages[i] && FlowId in messages[parent.value]
            && messages[parent.value][FlowId] == messages[i][FlowId]
            && forall m | 0 <= m < |messages| && HopId in messages[m]
                          && messages[m][HopId] == messages[i][ParentHopId] :: m == parent.value
  {
    hide Reached, Exec, InboundHop;
    RunKeepsInv(run);
    FreshHopsAreDistinct(run);
    var mesh := Exec(run);
    assert SentFrom(mesh.messages[i], mesh.contexts[mesh.senders[i]]);
    assert HasParent(mesh.messages, mesh.senders, i);
  }

  ghost predicate SameFlow(messages: seq<Headers>, i: nat, j: nat)
    requires i < |messages| && j < |messages|
  {
    FlowId in messages[i] && FlowId in messages[j] && messages[i][FlowId] == messages[j][FlowId]
  }

  /** Each index is followed by its parent, which was emitted earlier. */
  ghost predicate Climbs(messages: seq<Headers>, path: seq<nat>)
    requires forall k | 0 <= k < |path| :: path[k] < |messages|
  {
    forall k | 0 < k < |path| :: path[k] < path[k - 1] && ParentOf(messages, path[k - 1]) == Some(path[k])
  }

  lemma ClimbsFurther(messages: seq<Headers>, i: nat, path: seq<nat>)
    requires i < |messages| && forall k | 0 <= k < |path| :: path[k] < |messages|
    requires Climbs(messages, path) && |path| > 0 && path[0] < i && ParentOf(messages, i) == Some(path[0])
    ensures Climbs(messages, [i] + path)
  {
    hide ParentOf;
    var longer := [i] + path;
    forall k | 0 < k < |longer|
      ensures longer[k] < longer[k - 1] && ParentOf(messages, longer[k - 1]) == Some(longer[k])
    {
      if k > 1 {
        assert longer[k] == path[k - 1] && longer[k - 1] == path[(k - 1) - 1];
      }
    }
  }

  /**
    Parents form a forest: walking up goes back in emission order, every step is to the parent,
    the walk ends at a message without one, and the flow never changes on the way.
   */
  lemma {:induction false} LineageReachesRoot(run: seq<Action>, i: nat)
    requires FreshHops(run) && i < |Exec(run).messages|
    ensures var messages := Exec(run).messages;
            var path := Lineage(messages, i);
            && Climbs(messages, path)
            && ParentHopId !in messages[path[|path| - 1]]
            && (forall k | 0 <= k < |path| :: SameFlow(messages, path[k], i))
    decreases i
  {
    hide Exec, ParentOf, FreshHops, Climbs;
    var messages := Exec(run).messages;
    FlowsCarried(run);
    var parent := ParentOf(messages, i);
    var path := Lineage(messages, i);
    if ParentHopId in messages[i] {
      ParentEmittedEarlier(run, i);
      LineageReachesRoot(run, parent.value);
      var rest := Lineage(messages, parent.value);
      assert path == [i] + rest;
      ClimbsFurther(messages, i, rest);
    } else {
      NoParent(messages, i);
      SingleClimbs(messages, i);
    }
  }

  lemma SingleClimbs(messages: seq<Headers>, i: nat)
    requires i < |messages|
    ensures Climbs(messages, [i])
  {
  }

  lemma NoParent(messages: seq<Headers>, i: nat)
    requires i < |messages| && ParentHopId !in messages[i]
    ensures ParentOf(messages, i).None?
  {
  }

  lemma FlowsCarried(run: seq<Action>)
    ensures forall i | 0 <= i < |Exec(run).messages| :: FlowId in Exec(run).messages[i]
  {
    hide Exec;
    RunKeepsInv(run);
    var mesh := Exec(run);
    forall i | 0 <= i < |mesh.messages| ensures FlowId in mesh.messages[i] {
      assert SentFrom(mesh.messages[i], mesh.contexts[mesh.senders[i]]);
    }
  }

  /** Everything sent from one handler, by it or by tasks it started, shares a flow and a parent. */
  lemma OneFlowPerHandler(run: seq<Action>, i: nat, j: nat)
    requires i < |Exec(run).messages| && j < |Exec(run).messages|
    requires |Exec(run).senders| == |Exec(run).messages| && Exec(run).senders[i] == Exec(run).senders[j]
    ensures var messages := Exec(run).messages;
            && SameFlow(messages, i, j)
            && (ParentHopId in messages[i] <==> ParentHopId in messages[j])
            && (ParentHopId in messages[i] ==> messages[i][ParentHopId] == messages[j][ParentHopId])
  {
    hide Exec, InboundHop;
    RunKeepsInv(run);
    var mesh := Exec(run);
    assert SentFrom(mesh.messages[i], mesh.contexts[mesh.senders[i]]);
    assert SentFrom(mesh.messages[j], mesh.contexts[mesh.senders[j]]);
  }

  // ---------------------------------------------------------------------------------------------
  // A flow is one origin
  // ---------------------------------------------------------------------------------------------

  /** Every generated flow id is new. */
  ghost predicate FreshFlows(run: seq<Action>) {
    if |run| == 0 then true
    else
      var init, last := run[..|run| - 1], run[|run| - 1];
      FreshFlows(init) &&
      (last.Send? || last.Enter? ==> forall context | context in Exec(init).contexts :: context.flow != Some(last.flow))
  }

  /** Contexts that start a flow start different ones. */
  ghost predicate OriginsDistinct(contexts: seq<Context>) {
    forall c, d | 0 <= c < d < |contexts|
                  && InboundHop(Some(contexts[c])).None? && InboundHop(Some(contexts[d])).None? ::
      contexts[c].flow != contexts[d].flow
  }

  lemma OriginAdded(contexts: seq<Context>, context: Context, flow: Id)
    requires OriginsDistinct(contexts) && forall c | c in contexts :: c.flow != Some(flow)
    requires InboundHop(Some(context)).None? ==> context.flow == Some(flow)
    ensures OriginsDistinct(contexts + [context])
  {
    hide InboundHop;
    var after := contexts + [context];
    forall c, d | 0 <= c < d < |after| && InboundHop(Some(after[c])).None? && InboundHop(Some(after[d])).None?
      ensures after[c].flow != after[d].flow
    {
      assert after[c] == contexts[c] && contexts[c] in contexts;
    }
  }

  /** A context without an inbound hop generated its flow. */
  lemma EnteredOrigin(mesh: Mesh, kind: Kind, operation: string, message: Option<nat>, flow: Id)
    requires Inv(mesh)
    ensures var context := Entered(kind, operation, HeadersOf(mesh, message), flow);
            InboundHop(Some(context)).None? ==> context.flow == Some(flow)
  {
    if message.Some? && message.value < |mesh.messages| {
      assert SentFrom(mesh.messages[message.value], mesh.contexts[mesh.senders[message.value]]);
    }
  }

  lemma StepKeepsOrigins(mesh: Mesh, action: Action)
    requires Inv(mesh) && OriginsDistinct(mesh.contexts)
    requires action.Send? || action.Enter? ==>
               forall context | context in mesh.contexts :: context.flow != Some(action.flow)
    ensures OriginsDistinct(Step(mesh, action).contexts)
  {
    hide Traces, Stamped, InboundHop, Entered, Reached;
    StepKeepsInv(mesh, action);
    if action.Enter? {
      EnteredOrigin(mesh, action.kind, action.operation, action.message, action.flow);
      OriginAdded(mesh.contexts, Entered(action.kind, action.operation, HeadersOf(mesh, action.message), action.flow),
                  action.flow);
    } else if action.Send? && action.thread < |mesh.threads| {
      if ContextAt(mesh, CurrentOf(mesh.threads[action.thread])).None? {
        OriginAdded(mesh.contexts, Bare(Some(action.flow)), action.flow);
      } else {
        var after := Step(mesh, action).contexts;
        assert after == after[..|mesh.contexts|] == mesh.contexts;
      }
    }
  }

  lemma {:induction false} RunKeepsOrigins(run: seq<Action>)
    requires FreshFlows(run)
    ensures OriginsDistinct(Exec(run).contexts)
  {
    hide OriginsDistinct, Step;
    if |run| == 0 {
      assert OriginsDistinct([]) by { NoOrigins(); }
    } else {
      RunKeepsInv(run[..|run| - 1]);
      RunKeepsOrigins(run[..|run| - 1]);
      StepKeepsOrigins(Exec(run[..|run| - 1]), run[|run| - 1]);
    }
  }

  lemma NoOrigins()
    ensures OriginsDistinct([])
  {
  }

  /** Two messages carry one flow exactly when their chains started in one context. */
  lemma SameFlowSameOrigin(run: seq<Action>, i: nat, j: nat)
    requires FreshHops(run) && FreshFlows(run)
    requires i < |Exec(run).messages| && j < |Exec(run).messages| && |Exec(run).senders| == |Exec(run).messages|
    ensures var mesh := Exec(run);
            SameFlow(mesh.messages, i, j) <==>
            mesh.senders[Root(mesh.messages, i)] == mesh.senders[Root(mesh.messages, j)]
  {
    hide Exec, Root, FreshHops, FreshFlows, Reached, HasParent;
    RunKeepsInv(run);
    RunKeepsOrigins(run);
    FlowsCarried(run);
    var mesh := Exec(run);
    var a, b := Root(mesh.messages, i), Root(mesh.messages, j);
    RootOf(run, i);
    RootOf(run, j);
    assert SentFrom(mesh.messages[a], mesh.contexts[mesh.senders[a]]);
    assert SentFrom(mesh.messages[b], mesh.contexts[mesh.senders[b]]);
  }

  lemma RootOf(run: seq<Action>, i: nat)
    requires FreshHops(run) && i < |Exec(run).messages|
    ensures var messages := Exec(run).messages;
            SameFlow(messages, Root(messages, i), i) && ParentHopId !in messages[Root(messages, i)]
  {
    hide Exec, Lineage, FreshHops, Climbs;
    LineageReachesRoot(run, i);
  }

  // ---------------------------------------------------------------------------------------------
  // Leaving a scope
  // ---------------------------------------------------------------------------------------------

  function Depth(mesh: Mesh, t: nat): nat {
    if t < |mesh.threads| then |mesh.threads[t].scopes| else 0
  }

  lemma StepKeepsScopes(mesh: Mesh, action: Action, t: nat, depth: nat)
    requires Inv(mesh) && Depth(mesh, t) >= depth > 0 && Depth(Step(mesh, action), t) >= depth
    ensures var before, after := mesh.threads[t], Step(mesh, action).threads[t];
            after.base == before.base && after.scopes[..depth] == before.scopes[..depth]
  {
    hide Stamped, Entered, WithFlow, Resolved, Traces;
    assert Refers(mesh.threads[t], |mesh.contexts|);
    var scopes := mesh.threads[t].scopes;
    if action.Leave? && action.thread == t {
      assert scopes[..|scopes| - 1][..depth] == scopes[..depth];
    } else if action.Enter? && action.thread == t {
      assert (scopes + [|mesh.contexts|])[..depth] == scopes[..depth];
    }
  }

  lemma {:induction false} RunKeepsScopes(run: seq<Action>, from: nat, t: nat, depth: nat)
    requires from <= |run| && depth > 0
    requires forall n | from <= n <= |run| :: Depth(Exec(run[..n]), t) >= depth
    ensures Depth(Exec(run[..from]), t) >= depth && Depth(Exec(run), t) >= depth
    ensures var before, after := Exec(run[..from]).threads[t], Exec(run).threads[t];
            after.base == before.base && after.scopes[..depth] == before.scopes[..depth]
    ensures Exec(run[..from]).contexts <= Exec(run).contexts
  {
    hide Step, Inv;
    assert run[..|run|] == run;
    if from < |run| {
      var init := run[..|run| - 1];
      forall n | from <= n <= |init| ensures Depth(Exec(init[..n]), t) >= depth {
        assert init[..n] == run[..n];
      }
      assert init[..from] == run[..from];
      RunKeepsScopes(init, from, t, depth);
      RunKeepsInv(init);
      StepKeepsScopes(Exec(init), run[|run| - 1], t, depth);
      StepKeepsInv(Exec(init), run[|run| - 1]);
    }
  }

  /**
    Whatever happens between entering a scope and leaving it, nested scopes, publications and
    other tasks included, leaving it restores the enclosing context, with the flow it had.
   */
  lemma ScopeRestored(before: seq<Action>, enter: Action, body: seq<Action>, t: nat)
    requires enter.Enter? && enter.thread == t < |Exec(before).threads|
    requires var run := before + [enter] + body;
             && (forall n | |before| < n <= |run| :: Depth(Exec(run[..n]), t) > Depth(Exec(before), t))
             && Depth(Exec(run), t) == Depth(Exec(before), t) + 1
    ensures var after := Exec(before + [enter] + body + [Leave(t)]);
            && t < |after.threads| && after.threads[t] == Exec(before).threads[t]
            && Exec(before).contexts <= after.contexts
  {
    hide Inv, Exec;
    var run := before + [enter] + body;
    var depth := Depth(Exec(before), t) + 1;
    var from := |before| + 1;
    assert run[..from] == before + [enter];
    RunKeepsScopes(run, from, t, depth);
    LastStep(before, enter);
    LastStep(run, Leave(t));
    RunKeepsInv(before);
    StepKeepsInv(Exec(before), enter);
    var outer, inner := Exec(before).threads[t].scopes, Exec(run).threads[t].scopes;
    assert inner[..depth] == inner;
    assert (outer + [|Exec(before).contexts|])[..depth] == outer + [|Exec(before).contexts|];
    assert inner[..depth - 1] == outer;
  }

  lemma LastStep(run: seq<Action>, action: Action)
    ensures Exec(run + [action]) == Step(Exec(run), action)
  {
    assert (run + [action])[..|run|] == run;
  }
}
