/**
  That handlers do continue the hop they were reached by: what a message says when it is sent inside a
  scope, or by an asyncio task started there, whatever all other tasks do meanwhile.
 */
module MessageChains {
  import opened Wrappers
  import opened HandlerScope
  import opened Tracing

  /** The message a handler was reached by, if its kind is one that messages reach. */
  function ReachedBy(mesh: Mesh, kind: Kind, message: Option<nat>): Option<Headers> {
    if (kind.Event? || kind.Rpc?) && message.Some? && message.value < |mesh.messages|
    then Some(mesh.messages[message.value]) else None
  }

  /**
    The child goes on with the flow of the message that reached its handler and names the hop of that
    message as its parent; without such a message it starts the flow of its scope. It tells the
    entrypoint and the operation it was sent from.
   */
  ghost predicate Continued(child: Headers, parent: Option<Headers>, kind: Kind, operation: string, flow: Id, hop: Id) {
    && FlowId in child && HopId in child && child[HopId] == hop
    && (parent.Some? ==>
          && FlowId in parent.value && child[FlowId] == parent.value[FlowId]
          && HopId in parent.value && ParentHopId in child && child[ParentHopId] == parent.value[HopId])
    && (parent.None? ==> child[FlowId] == flow && ParentHopId !in child)
    && Entrypoint in child && child[Entrypoint] == KindName(kind)
    && Operation in child && child[Operation] == operation
  }

  /** The context a scope entered with still is the one it entered with. */
  lemma EnterStep(mesh: Mesh, t: nat, kind: Kind, operation: string, message: Option<nat>, flow: Id)
    requires t < |mesh.threads|
    ensures var after := Step(mesh, Enter(t, kind, operation, message, flow));
            && |after.threads| == |mesh.threads|
            && after.contexts == mesh.contexts + [Entered(kind, operation, HeadersOf(mesh, message), flow)]
            && after.threads[t].scopes == mesh.threads[t].scopes + [|mesh.contexts|]
  {
  }

  /** A message sent in the context of a handler continues what reached it. */
  lemma SendStep(start: Mesh, mesh: Mesh, t: nat, c: nat, kind: Kind, operation: string, message: Option<nat>,
                 flow: Id, own: Headers, extra: Headers, rpcService: Option<string>, unused: Id, hop: Id)
    requires Inv(start) && Inv(mesh) && t < |mesh.threads| && Allowed(extra)
    requires CurrentOf(mesh.threads[t]) == Some(c) && c < |mesh.contexts|
    requires mesh.contexts[c] == Entered(kind, operation, HeadersOf(start, message), flow)
    ensures var after := Step(mesh, Send(t, own, extra, rpcService, unused, hop));
            && |after.messages| == |mesh.messages| + 1
            && Continued(after.messages[|mesh.messages|], ReachedBy(start, kind, message), kind, operation, flow, hop)
  {
    hide Stamped;
    if message.Some? && message.value < |start.messages| {
      assert SentFrom(start.messages[message.value], start.contexts[start.senders[message.value]]);
    }
  }

  /** The thread is back in the scope entered after before, and was never outside of it. */
  ghost predicate Inside(before: seq<Action>, enter: Action, body: seq<Action>, t: nat) {
    && enter.Enter? && enter.thread == t < |Exec(before).threads|
    && var run := before + [enter] + body;
       && (forall n | |before| < n <= |run| :: Depth(Exec(run[..n]), t) > Depth(Exec(before), t))
       && Depth(Exec(run), t) == Depth(Exec(before), t) + 1
  }

  lemma StillCurrent(before: seq<Action>, enter: Action, body: seq<Action>, t: nat)
    requires Inside(before, enter, body, t)
    ensures enter.Enter?
    ensures var mesh, c := Exec(before + [enter] + body), |Exec(before).contexts|;
            && t < |mesh.threads| && CurrentOf(mesh.threads[t]) == Some(c) && c < |mesh.contexts|
            && mesh.contexts[c] ==
               Entered(enter.kind, enter.operation, HeadersOf(Exec(before), enter.message), enter.flow)
  {
    hide Inv, Exec, Step, Entered;
    var run := before + [enter] + body;
    var depth, from := Depth(Exec(before), t) + 1, |before| + 1;
    assert run[..from] == before + [enter];
    RunKeepsScopes(run, from, t, depth);
    LastStep(before, enter);
    EnterStep(Exec(before), t, enter.kind, enter.operation, enter.message, enter.flow);
    var outer, inner := Exec(before).threads[t].scopes, Exec(run).threads[t].scopes;
    assert inner[..depth] == inner;
    assert (outer + [|Exec(before).contexts|])[..depth] == outer + [|Exec(before).contexts|];
    assert inner[depth - 1] == |Exec(before).contexts|;
  }

  /**
    In every run, what a handler sends goes on with the message that reached it, and what an HTTP
    request or a periodic task sends starts a flow, whatever other tasks do in between.
   */
  lemma HandlerContinues(before: seq<Action>, enter: Action, body: seq<Action>, t: nat, own: Headers, extra: Headers,
                         rpcService: Option<string>, unused: Id, hop: Id)
    requires Inside(before, enter, body, t) && Allowed(extra)
    ensures var run := before + [enter] + body;
            var sent := Exec(run + [Send(t, own, extra, rpcService, unused, hop)]).messages;
            && |sent| == |Exec(run).messages| + 1
            && Continued(sent[|sent| - 1], ReachedBy(Exec(before), enter.kind, enter.message),
                         enter.kind, enter.operation, enter.flow, hop)
  {
    hide Inv, Exec, Step, Entered, Continued, ReachedBy, Allowed;
    var run := before + [enter] + body;
    StillCurrent(before, enter, body, t);
    RunKeepsInv(before);
    RunKeepsInv(run);
    LastStep(run, Send(t, own, extra, rpcService, unused, hop));
    SendStep(Exec(before), Exec(run), t, |Exec(before).contexts|, enter.kind, enter.operation, enter.message,
             enter.flow, own, extra, rpcService, unused, hop);
  }

  // ---------------------------------------------------------------------------------------------
  // Tasks that a handler starts
  // ---------------------------------------------------------------------------------------------

  lemma StepKeepsBase(mesh: Mesh, action: Action, t: nat)
    requires Inv(mesh) && t < |mesh.threads| && mesh.threads[t].base.Some?
    ensures var after := Step(mesh, action);
            t < |after.threads| && after.threads[t].base == mesh.threads[t].base
  {
    hide Stamped, Entered, WithFlow, Resolved, Traces;
    assert Refers(mesh.threads[t], |mesh.contexts|);
  }

  lemma {:induction false} RunKeepsBase(run: seq<Action>, more: seq<Action>, t: nat)
    requires t < |Exec(run).threads| && Exec(run).threads[t].base.Some?
    ensures t < |Exec(run + more).threads| && Exec(run + more).threads[t].base == Exec(run).threads[t].base
    ensures Exec(run).contexts <= Exec(run + more).contexts
  {
    hide Step, Inv;
    if |more| == 0 {
      assert run + more == run;
    } else {
      var all := run + more;
      assert all[..|all| - 1] == run + more[..|more| - 1];
      RunKeepsBase(run, more[..|more| - 1], t);
      RunKeepsInv(all[..|all| - 1]);
      StepKeepsBase(Exec(all[..|all| - 1]), all[|all| - 1], t);
      StepKeepsInv(Exec(all[..|all| - 1]), all[|all| - 1]);
    }
  }

  lemma SpawnStep(mesh: Mesh, t: nat)
    requires t < |mesh.threads|
    ensures Step(mesh, Spawn(t)).threads == mesh.threads + [Thread(CurrentOf(mesh.threads[t]), [])]
    ensures Step(mesh, Spawn(t)).contexts == mesh.contexts
  {
  }

  /** So does what an asyncio task sends that the handler started, even after the handler ended. */
  lemma TaskContinues(before: seq<Action>, enter: Action, body: seq<Action>, t: nat, rest: seq<Action>,
                      own: Headers, extra: Headers, rpcService: Option<string>, unused: Id, hop: Id)
    requires Inside(before, enter, body, t) && Allowed(extra)
    requires var started := before + [enter] + body;
             Depth(Exec(started + [Spawn(t)] + rest), |Exec(started).threads|) == 0
    ensures var started := before + [enter] + body;
            var run, spawned := started + [Spawn(t)] + rest, |Exec(started).threads|;
            var sent := Exec(run + [Send(spawned, own, extra, rpcService, unused, hop)]).messages;
            && |sent| == |Exec(run).messages| + 1
            && Continued(sent[|sent| - 1], ReachedBy(Exec(before), enter.kind, enter.message),
                         enter.kind, enter.operation, enter.flow, hop)
  {
    hide Inv, Exec, Step, Entered, Continued, ReachedBy, Allowed, Inside;
    var started := before + [enter] + body;
    var run, spawned := started + [Spawn(t)] + rest, |Exec(started).threads|;
    StillCurrent(before, enter, body, t);
    LastStep(started, Spawn(t));
    SpawnStep(Exec(started), t);
    RunKeepsBase(started + [Spawn(t)], rest, spawned);
    RunKeepsInv(before);
    RunKeepsInv(run);
    LastStep(run, Send(spawned, own, extra, rpcService, unused, hop));
    SendStep(Exec(before), Exec(run), spawned, |Exec(before).contexts|, enter.kind, enter.operation, enter.message,
             enter.flow, own, extra, rpcService, unused, hop);
  }
}
