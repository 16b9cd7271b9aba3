/**
  What a call on a failed queue does, interaction by interaction, woven into what everybody else does
  meanwhile.
 */
module CallTrace {
  import opened Wrappers
  import opened Broker

  /** How one interaction with the broker ends; Unconfirmed raises after it took effect. */
  datatype Luck = Fine | Refused | Unconfirmed

  /**
    A call on the failed queue of service, through a channel of its own, begun after the steps base.
    Before its k-th interaction the others take the steps others(k), and the interaction ends as
    luck(k) says.
   */
  datatype Call = Call(start: Fleet, base: seq<Action>, service: Service, channel: Channel,
                       others: nat -> seq<Action>, luck: nat -> Luck)

  function Effect(own: Option<Action>): seq<Action> {
    if own.Some? then [own.value] else []
  }

  /** The steps of all parties up to the last interaction; own[k] is the effect of the k-th one. */
  function Woven(call: Call, own: seq<Option<Action>>): seq<Action> {
    if |own| == 0 then call.base
    else
      var n := |own| - 1;
      Woven(call, own[..n]) + call.others(n) + Effect(own[n])
  }

  /** Everything before the k-th interaction takes effect. */
  function Before(call: Call, own: seq<Option<Action>>, k: nat): seq<Action>
    requires k <= |own|
  {
    Woven(call, own[..k]) + call.others(k)
  }

  /** The oldest waiting message of the failed queue. */
  function OldestOf(f: Fleet, s: Service): Option<nat> {
    if s in f.pairs && Waiting(f.pairs[s].failed) != [] then Some(Waiting(f.pairs[s].failed)[0]) else None
  }

  /** The message a query would find after the run. */
  function Oldest(call: Call, run: seq<Action>): Option<nat> {
    OldestOf(Exec(call.start, run), call.service)
  }

  /** The k-th interaction is a query that takes the oldest waiting message, or finds none. */
  predicate Query(call: Call, own: seq<Option<Action>>, k: nat, message: Option<nat>)
    requires k < |own|
  {
    && own[k] == (if message.Some? then Some(At(call.service, Get(call.channel))) else None)
    && (message.Some? ==> call.luck(k) != Refused)
    && (call.luck(k) != Refused ==> Oldest(call, Before(call, own, k)) == message)
  }

  /** The k-th interaction is the step op on the queue, unless it was refused. */
  predicate Acts(call: Call, own: seq<Option<Action>>, k: nat, op: Op)
    requires k < |own|
  {
    own[k] == if call.luck(k) == Refused then None else Some(At(call.service, op))
  }

  /** The k-th interaction publishes the message again, unless it was refused. */
  predicate Publishes(call: Call, own: seq<Option<Action>>, k: nat, message: nat)
    requires k < |own|
  {
    && (own[k].Some? <==> call.luck(k) != Refused)
    && (own[k].Some? ==> own[k].value.Publish? &&
                         own[k].value.publication.origin == Replay(call.service, message, call.channel))
  }

  function MessageAt(messages: seq<nat>, i: nat): Option<nat> {
    if i < |messages| then Some(messages[i]) else None
  }

  /** The first gets interactions are queries that took the messages in turn, the last one perhaps none. */
  ghost predicate Queries(call: Call, own: seq<Option<Action>>, gets: nat, taken: seq<nat>) {
    && |taken| <= gets <= |taken| + 1 && gets <= |own|
    && forall k | 0 <= k < gets :: Query(call, own, k, MessageAt(taken, k))
  }

  /** The interactions after the queries publish and remove the messages, one after the other. */
  predicate ReplayRound(call: Call, own: seq<Option<Action>>, gets: nat, taken: seq<nat>, k: nat)
    requires gets <= k < |own|
  {
    var i := (k - gets) / 2;
    i < |taken| &&
    if (k - gets) % 2 == 0 then Publishes(call, own, k, taken[i])
    else Acts(call, own, k, Ack(call.channel, taken[i], Replayed))
  }

  ghost predicate ReplayRounds(call: Call, own: seq<Option<Action>>, gets: nat, taken: seq<nat>) {
    forall k | gets <= k < |own| :: ReplayRound(call, own, gets, taken, k)
  }

  /** The interactions after the queries give the messages back, one after the other. */
  predicate NackRound(call: Call, own: seq<Option<Action>>, gets: nat, taken: seq<nat>, k: nat)
    requires gets <= k < |own|
  {
    k - gets < |taken| && Acts(call, own, k, Nack(call.channel, taken[k - gets]))
  }

  ghost predicate NackRounds(call: Call, own: seq<Option<Action>>, gets: nat, taken: seq<nat>) {
    forall k | gets <= k < |own| :: NackRound(call, own, gets, taken, k)
  }

  /** Query and removal take turns; seen are the messages the queries took. */
  predicate DropStep(call: Call, own: seq<Option<Action>>, seen: seq<nat>, k: nat)
    requires k < |own|
  {
    if k % 2 == 0 then Query(call, own, k, MessageAt(seen, k / 2))
    else k / 2 < |seen| && Acts(call, own, k, Ack(call.channel, seen[k / 2], Dropped))
  }

  ghost predicate DropRounds(call: Call, own: seq<Option<Action>>, seen: seq<nat>) {
    forall k | 0 <= k < |own| :: DropStep(call, own, seen, k)
  }

  // ---------------------------------------------------------------------------------------------
  // One more interaction
  // ---------------------------------------------------------------------------------------------

  lemma WovenStep(call: Call, own: seq<Option<Action>>, x: Option<Action>)
    ensures Woven(call, own + [x]) == Woven(call, own) + call.others(|own|) + Effect(x)
    ensures Before(call, own + [x], |own|) == Woven(call, own) + call.others(|own|)
  {
    assert (own + [x])[..|own|] == own;
  }

  lemma QueryKept(call: Call, own: seq<Option<Action>>, x: Option<Action>, k: nat, message: Option<nat>)
    requires k < |own|
    ensures Query(call, own + [x], k, message) <==> Query(call, own, k, message)
  {
    assert (own + [x])[..k] == own[..k];
  }

  lemma QueriesKept(call: Call, own: seq<Option<Action>>, x: Option<Action>, gets: nat, taken: seq<nat>)
    requires Queries(call, own, gets, taken)
    ensures Queries(call, own + [x], gets, taken)
  {
    hide Query;
    forall k | 0 <= k < gets ensures Query(call, own + [x], k, MessageAt(taken, k)) {
      QueryKept(call, own, x, k, MessageAt(taken, k));
    }
  }

  lemma OneMoreQuery(call: Call, own: seq<Option<Action>>, x: Option<Action>, taken: seq<nat>, message: Option<nat>)
    requires Queries(call, own, |own|, taken) && |taken| == |own|
    requires Query(call, own + [x], |own|, message)
    ensures Queries(call, own + [x], |own| + 1, if message.Some? then taken + [message.value] else taken)
  {
    hide Query;
    var more := if message.Some? then taken + [message.value] else taken;
    forall k | 0 <= k < |own| + 1 ensures Query(call, own + [x], k, MessageAt(more, k)) {
      if k < |own| {
        QueryKept(call, own, x, k, MessageAt(taken, k));
        assert MessageAt(more, k) == MessageAt(taken, k);
      } else {
        assert MessageAt(more, k) == message;
      }
    }
  }

  lemma OneMorePublication(call: Call, own: seq<Option<Action>>, x: Option<Action>, gets: nat, taken: seq<nat>, i: nat)
    requires ReplayRounds(call, own, gets, taken) && i < |taken| && |own| == gets + 2 * i
    requires Publishes(call, own + [x], |own|, taken[i])
    ensures ReplayRounds(call, own + [x], gets, taken)
  {
    forall k | gets <= k < |own| + 1 ensures ReplayRound(call, own + [x], gets, taken, k) {
      assert k < |own| ==> ReplayRound(call, own, gets, taken, k);
    }
  }

  lemma OneMoreRemoval(call: Call, own: seq<Option<Action>>, x: Option<Action>, gets: nat, taken: seq<nat>, i: nat)
    requires ReplayRounds(call, own, gets, taken) && i < |taken| && |own| == gets + 2 * i + 1
    requires Acts(call, own + [x], |own|, Ack(call.channel, taken[i], Replayed))
    ensures ReplayRounds(call, own + [x], gets, taken)
  {
    forall k | gets <= k < |own| + 1 ensures ReplayRound(call, own + [x], gets, taken, k) {
      assert k < |own| ==> ReplayRound(call, own, gets, taken, k);
    }
  }

  lemma OneMoreNack(call: Call, own: seq<Option<Action>>, x: Option<Action>, gets: nat, taken: seq<nat>, i: nat)
    requires NackRounds(call, own, gets, taken) && i < |taken| && |own| == gets + i
    requires Acts(call, own + [x], |own|, Nack(call.channel, taken[i]))
    ensures NackRounds(call, own + [x], gets, taken)
  {
    forall k | gets <= k < |own| + 1 ensures NackRound(call, own + [x], gets, taken, k) {
      assert k < |own| ==> NackRound(call, own, gets, taken, k);
    }
  }

  lemma OneMoreDropQuery(call: Call, own: seq<Option<Action>>, x: Option<Action>, seen: seq<nat>, message: Option<nat>)
    requires DropRounds(call, own, seen) && |own| == 2 * |seen|
    requires Query(call, own + [x], |own|, message)
    ensures DropRounds(call, own + [x], if message.Some? then seen + [message.value] else seen)
  {
    hide Query;
    var more := if message.Some? then seen + [message.value] else seen;
    forall k | 0 <= k < |own| + 1 ensures DropStep(call, own + [x], more, k) {
      if k < |own| {
        assert DropStep(call, own, seen, k);
        QueryKept(call, own, x, k, MessageAt(seen, k / 2));
      }
    }
  }

  lemma OneMoreDrop(call: Call, own: seq<Option<Action>>, x: Option<Action>, seen: seq<nat>)
    requires DropRounds(call, own, seen) && |seen| > 0 && |own| == 2 * |seen| - 1
    requires Acts(call, own + [x], |own|, Ack(call.channel, seen[|seen| - 1], Dropped))
    ensures DropRounds(call, own + [x], seen)
  {
    hide Query;
    forall k | 0 <= k < |own| + 1 ensures DropStep(call, own + [x], seen, k) {
      if k < |own| {
        assert DropStep(call, own, seen, k);
        QueryKept(call, own, x, k, MessageAt(seen, k / 2));
      }
    }
  }
}
