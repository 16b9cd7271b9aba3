/**
  The work queue and the failed queue of a competing event, as kontiki/messaging/consumer/core.py
  declares them, and every step that moves a copy of an event between them. The broker is the
  assumed part: a reject burns a delivery attempt and a nack does not, a channel that closes
  gives back what it held, and a full failed queue makes a dead-lettered copy wait.
 */
module Broker {
  import opened Wrappers
  import opened Serialization

  type Service = string
  type Channel = nat

  const FAILED_QUEUE_MAX_LENGTH: nat := 10000

  /** Where a publication comes from: a publisher, or the replay of a retained copy. */
  datatype Origin = Fresh | Replay(service: Service, copy: nat, channel: Channel)

  datatype Publication = Publication(body: Body, origin: Origin)

  /** A message of the failed queue; an admin channel may hold it unacknowledged. */
  datatype Entry = Entry(copy: nat, holder: Option<Channel>)

  /** Why an admin call acknowledged a retained copy. */
  datatype Reason = Replayed | Dropped

  /**
    The two queues of one service for one event. A copy is named by the number of its
    publication. failed is in arrival order, and a message that is given back keeps its place.
   */
  datatype QueuePair = QueuePair(
    limit: nat,
    attempts: map<nat, nat>,
    ready: multiset<nat>,
    delayed: multiset<nat>,
    unacked: multiset<nat>,
    done: multiset<nat>,
    leaving: multiset<nat>,
    failed: seq<Entry>,
    replayed: multiset<nat>,
    dropped: multiset<nat>)

  /** Everything published so far, and the queue pair of every service bound to the event. */
  datatype Fleet = Fleet(publications: seq<Publication>, pairs: map<Service, QueuePair>)

  datatype Op =
    | Deliver(copy: nat)
    | Succeed(copy: nat)
    | Fail(copy: nat)
    | GiveBack(copy: nat)
    | RetryDue(copy: nat)
    | Retain(copy: nat)
    | Get(channel: Channel)
    | Ack(channel: Channel, copy: nat, reason: Reason)
    | Nack(channel: Channel, copy: nat)

  datatype Action =
    | Publish(publication: Publication)
    | Close(channel: Channel)
    | At(service: Service, op: Op)

  // ---------------------------------------------------------------------------------------------
  // The failed queue
  // ---------------------------------------------------------------------------------------------

  function Copies(s: seq<Entry>): multiset<nat> {
    if |s| == 0 then multiset{} else Copies(s[..|s| - 1]) + multiset{s[|s| - 1].copy}
  }

  /** The copies nobody holds, oldest first. */
  function Waiting(s: seq<Entry>): seq<nat> {
    if |s| == 0 then []
    else Waiting(s[..|s| - 1]) + if s[|s| - 1].holder.None? then [s[|s| - 1].copy] else []
  }

  function WithHolder(s: seq<Entry>, copy: nat, holder: Option<Channel>): seq<Entry> {
    if |s| == 0 then []
    else
      WithHolder(s[..|s| - 1], copy, holder) +
      [if s[|s| - 1].copy == copy then Entry(copy, holder) else s[|s| - 1]]
  }

  function Removed(s: seq<Entry>, copy: nat): seq<Entry> {
    if |s| == 0 then []
    else Removed(s[..|s| - 1], copy) + if s[|s| - 1].copy == copy then [] else [s[|s| - 1]]
  }

  function Released(s: seq<Entry>, channel: Channel): seq<Entry> {
    if |s| == 0 then []
    else
      Released(s[..|s| - 1], channel) +
      [if s[|s| - 1].holder == Some(channel) then Entry(s[|s| - 1].copy, None) else s[|s| - 1]]
  }

  // ---------------------------------------------------------------------------------------------
  // Steps
  // ---------------------------------------------------------------------------------------------

  function Attempts(p: QueuePair, copy: nat): nat {
    if copy in p.attempts then p.attempts[copy] else 0
  }

  /** The x-delivery-limit declared for max_attempts; below 1 the declaration raises. */
  function DeliveryLimit(maxAttempts: int): (r: Option<nat>)
    ensures r.Some? <==> maxAttempts >= 1
    ensures r.Some? ==> r.value + 1 == maxAttempts
  {
    if maxAttempts < 1 then None else Some(maxAttempts - 1)
  }

  predicate Enabled(p: QueuePair, op: Op) {
    match op
    case Deliver(c) => c in p.ready
    case Succeed(c) => c in p.unacked
    case Fail(c) => c in p.unacked
    case GiveBack(c) => c in p.unacked
    case RetryDue(c) => c in p.delayed
    case Retain(c) => c in p.leaving && |Waiting(p.failed)| < FAILED_QUEUE_MAX_LENGTH
    case Get(_) => Waiting(p.failed) != []
    case Ack(ch, c, _) => Entry(c, Some(ch)) in p.failed
    case Nack(ch, c) => Entry(c, Some(ch)) in p.failed
  }

  function Step(p: QueuePair, op: Op): QueuePair {
    if !Enabled(p, op) then p else
    match op
    case Deliver(c) => p.(ready := p.ready - multiset{c}, unacked := p.unacked + multiset{c})
    case Succeed(c) => p.(unacked := p.unacked - multiset{c}, done := p.done + multiset{c})
    case Fail(c) =>
      var burnt := p.(unacked := p.unacked - multiset{c}, attempts := p.attempts[c := Attempts(p, c) + 1]);
      if Attempts(p, c) + 1 > p.limit then burnt.(leaving := p.leaving + multiset{c})
      else burnt.(delayed := p.delayed + multiset{c})
    case GiveBack(c) => p.(unacked := p.unacked - multiset{c}, ready := p.ready + multiset{c})
    case RetryDue(c) => p.(delayed := p.delayed - multiset{c}, ready := p.ready + multiset{c})
    case Retain(c) => p.(leaving := p.leaving - multiset{c}, failed := p.failed + [Entry(c, None)])
    case Get(ch) => p.(failed := WithHolder(p.failed, Waiting(p.failed)[0], Some(ch)))
    case Ack(_, c, Replayed) => p.(failed := Removed(p.failed, c), replayed := p.replayed + multiset{c})
    case Ack(_, c, Dropped) => p.(failed := Removed(p.failed, c), dropped := p.dropped + multiset{c})
    case Nack(_, c) => p.(failed := WithHolder(p.failed, c, None))
  }

  /** The event exchange puts one copy of a publication into every bound work queue. */
  function Apply(f: Fleet, a: Action): Fleet {
    match a
    case Publish(publication) =>
      Fleet(f.publications + [publication],
            map s | s in f.pairs :: f.pairs[s].(ready := f.pairs[s].ready + multiset{|f.publications|}))
    case Close(ch) =>
      f.(pairs := map s | s in f.pairs :: f.pairs[s].(failed := Released(f.pairs[s].failed, ch)))
    case At(s, op) =>
      if s in f.pairs then f.(pairs := f.pairs[s := Step(f.pairs[s], op)]) else f
  }

  function Exec(f: Fleet, run: seq<Action>): Fleet {
    if |run| == 0 then f else Apply(Exec(f, run[..|run| - 1]), run[|run| - 1])
  }

  /** Before the first publication: a queue pair for every service whose max_attempts is accepted. */
  function Start(maxAttempts: map<Service, int>): Fleet {
    Fleet([], map s | s in maxAttempts && maxAttempts[s] >= 1 ::
            QueuePair(DeliveryLimit(maxAttempts[s]).value, map[], multiset{}, multiset{}, multiset{},
                      multiset{}, multiset{}, [], multiset{}, multiset{}))
  }

  lemma {:induction false} ExecConcat(f: Fleet, first: seq<Action>, second: seq<Action>)
    ensures Exec(f, first + second) == Exec(Exec(f, first), second)
  {
    if |second| == 0 {
      assert first + second == first;
    } else {
      var run := first + second;
      assert run[..|run| - 1] == first + second[..|second| - 1];
      ExecConcat(f, first, second[..|second| - 1]);
    }
  }

  lemma {:induction false} ExecKeeps(f: Fleet, run: seq<Action>)
    ensures Exec(f, run).pairs.Keys == f.pairs.Keys
    ensures f.publications <= Exec(f, run).publications
    ensures forall s | s in f.pairs :: Exec(f, run).pairs[s].limit == f.pairs[s].limit
  {
    if |run| > 0 {
      ExecKeeps(f, run[..|run| - 1]);
      ApplyKeeps(Exec(f, run[..|run| - 1]), run[|run| - 1]);
    }
  }

  lemma ApplyKeeps(f: Fleet, a: Action)
    ensures Apply(f, a).pairs.Keys == f.pairs.Keys
    ensures f.publications <= Apply(f, a).publications
    ensures forall s | s in f.pairs :: Apply(f, a).pairs[s].limit == f.pairs[s].limit
  {
    if a.At? && a.service in f.pairs {
      StepKeeps(f.pairs[a.service], a.op);
    }
  }

  lemma StepKeeps(p: QueuePair, op: Op)
    ensures Step(p, op).limit == p.limit
  {
  }

  // ---------------------------------------------------------------------------------------------
  // Every copy is in exactly one place
  // ---------------------------------------------------------------------------------------------

  /** How often c lies in the work queue, delayed, with a handler, done, or past its last attempt. */
  function Places(p: QueuePair, c: nat): nat {
    p.ready[c] + p.delayed[c] + p.unacked[c] + p.done[c] + PlacesRetained(p, c)
  }

  /** How often c lies before the failed queue, in it, among the replayed or among the dropped. */
  function PlacesRetained(p: QueuePair, c: nat): nat {
    p.leaving[c] + Copies(p.failed)[c] + p.replayed[c] + p.dropped[c]
  }

  predicate Retained(p: QueuePair, c: nat) {
    PlacesRetained(p, c) > 0
  }

  /** One copy, in one place, and its attempts tell on which side of the limit it is. */
  ghost predicate CopyInv(p: QueuePair, c: nat, published: nat) {
    && Places(p, c) == (if c < published then 1 else 0)
    && (if Retained(p, c) then Attempts(p, c) == p.limit + 1 else Attempts(p, c) <= p.limit)
    && (c >= published ==> Attempts(p, c) == 0)
  }

  ghost predicate PairInv(p: QueuePair, published: nat) {
    forall c: nat :: CopyInv(p, c, published)
  }

  ghost predicate Inv(f: Fleet) {
    forall s | s in f.pairs :: PairInv(f.pairs[s], |f.publications|)
  }

  lemma {:induction false} HolderKeepsCopies(s: seq<Entry>, copy: nat, holder: Option<Channel>)
    ensures Copies(WithHolder(s, copy, holder)) == Copies(s)
  {
    if |s| > 0 {
      var t := WithHolder(s, copy, holder);
      assert t[..|t| - 1] == WithHolder(s[..|s| - 1], copy, holder);
      HolderKeepsCopies(s[..|s| - 1], copy, holder);
    }
  }

  lemma {:induction false} ReleaseKeepsCopies(s: seq<Entry>, channel: Channel)
    ensures Copies(Released(s, channel)) == Copies(s)
  {
    if |s| > 0 {
      var t := Released(s, channel);
      assert t[..|t| - 1] == Released(s[..|s| - 1], channel);
      ReleaseKeepsCopies(s[..|s| - 1], channel);
    }
  }

  lemma {:induction false} CopiesConcat(s: seq<Entry>, t: seq<Entry>)
    ensures Copies(s + t) == Copies(s) + Copies(t)
  {
    if |t| == 0 {
      assert s + t == s;
    } else {
      assert (s + t)[..|s + t| - 1] == s + t[..|t| - 1];
      CopiesConcat(s, t[..|t| - 1]);
    }
  }

  lemma {:induction false} RemovedCopies(s: seq<Entry>, copy: nat)
    ensures Copies(Removed(s, copy)) == Copies(s)[copy := 0]
  {
    if |s| > 0 {
      RemovedCopies(s[..|s| - 1], copy);
      CopiesConcat(Removed(s[..|s| - 1], copy), if s[|s| - 1].copy == copy then [] else [s[|s| - 1]]);
    }
  }

  lemma {:induction false} EntryCopy(s: seq<Entry>, e: Entry)
    requires e in s
    ensures e.copy in Copies(s)
  {
    if e != s[|s| - 1] {
      var i :| 0 <= i < |s| && s[i] == e;
      assert s[..|s| - 1][i] == e;
      EntryCopy(s[..|s| - 1], e);
    }
  }

  /** What each step of the failed queue does to the places past the last attempt. */
  lemma FailedQueueAfter(p: QueuePair, op: Op)
    requires Enabled(p, op)
    ensures op.Retain? ==>
              Step(p, op) == p.(leaving := p.leaving - multiset{op.copy}, failed := p.failed + [Entry(op.copy, None)])
    ensures op.Get? ==>
              Waiting(p.failed) != [] &&
              Step(p, op) == p.(failed := WithHolder(p.failed, Waiting(p.failed)[0], Some(op.channel)))
    ensures op.Nack? ==>
              && Entry(op.copy, Some(op.channel)) in p.failed
              && Step(p, op) == p.(failed := WithHolder(p.failed, op.copy, None))
    ensures op.Ack? ==>
              && Entry(op.copy, Some(op.channel)) in p.failed
              && var failed, gone := Removed(p.failed, op.copy), multiset{op.copy};
                 Step(p, op) == if op.reason.Replayed? then p.(failed := failed, replayed := p.replayed + gone)
                                else p.(failed := failed, dropped := p.dropped + gone)
  {
    hide Waiting, WithHolder, Removed, Attempts;
  }

  /** A step of the failed queue moves copies only between the places past the last attempt. */
  lemma FailedQueueStep(p: QueuePair, op: Op, c: nat)
    requires Enabled(p, op) && Copies(p.failed)[c] <= 1
    requires op.Retain? || op.Get? || op.Ack? || op.Nack?
    ensures PlacesRetained(Step(p, op), c) == PlacesRetained(p, c)
  {
    hide Waiting, WithHolder, Removed, Step, Copies;
    if op.Retain? {
      RetainKeepsPlaces(p, op, c);
    } else if op.Ack? {
      AckKeepsPlaces(p, op, c);
    } else {
      FailedQueueAfter(p, op);
      HolderKeepsCopies(p.failed, if op.Get? then Waiting(p.failed)[0] else op.copy,
                        if op.Get? then Some(op.channel) else None);
    }
  }

  lemma RetainKeepsPlaces(p: QueuePair, op: Op, c: nat)
    requires op.Retain? && Enabled(p, op)
    ensures PlacesRetained(Step(p, op), c) == PlacesRetained(p, c)
  {
    hide Waiting, Step, Copies;
    FailedQueueAfter(p, op);
    CopiesConcat(p.failed, [Entry(op.copy, None)]);
    OneCopy(op.copy);
    assert op.copy in p.leaving;
  }

  lemma OneCopy(c: nat)
    ensures Copies([Entry(c, None)]) == multiset{c}
  {
    assert Copies([Entry(c, None)][..0]) == multiset{};
  }

  lemma AckKeepsPlaces(p: QueuePair, op: Op, c: nat)
    requires op.Ack? && Enabled(p, op) && Copies(p.failed)[c] <= 1
    ensures PlacesRetained(Step(p, op), c) == PlacesRetained(p, c)
  {
    hide Waiting, Step, Copies, Removed;
    FailedQueueAfter(p, op);
    EntryCopy(p.failed, Entry(op.copy, Some(op.channel)));
    RemovedCopies(p.failed, op.copy);
  }

  lemma FailedQueueFrame(p: QueuePair, op: Op)
    requires op.Retain? || op.Get? || op.Ack? || op.Nack?
    ensures var q := Step(p, op);
            && q.attempts == p.attempts && q.limit == p.limit
            && q.ready == p.ready && q.delayed == p.delayed && q.unacked == p.unacked && q.done == p.done
  {
    hide Copies, Waiting, WithHolder, Removed;
  }

  /** The attempts of a copy change by its own rejects only. */
  lemma StepAttempts(p: QueuePair, op: Op, c: nat)
    ensures Attempts(Step(p, op), c) == Attempts(p, c) + if op == Fail(c) && Enabled(p, op) then 1 else 0
  {
    hide Copies, Waiting, WithHolder, Removed;
  }

  /** A step moves at most one copy from one place to another, and past the limit only by its last reject. */
  lemma CopyStepInv(p: QueuePair, op: Op, c: nat, published: nat)
    requires CopyInv(p, c, published)
    ensures CopyInv(Step(p, op), c, published)
  {
    hide Copies, Waiting, Step;
    if !Enabled(p, op) {
      DisabledStep(p, op);
    } else if op.Fail? {
      RejectStepInv(p, op.copy, c, published);
    } else if op.Retain? || op.Get? || op.Ack? || op.Nack? {
      FailedStepInv(p, op, c, published);
    } else {
      WorkMoves(p, op, c);
      assert Attempts(Step(p, op), c) == Attempts(p, c);
    }
  }

  lemma DisabledStep(p: QueuePair, op: Op)
    requires !Enabled(p, op)
    ensures Step(p, op) == p
  {
  }

  /** A delivery, an ack, a return and a due retry move a copy among the places before the last attempt. */
  lemma WorkMoves(p: QueuePair, op: Op, c: nat)
    requires Enabled(p, op) && (op.Deliver? || op.Succeed? || op.GiveBack? || op.RetryDue?)
    ensures var q := Step(p, op);
            && q.limit == p.limit && q.attempts == p.attempts
            && q.ready[c] + q.delayed[c] + q.unacked[c] + q.done[c] ==
               p.ready[c] + p.delayed[c] + p.unacked[c] + p.done[c]
            && PlacesRetained(q, c) == PlacesRetained(p, c)
  {
    hide Copies, Waiting;
  }

  lemma FailedStepInv(p: QueuePair, op: Op, c: nat, published: nat)
    requires CopyInv(p, c, published) && Enabled(p, op)
    requires op.Retain? || op.Get? || op.Ack? || op.Nack?
    ensures CopyInv(Step(p, op), c, published)
  {
    hide Copies, Waiting, Step;
    FailedQueueStep(p, op, c);
    FailedQueueFrame(p, op);
    CopyInvTransfer(p, Step(p, op), c, published);
  }

  lemma CopyInvTransfer(p: QueuePair, q: QueuePair, c: nat, published: nat)
    requires CopyInv(p, c, published)
    requires q.attempts == p.attempts && q.limit == p.limit
    requires q.ready == p.ready && q.delayed == p.delayed && q.unacked == p.unacked && q.done == p.done
    requires PlacesRetained(q, c) == PlacesRetained(p, c)
    ensures CopyInv(q, c, published)
  {
  }

  lemma RejectStepInv(p: QueuePair, rejected: nat, c: nat, published: nat)
    requires CopyInv(p, c, published) && Enabled(p, Fail(rejected))
    ensures CopyInv(Step(p, Fail(rejected)), c, published)
  {
    hide Step, Copies;
    StepAttempts(p, Fail(rejected), c);
    RejectMoves(p, rejected, c);
  }

  /** A reject takes the copy from its handler to the delayed ones, or past its last attempt. */
  lemma RejectMoves(p: QueuePair, rejected: nat, c: nat)
    requires Enabled(p, Fail(rejected))
    ensures var q := Step(p, Fail(rejected));
            var one := if c == rejected then 1 else 0;
            var last := if Attempts(p, rejected) + 1 > p.limit then one else 0;
            && q.limit == p.limit && q.ready == p.ready && q.done == p.done
            && q.unacked[c] == p.unacked[c] - one && q.delayed[c] == p.delayed[c] + one - last
            && PlacesRetained(q, c) == PlacesRetained(p, c) + last
  {
    hide Copies, Waiting;
  }

  lemma PairStepInv(p: QueuePair, op: Op, published: nat)
    requires PairInv(p, published)
    ensures PairInv(Step(p, op), published)
  {
    forall c: nat ensures CopyInv(Step(p, op), c, published) {
      CopyStepInv(p, op, c, published);
    }
  }

  lemma PublishInv(p: QueuePair, published: nat)
    requires PairInv(p, published)
    ensures PairInv(p.(ready := p.ready + multiset{published}), published + 1)
  {
    var q := p.(ready := p.ready + multiset{published});
    var next := published + 1;
    forall c: nat ensures CopyInv(q, c, next) {
      assert CopyInv(p, c, published);
    }
  }

  lemma ReleaseInv(p: QueuePair, channel: Channel, published: nat)
    requires PairInv(p, published)
    ensures PairInv(p.(failed := Released(p.failed, channel)), published)
  {
    ReleaseKeepsCopies(p.failed, channel);
    var q := p.(failed := Released(p.failed, channel));
    forall c: nat ensures CopyInv(q, c, published) {
      assert CopyInv(p, c, published);
    }
  }

  lemma ApplyInv(f: Fleet, a: Action)
    requires Inv(f)
    ensures Inv(Apply(f, a))
  {
    match a
    case Publish(_) =>
      forall s | s in f.pairs ensures PairInv(Apply(f, a).pairs[s], |f.publications| + 1) {
        PublishInv(f.pairs[s], |f.publications|);
      }
    case Close(ch) =>
      forall s | s in f.pairs ensures PairInv(Apply(f, a).pairs[s], |f.publications|) {
        ReleaseInv(f.pairs[s], ch, |f.publications|);
      }
    case At(s, op) =>
      if s in f.pairs {
        PairStepInv(f.pairs[s], op, |f.publications|);
      }
  }

  lemma {:induction false} ExecInv(f: Fleet, run: seq<Action>)
    requires Inv(f)
    ensures Inv(Exec(f, run))
  {
    if |run| > 0 {
      ExecInv(f, run[..|run| - 1]);
      ApplyInv(Exec(f, run[..|run| - 1]), run[|run| - 1]);
    }
  }

  lemma StartInv(maxAttempts: map<Service, int>)
    ensures Inv(Start(maxAttempts))
  {
  }

  // ---------------------------------------------------------------------------------------------
  // Counting what happened in a run
  // ---------------------------------------------------------------------------------------------

  /** How many times the run took the step op on the queues of s. */
  function Count(f: Fleet, run: seq<Action>, s: Service, op: Op): nat {
    if |run| == 0 then 0
    else
      var init, last := run[..|run| - 1], run[|run| - 1];
      var before := Exec(f, init);
      Count(f, init, s, op) +
      if last == At(s, op) && s in before.pairs && Enabled(before.pairs[s], op) then 1 else 0
  }

  /** One action changes the queue pair of s only by a publication, a closed channel or a step of s. */
  lemma ApplyPair(f: Fleet, a: Action, s: Service)
    requires s in f.pairs
    ensures s in Apply(f, a).pairs
    ensures Apply(f, a).pairs[s] ==
            match a
            case Publish(_) => f.pairs[s].(ready := f.pairs[s].ready + multiset{|f.publications|})
            case Close(ch) => f.pairs[s].(failed := Released(f.pairs[s].failed, ch))
            case At(t, op) => if t == s then Step(f.pairs[s], op) else f.pairs[s]
  {
  }

  /** The attempts the broker counts are the rejected deliveries of the run, and nothing else. */
  lemma {:induction false} AttemptsAreRejections(f: Fleet, run: seq<Action>, s: Service, c: nat)
    requires s in f.pairs
    ensures s in Exec(f, run).pairs
    ensures Attempts(Exec(f, run).pairs[s], c) == Attempts(f.pairs[s], c) + Count(f, run, s, Fail(c))
  {
    hide Step, Enabled;
    if |run| > 0 {
      var init, last := run[..|run| - 1], run[|run| - 1];
      AttemptsAreRejections(f, init, s, c);
      ApplyPair(Exec(f, init), last, s);
      if last.At? {
        StepAttempts(Exec(f, init).pairs[s], last.op, c);
      }
    }
  }

  lemma StepUnacked(p: QueuePair, op: Op, c: nat)
    ensures Step(p, op).unacked[c] == p.unacked[c] +
                                      (if op == Deliver(c) && Enabled(p, op) then 1 else 0) -
                                      (if op in {Succeed(c), Fail(c), GiveBack(c)} && Enabled(p, op) then 1 else 0)
  {
    hide Copies, Waiting, WithHolder, Removed;
  }

  /** Every delivery is settled once, by an ack, a reject or a return, or is still with its handler. */
  lemma {:induction false} DeliveriesSettledOnce(f: Fleet, run: seq<Action>, s: Service, c: nat)
    requires s in f.pairs
    ensures s in Exec(f, run).pairs
    ensures f.pairs[s].unacked[c] + Count(f, run, s, Deliver(c)) ==
            Exec(f, run).pairs[s].unacked[c] +
            Count(f, run, s, Succeed(c)) + Count(f, run, s, Fail(c)) + Count(f, run, s, GiveBack(c))
  {
    hide Step, Enabled;
    if |run| > 0 {
      var init, last := run[..|run| - 1], run[|run| - 1];
      DeliveriesSettledOnce(f, init, s, c);
      ApplyPair(Exec(f, init), last, s);
      if last.At? {
        StepUnacked(Exec(f, init).pairs[s], last.op, c);
      }
    }
  }

  /**
    The retention protocol, over every run from the start. Each publication has exactly one copy
    per bound service and the copy is in exactly one place. It never fails more than max_attempts
    times, and it has left for the failed queue exactly when it failed that many times: returned
    deliveries do not count, and no copy gets there earlier.
   */
  lemma Retention(maxAttempts: map<Service, int>, run: seq<Action>, s: Service, c: nat)
    requires s in maxAttempts && maxAttempts[s] >= 1
    ensures var f, f0 := Exec(Start(maxAttempts), run), Start(maxAttempts);
            && s in f.pairs
            && Places(f.pairs[s], c) == (if c < |f.publications| then 1 else 0)
            && Count(f0, run, s, Fail(c)) <= maxAttempts[s]
            && (c < |f.publications| ==>
                  (Retained(f.pairs[s], c) <==> Count(f0, run, s, Fail(c)) == maxAttempts[s]))
  {
    var f0 := Start(maxAttempts);
    StartInv(maxAttempts);
    ExecInv(f0, run);
    ExecKeeps(f0, run);
    AttemptsAreRejections(f0, run, s, c);
    assert CopyInv(Exec(f0, run).pairs[s], c, |Exec(f0, run).publications|);
  }
}
