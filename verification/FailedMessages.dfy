/**
  The three admin calls on a failed queue (kontiki/registry/server/core.py). Each runs its loop on
  a channel of its own, and at every await the other parties of the protocol may take any steps.
 */
module FailedMessages {
  import opened Wrappers
  import opened Serialization
  import opened Broker
  import opened CallTrace

  // ---------------------------------------------------------------------------------------------
  // Other parties
  // ---------------------------------------------------------------------------------------------

  /** A step of another party: it does not act on the channel ch. */
  predicate Foreign(a: Action, ch: Channel) {
    match a
    case Publish(publication) => publication.origin.Replay? ==> publication.origin.channel != ch
    case Close(other) => other != ch
    case At(_, op) => (op.Get? || op.Ack? || op.Nack?) ==> op.channel != ch
  }

  predicate AllForeign(run: seq<Action>, ch: Channel) {
    forall i | 0 <= i < |run| :: Foreign(run[i], ch)
  }

  /** A step of a publisher, a handler or the broker: no admin call takes part. */
  predicate Working(a: Action) {
    match a
    case Publish(_) => true
    case Close(_) => false
    case At(_, op) => !op.Get? && !op.Ack? && !op.Nack?
  }

  predicate AllWorking(run: seq<Action>) {
    forall i | 0 <= i < |run| :: Working(run[i])
  }

  /** What the channel ch holds in s, and the copies of s it republished, in order. */
  ghost predicate HoldsExactly(failed: seq<Entry>, ch: Channel, copies: set<nat>) {
    forall c: nat :: Entry(c, Some(ch)) in failed <==> c in copies
  }

  function Republished(publications: seq<Publication>, s: Service, ch: Channel): seq<nat> {
    if |publications| == 0 then []
    else
      var init, last := publications[..|publications| - 1], publications[|publications| - 1];
      Republished(init, s, ch) +
      if last.origin.Replay? && last.origin.service == s && last.origin.channel == ch
      then [last.origin.copy] else []
  }

  /** Every republication by ch has the body of the copy it replays. */
  ghost predicate BodiesKept(publications: seq<Publication>, ch: Channel) {
    forall i | 0 <= i < |publications| ::
      var origin := publications[i].origin;
      origin.Replay? && origin.channel == ch ==>
        origin.copy < i && publications[i].body == publications[origin.copy].body
  }

  lemma {:induction false} HolderMembers(s: seq<Entry>, copy: nat, holder: Option<Channel>)
    ensures forall e :: e in WithHolder(s, copy, holder) <==>
                        (e.copy != copy && e in s) || (e == Entry(copy, holder) && copy in Copies(s))
  {
    if |s| > 0 {
      HolderMembers(s[..|s| - 1], copy, holder);
      assert s == s[..|s| - 1] + [s[|s| - 1]];
    }
  }

  lemma {:induction false} RemovedMembers(s: seq<Entry>, copy: nat)
    ensures forall e :: e in Removed(s, copy) <==> e.copy != copy && e in s
  {
    if |s| > 0 {
      RemovedMembers(s[..|s| - 1], copy);
      assert s == s[..|s| - 1] + [s[|s| - 1]];
    }
  }

  lemma {:induction false} ReleasedMembers(s: seq<Entry>, ch: Channel)
    ensures forall e :: e in Released(s, ch) <==>
                        (e in s && e.holder != Some(ch)) || (e.holder.None? && Entry(e.copy, Some(ch)) in s)
  {
    if |s| > 0 {
      ReleasedMembers(s[..|s| - 1], ch);
      assert s == s[..|s| - 1] + [s[|s| - 1]];
    }
  }

  /** In a queue without repeated copies a copy has one entry. */
  lemma {:induction false} OneEntry(s: seq<Entry>, d: Entry, e: Entry)
    requires d in s && e in s && d.copy == e.copy && Copies(s)[d.copy] <= 1
    ensures d == e
  {
    var init, last := s[..|s| - 1], s[|s| - 1];
    assert s == init + [last];
    if d != last && e != last {
      OneEntry(init, d, e);
    } else if d != last {
      EntryCopy(init, d);
    } else if e != last {
      EntryCopy(init, e);
    }
  }

  lemma {:induction false} WaitingMember(s: seq<Entry>, i: nat)
    requires i < |Waiting(s)|
    ensures Entry(Waiting(s)[i], None) in s
  {
    var init := s[..|s| - 1];
    assert s == init + [s[|s| - 1]];
    if i < |Waiting(init)| {
      WaitingMember(init, i);
    }
  }

  // ---------------------------------------------------------------------------------------------
  // What an admin call keeps while others act
  // ---------------------------------------------------------------------------------------------

  predicate Settled(p: QueuePair, reason: Reason, c: nat) {
    match reason
    case Replayed => c in p.replayed
    case Dropped => c in p.dropped
  }

  /** The call on channel ch settled the copies gone, holds the copies held and republished sent. */
  ghost predicate Calling(f: Fleet, s: Service, ch: Channel, reason: Reason,
                          gone: seq<nat>, held: seq<nat>, sent: seq<nat>)
  {
    && Inv(f)
    && s in f.pairs
    && HoldsExactly(f.pairs[s].failed, ch, set c | c in held)
    && Republished(f.publications, s, ch) == sent
    && BodiesKept(f.publications, ch)
    && Distinct(gone + held)
    && forall c | c in gone :: Settled(f.pairs[s], reason, c)
  }

  lemma InPlaceOnce(f: Fleet, s: Service, c: nat)
    requires Inv(f) && s in f.pairs
    ensures var p := f.pairs[s];
            p.leaving[c] + Copies(p.failed)[c] + p.replayed[c] + p.dropped[c] <= 1
  {
    assert CopyInv(f.pairs[s], c, |f.publications|);
  }

  lemma ForeignStep(f: Fleet, s: Service, op: Op, ch: Channel)
    requires Inv(f) && s in f.pairs && Foreign(At(s, op), ch)
    ensures var p, q := f.pairs[s], Step(f.pairs[s], op);
            forall c: nat :: Entry(c, Some(ch)) in q.failed <==> Entry(c, Some(ch)) in p.failed
  {
    hide Inv, Copies, WithHolder, Removed, Waiting, Step;
    var p := f.pairs[s];
    if !Enabled(p, op) {
      DisabledStep(p, op);
    } else if op.Get? || op.Nack? {
      ForeignHolder(f, s, op, ch);
    } else if op.Ack? {
      FailedQueueAfter(p, op);
      RemovedMembers(p.failed, op.copy);
      LoneEntry(f, s, Entry(op.copy, Some(op.channel)), ch);
    } else if op.Retain? {
      FailedQueueAfter(p, op);
    } else {
      WorkKeepsFailed(p, op);
    }
  }

  lemma WorkKeepsFailed(p: QueuePair, op: Op)
    requires op.Deliver? || op.Succeed? || op.Fail? || op.GiveBack? || op.RetryDue?
    ensures var q := Step(p, op); q.failed == p.failed && q.replayed == p.replayed && q.dropped == p.dropped
  {
    hide Waiting;
  }

  /** Get and nack of another channel. */
  lemma ForeignHolder(f: Fleet, s: Service, op: Op, ch: Channel)
    requires Inv(f) && s in f.pairs && Enabled(f.pairs[s], op) && (op.Get? || op.Nack?) && op.channel != ch
    ensures var p, q := f.pairs[s], Step(f.pairs[s], op);
            forall c: nat :: Entry(c, Some(ch)) in q.failed <==> Entry(c, Some(ch)) in p.failed
  {
    hide Inv, Copies, WithHolder, Waiting, Step;
    var p := f.pairs[s];
    FailedQueueAfter(p, op);
    var c := if op.Get? then Waiting(p.failed)[0] else op.copy;
    if op.Get? {
      WaitingMember(p.failed, 0);
    }
    HolderMembers(p.failed, c, if op.Get? then Some(op.channel) else None);
    LoneEntry(f, s, Entry(c, if op.Get? then None else Some(op.channel)), ch);
  }

  /** A copy that somebody else or nobody holds is not held by ch. */
  lemma LoneEntry(f: Fleet, s: Service, e: Entry, ch: Channel)
    requires Inv(f) && s in f.pairs && e in f.pairs[s].failed && e.holder != Some(ch)
    ensures Entry(e.copy, Some(ch)) !in f.pairs[s].failed
  {
    InPlaceOnce(f, s, e.copy);
    if Entry(e.copy, Some(ch)) in f.pairs[s].failed {
      OneEntry(f.pairs[s].failed, e, Entry(e.copy, Some(ch)));
    }
  }

  lemma ForeignApply(f: Fleet, a: Action, s: Service, ch: Channel, reason: Reason,
                     gone: seq<nat>, held: seq<nat>, sent: seq<nat>)
    requires Calling(f, s, ch, reason, gone, held, sent) && Foreign(a, ch)
    ensures Calling(Apply(f, a), s, ch, reason, gone, held, sent)
  {
    hide Step, Inv, Copies, Waiting, CopyInv;
    ApplyInv(f, a);
    ApplyPair(f, a, s);
    match a
    case Publish(publication) =>
      assert (f.publications + [publication])[..|f.publications|] == f.publications;
    case Close(other) =>
      ReleasedMembers(f.pairs[s].failed, other);
    case At(t, op) =>
      if t == s {
        ForeignStep(f, s, op, ch);
        SettledStays(f.pairs[s], op, reason);
      }
  }

  lemma SettledStays(p: QueuePair, op: Op, reason: Reason)
    ensures forall c | Settled(p, reason, c) :: Settled(Step(p, op), reason, c)
  {
  }

  lemma {:induction false} ForeignRun(f: Fleet, run: seq<Action>, s: Service, ch: Channel, reason: Reason,
                                      gone: seq<nat>, held: seq<nat>, sent: seq<nat>)
    requires Calling(f, s, ch, reason, gone, held, sent) && AllForeign(run, ch)
    ensures Calling(Exec(f, run), s, ch, reason, gone, held, sent)
  {
    if |run| > 0 {
      var init := run[..|run| - 1];
      ForeignRun(f, init, s, ch, reason, gone, held, sent);
      ForeignApply(Exec(f, init), run[|run| - 1], s, ch, reason, gone, held, sent);
    }
  }

  /** queue.get: the oldest waiting copy joins the held ones. */
  lemma GetCalling(f: Fleet, s: Service, ch: Channel, reason: Reason,
                   gone: seq<nat>, held: seq<nat>, sent: seq<nat>)
    requires Calling(f, s, ch, reason, gone, held, sent) && Waiting(f.pairs[s].failed) != []
    ensures Calling(Apply(f, At(s, Get(ch))), s, ch, reason, gone, held + [Waiting(f.pairs[s].failed)[0]], sent)
  {
    hide Waiting, Copies, WithHolder, BodiesKept, Republished, CopyInv;
    var p, w := f.pairs[s], Waiting(f.pairs[s].failed)[0];
    ApplyInv(f, At(s, Get(ch)));
    WaitingMember(p.failed, 0);
    EntryCopy(p.failed, Entry(w, None));
    HolderMembers(p.failed, w, Some(ch));
    LoneEntry(f, s, Entry(w, None), ch);
    InPlaceOnce(f, s, w);
    assert w !in gone && w !in held;
    var more := held + [w];
    assert gone + more == gone + held + [w];
    assert forall c :: c in more <==> c in held || c == w;
  }

  /** message.ack: the first held copy is gone. */
  lemma AckCalling(f: Fleet, s: Service, ch: Channel, reason: Reason,
                   gone: seq<nat>, held: seq<nat>, sent: seq<nat>)
    requires Calling(f, s, ch, reason, gone, held, sent) && held != []
    ensures Calling(Apply(f, At(s, Ack(ch, held[0], reason))), s, ch, reason, gone + [held[0]], held[1..], sent)
  {
    var p, c, rest := f.pairs[s], held[0], held[1..];
    ApplyInv(f, At(s, Ack(ch, c, reason)));
    assert Entry(c, Some(ch)) in p.failed;
    RemovedMembers(p.failed, c);
    SettledStays(p, Ack(ch, c, reason), reason);
    assert (gone + [c]) + rest == gone + held;
    FirstApart(gone, held);
  }

  lemma FirstApart(gone: seq<nat>, held: seq<nat>)
    requires Distinct(gone + held) && held != []
    ensures held[0] !in held[1..]
    ensures Distinct(gone + held[1..])
    ensures forall c :: c in held <==> c == held[0] || c in held[1..]
  {
    var all, less := gone + held, gone + held[1..];
    forall i | 1 <= i < |held| ensures held[i] != held[0] {
      assert all[|gone|] == held[0] && all[|gone| + i] == held[i];
    }
    forall i, j | 0 <= i < j < |less| ensures less[i] != less[j] {
      assert less[i] == all[if i < |gone| then i else i + 1];
      assert less[j] == all[if j < |gone| then j else j + 1];
    }
    assert held == [held[0]] + held[1..];
  }

  /** message.nack(requeue=True): the first held copy waits again. */
  lemma NackCalling(f: Fleet, s: Service, ch: Channel, reason: Reason,
                    gone: seq<nat>, held: seq<nat>, sent: seq<nat>)
    requires Calling(f, s, ch, reason, gone, held, sent) && held != []
    ensures Calling(Apply(f, At(s, Nack(ch, held[0]))), s, ch, reason, gone, held[1..], sent)
  {
    var p, c := f.pairs[s], held[0];
    ApplyInv(f, At(s, Nack(ch, c)));
    assert Entry(c, Some(ch)) in p.failed;
    HolderMembers(p.failed, c, None);
    SettledStays(p, Nack(ch, c), reason);
    FirstApart(gone, held);
  }

  /** channel.close: every copy still held waits again. */
  lemma CloseCalling(f: Fleet, s: Service, ch: Channel, reason: Reason,
                     gone: seq<nat>, held: seq<nat>, sent: seq<nat>)
    requires Calling(f, s, ch, reason, gone, held, sent)
    ensures Calling(Apply(f, Close(ch)), s, ch, reason, gone, [], sent)
    ensures forall c | c in held :: Entry(c, None) in Apply(f, Close(ch)).pairs[s].failed
  {
    ApplyInv(f, Close(ch));
    ApplyPair(f, Close(ch), s);
    ReleasedMembers(f.pairs[s].failed, ch);
    assert forall i | 0 <= i < |gone| :: (gone + held)[i] == gone[i];
    assert gone + [] == gone;
    forall c | c in held ensures Entry(c, Some(ch)) in f.pairs[s].failed {
    }
  }

  /** The publish of a replay: one more copy of ours was sent, with the body of the original. */
  lemma PublishCalling(f: Fleet, s: Service, ch: Channel, reason: Reason,
                       gone: seq<nat>, held: seq<nat>, sent: seq<nat>, c: nat)
    requires Calling(f, s, ch, reason, gone, held, sent) && c < |f.publications|
    ensures Calling(Apply(f, Publish(Publication(f.publications[c].body, Replay(s, c, ch)))),
                    s, ch, reason, gone, held, sent + [c])
  {
    var publication := Publication(f.publications[c].body, Replay(s, c, ch));
    ApplyInv(f, Publish(publication));
    ApplyPair(f, Publish(publication), s);
    assert (f.publications + [publication])[..|f.publications|] == f.publications;
  }

  /** A held copy was published once. */
  lemma HeldPublished(f: Fleet, s: Service, ch: Channel, reason: Reason,
                      gone: seq<nat>, held: seq<nat>, sent: seq<nat>, c: nat)
    requires Calling(f, s, ch, reason, gone, held, sent) && c in held
    ensures c < |f.publications|
  {
    EntryCopy(f.pairs[s].failed, Entry(c, Some(ch)));
    assert CopyInv(f.pairs[s], c, |f.publications|);
  }

  // ---------------------------------------------------------------------------------------------
  // The failed queue when only publishers, handlers and the broker act beside the call
  // ---------------------------------------------------------------------------------------------

  datatype Mark = Held | Gone

  /** The queue base, where the call holds the copies marked so and removed the gone ones. */
  ghost function View(base: seq<Entry>, marks: map<nat, Mark>, ch: Channel): seq<Entry> {
    if |base| == 0 then []
    else
      var init, last := base[..|base| - 1], base[|base| - 1];
      View(init, marks, ch) +
      if last.copy !in marks then [last]
      else if marks[last.copy].Gone? then []
      else [Entry(last.copy, Some(ch))]
  }

  ghost function Marks(gone: seq<nat>, held: seq<nat>): map<nat, Mark> {
    map c | c in gone + held :: if c in gone then Gone else Held
  }

  /** The queue without the given copies; everything else in its place. */
  ghost function Without(base: seq<Entry>, gone: seq<nat>): seq<Entry> {
    if |base| == 0 then []
    else
      var init, last := base[..|base| - 1], base[|base| - 1];
      Without(init, gone) + if last.copy in gone then [] else [last]
  }

  lemma {:induction false} ViewTake(base: seq<Entry>, marks: map<nat, Mark>, ch: Channel, c: nat)
    requires c !in marks
    ensures WithHolder(View(base, marks, ch), c, Some(ch)) == View(base, marks[c := Held], ch)
  {
    if |base| > 0 {
      ViewTake(base[..|base| - 1], marks, ch, c);
      ViewTail(base, marks, ch);
    }
  }

  /** The view of a queue ends with the view of its last entry. */
  lemma ViewTail(base: seq<Entry>, marks: map<nat, Mark>, ch: Channel)
    requires |base| > 0
    ensures var init, last := View(base[..|base| - 1], marks, ch), base[|base| - 1];
            var v := View(base, marks, ch);
            if last.copy in marks && marks[last.copy].Gone? then v == init
            else |v| > 0 && v[..|v| - 1] == init
  {
  }

  lemma {:induction false} ViewRemove(base: seq<Entry>, marks: map<nat, Mark>, ch: Channel, c: nat)
    ensures Removed(View(base, marks, ch), c) == View(base, marks[c := Gone], ch)
  {
    if |base| > 0 {
      ViewRemove(base[..|base| - 1], marks, ch, c);
      ViewTail(base, marks, ch);
    }
  }

  /** A queue with no entry of ch and no copy twice; the marked copies wait in it. */
  ghost predicate Based(base: seq<Entry>, marks: map<nat, Mark>, ch: Channel) {
    && (forall c: nat :: Copies(base)[c] <= 1)
    && (forall e | e in base :: e.holder != Some(ch))
    && (forall e | e in base && e.copy in marks :: e.holder.None?)
  }

  lemma BasedInit(base: seq<Entry>, marks: map<nat, Mark>, ch: Channel)
    requires Based(base, marks, ch) && |base| > 0
    ensures Based(base[..|base| - 1], marks, ch)
  {
    var init := base[..|base| - 1];
    forall c: nat ensures Copies(init)[c] <= 1 {
      assert Copies(base)[c] <= 1;
    }
  }

  lemma {:induction false} ViewGiveBack(base: seq<Entry>, marks: map<nat, Mark>, ch: Channel, c: nat)
    requires Based(base, marks, ch) && c in marks && marks[c].Held?
    ensures WithHolder(View(base, marks, ch), c, None) == View(base, marks - {c}, ch)
  {
    if |base| > 0 {
      BasedInit(base, marks, ch);
      ViewGiveBack(base[..|base| - 1], marks, ch, c);
      ViewTail(base, marks, ch);
    }
  }

  lemma {:induction false} ViewClose(base: seq<Entry>, gone: seq<nat>, held: seq<nat>, ch: Channel)
    requires Based(base, Marks(gone, held), ch)
    ensures Released(View(base, Marks(gone, held), ch), ch) == Without(base, gone)
  {
    if |base| > 0 {
      BasedInit(base, Marks(gone, held), ch);
      ViewClose(base[..|base| - 1], gone, held, ch);
      ViewTail(base, Marks(gone, held), ch);
    }
  }

  function Unmarked(s: seq<nat>, marks: map<nat, Mark>): seq<nat> {
    if |s| == 0 then []
    else Unmarked(s[..|s| - 1], marks) + if s[|s| - 1] in marks then [] else [s[|s| - 1]]
  }

  lemma {:induction false} ViewWaiting(base: seq<Entry>, marks: map<nat, Mark>, ch: Channel)
    requires Based(base, marks, ch)
    ensures Waiting(View(base, marks, ch)) == Unmarked(Waiting(base), marks)
  {
    if |base| > 0 {
      var init, last := base[..|base| - 1], base[|base| - 1];
      BasedInit(base, marks, ch);
      ViewWaiting(init, marks, ch);
      ViewTail(base, marks, ch);
      if last.holder.None? {
        assert Waiting(base)[..|Waiting(base)| - 1] == Waiting(init);
      } else {
        assert Waiting(base) == Waiting(init);
        assert last.copy !in marks;
      }
      if last.copy in marks {
        assert Waiting(View(base, marks, ch)) == Waiting(View(init, marks, ch));
      } else {
        assert View(base, marks, ch)[|View(base, marks, ch)| - 1] == last;
      }
    }
  }

  lemma {:induction false} UnmarkedRest(s: seq<nat>, marks: map<nat, Mark>, n: nat)
    requires Distinct(s) && n <= |s| && forall c :: c in marks <==> c in s[..n]
    ensures Unmarked(s, marks) == s[n..]
    decreases |s|
  {
    hide Distinct;
    if |s| == n {
      AllMarked(s, marks);
    } else {
      var init := s[..|s| - 1];
      assert init[..n] == s[..n];
      DistinctInit(s, n);
      UnmarkedRest(init, marks, n);
      assert s[n..] == init[n..] + [s[|s| - 1]];
    }
  }

  lemma DistinctInit(s: seq<nat>, n: nat)
    requires Distinct(s) && n < |s|
    ensures Distinct(s[..|s| - 1]) && s[|s| - 1] !in s[..n]
  {
  }

  lemma {:induction false} AllMarked(s: seq<nat>, marks: map<nat, Mark>)
    requires forall c | c in s :: c in marks
    ensures Unmarked(s, marks) == []
  {
    if |s| > 0 {
      AllMarked(s[..|s| - 1], marks);
    }
  }

  lemma {:induction false} WaitingDistinct(s: seq<Entry>)
    requires forall c: nat :: Copies(s)[c] <= 1
    ensures Distinct(Waiting(s))
    ensures forall c | c in Waiting(s) :: c in Copies(s)
  {
    if |s| > 0 {
      var init := s[..|s| - 1];
      forall c: nat ensures Copies(init)[c] <= 1 {
        assert Copies(s)[c] <= 1;
      }
      WaitingDistinct(init);
      assert Copies(s)[s[|s| - 1].copy] <= 1;
    }
  }

  /** How the queue looks to a call that has settled gone and holds held: base, seen through marks. */
  ghost predicate Viewing(f: Fleet, s: Service, ch: Channel, base: seq<Entry>, gone: seq<nat>, held: seq<nat>) {
    && Inv(f)
    && s in f.pairs
    && Based(base, Marks(gone, held), ch)
    && f.pairs[s].failed == View(base, Marks(gone, held), ch)
    && (forall c | c in gone + held :: c in Waiting(base))
    && forall c: nat | c in Copies(base) :: Past(f.pairs[s], c)
  }

  /** The copy reached the failed queue once. */
  predicate Past(p: QueuePair, c: nat) {
    c in Copies(p.failed) || c in p.replayed || c in p.dropped
  }

  lemma WorkingStep(f: Fleet, a: Action, s: Service, ch: Channel, base: seq<Entry>, gone: seq<nat>, held: seq<nat>)
    returns (more: seq<Entry>)
    requires Viewing(f, s, ch, base, gone, held) && Working(a)
    ensures Viewing(Apply(f, a), s, ch, base + more, gone, held)
    ensures forall e | e in more :: e.holder.None?
  {
    hide Step, Inv, Copies, Waiting, WithHolder, Removed, View, Based, Marks;
    var p := f.pairs[s];
    if a.At? && a.service == s && a.op.Retain? && Enabled(p, a.op) {
      more := [Entry(a.op.copy, None)];
      RetainViewing(f, a.op.copy, s, ch, base, gone, held);
    } else {
      more := [];
      assert base + more == base;
      ApplyInv(f, a);
      ApplyPair(f, a, s);
      WorkingFrame(f, a, s);
    }
  }

  lemma WorkingFrame(f: Fleet, a: Action, s: Service)
    requires s in f.pairs && Working(a)
    requires a.At? && a.service == s ==> !a.op.Retain? || !Enabled(f.pairs[s], a.op)
    ensures var p, q := f.pairs[s], Apply(f, a).pairs[s];
            q.failed == p.failed && q.replayed == p.replayed && q.dropped == p.dropped
  {
  }

  /** A copy that arrives joins the tail of the queue. */
  lemma RetainViewing(f: Fleet, c: nat, s: Service, ch: Channel, base: seq<Entry>, gone: seq<nat>, held: seq<nat>)
    requires Viewing(f, s, ch, base, gone, held) && Enabled(f.pairs[s], Retain(c))
    ensures Viewing(Apply(f, At(s, Retain(c))), s, ch, base + [Entry(c, None)], gone, held)
  {
    var p, marks, g := f.pairs[s], Marks(gone, held), Apply(f, At(s, Retain(c)));
    var longer := base + [Entry(c, None)];
    ApplyInv(f, At(s, Retain(c)));
    InPlaceOnce(f, s, c);
    assert c !in Copies(base);
    RetainBased(base, marks, ch, c);
    assert longer[..|longer| - 1] == base;
    assert Waiting(longer) == Waiting(base) + [c];
    WaitingDistinct(base);
    assert c !in marks;
    assert g.pairs[s].failed == View(longer, marks, ch);
    forall d: nat | d in Copies(longer) ensures Past(g.pairs[s], d) {
      assert d == c || Past(p, d);
      CopiesConcat(p.failed, [Entry(c, None)]);
      assert Copies([Entry(c, None)]) == multiset{c};
    }
  }

  lemma RetainBased(base: seq<Entry>, marks: map<nat, Mark>, ch: Channel, c: nat)
    requires Based(base, marks, ch) && c !in Copies(base)
    ensures Based(base + [Entry(c, None)], marks, ch)
  {
    var longer := base + [Entry(c, None)];
    CopiesConcat(base, [Entry(c, None)]);
    assert Copies([Entry(c, None)]) == multiset{c};
    forall d: nat ensures Copies(longer)[d] <= 1 {
      assert Copies(base)[d] <= 1;
    }
  }

  lemma {:induction false} WorkingRun(f: Fleet, run: seq<Action>, s: Service, ch: Channel,
                                      base: seq<Entry>, gone: seq<nat>, held: seq<nat>)
    returns (more: seq<Entry>)
    requires Viewing(f, s, ch, base, gone, held) && AllWorking(run)
    ensures Viewing(Exec(f, run), s, ch, base + more, gone, held)
    ensures forall e | e in more :: e.holder.None?
  {
    if |run| == 0 {
      more := [];
      assert base + more == base;
    } else {
      var init := run[..|run| - 1];
      more := WorkingRun(f, init, s, ch, base, gone, held);
      var last := WorkingStep(Exec(f, init), run[|run| - 1], s, ch, base + more, gone, held);
      assert base + (more + last) == base + more + last;
      more := more + last;
    }
  }

  ghost predicate TakenInOrder(base: seq<Entry>, taken: seq<nat>) {
    taken <= Waiting(base)
  }

  /** What get does to the queue, when a copy waits. */
  lemma GetQueue(f: Fleet, s: Service, ch: Channel)
    requires Inv(f) && s in f.pairs && Waiting(f.pairs[s].failed) != []
    ensures var p, g := f.pairs[s], Apply(f, At(s, Get(ch)));
            && Inv(g) && s in g.pairs
            && g.pairs[s].failed == WithHolder(p.failed, Waiting(p.failed)[0], Some(ch))
            && forall c: nat :: Past(g.pairs[s], c) <==> Past(p, c)
  {
    ApplyInv(f, At(s, Get(ch)));
    HolderKeepsCopies(f.pairs[s].failed, Waiting(f.pairs[s].failed)[0], Some(ch));
  }

  lemma AckQueue(f: Fleet, s: Service, ch: Channel, c: nat, reason: Reason)
    requires Inv(f) && s in f.pairs && Entry(c, Some(ch)) in f.pairs[s].failed
    ensures var p, g := f.pairs[s], Apply(f, At(s, Ack(ch, c, reason)));
            && Inv(g) && s in g.pairs
            && g.pairs[s].failed == Removed(p.failed, c)
            && forall d: nat | Past(p, d) :: Past(g.pairs[s], d)
  {
    ApplyInv(f, At(s, Ack(ch, c, reason)));
    RemovedCopies(f.pairs[s].failed, c);
  }

  lemma NackQueue(f: Fleet, s: Service, ch: Channel, c: nat)
    requires Inv(f) && s in f.pairs && Entry(c, Some(ch)) in f.pairs[s].failed
    ensures var p, g := f.pairs[s], Apply(f, At(s, Nack(ch, c)));
            && Inv(g) && s in g.pairs
            && g.pairs[s].failed == WithHolder(p.failed, c, None)
            && forall d: nat :: Past(g.pairs[s], d) <==> Past(p, d)
  {
    ApplyInv(f, At(s, Nack(ch, c)));
    HolderKeepsCopies(f.pairs[s].failed, c, None);
  }

  lemma GetViewing(f: Fleet, s: Service, ch: Channel, base: seq<Entry>, gone: seq<nat>, held: seq<nat>)
    requires Viewing(f, s, ch, base, gone, held) && TakenInOrder(base, gone + held)
    ensures var waiting, n := Waiting(f.pairs[s].failed), |gone + held|;
            && waiting == Waiting(base)[n..]
            && (waiting != [] ==>
                  && Viewing(Apply(f, At(s, Get(ch))), s, ch, base, gone, held + [waiting[0]])
                  && TakenInOrder(base, gone + (held + [waiting[0]])))
  {
    hide Inv, View, Copies, Past;
    var p, marks := f.pairs[s], Marks(gone, held);
    ViewWaiting(base, marks, ch);
    WaitingDistinct(base);
    UnmarkedRest(Waiting(base), marks, |gone + held|);
    if Waiting(p.failed) != [] {
      var w := Waiting(p.failed)[0];
      assert w == Waiting(base)[|gone + held|];
      assert w !in gone + held;
      GetQueue(f, s, ch);
      ViewTake(base, marks, ch, w);
      WaitingOnce(base, w);
      MarksTake(gone, held, w);
    }
  }

  lemma MarksTake(gone: seq<nat>, held: seq<nat>, w: nat)
    requires w !in gone + held
    ensures Marks(gone, held + [w]) == Marks(gone, held)[w := Held]
    ensures gone + (held + [w]) == gone + held + [w]
  {
    assert gone + (held + [w]) == gone + held + [w];
  }

  /** The entry of a waiting copy is held by nobody. */
  lemma WaitingOnce(base: seq<Entry>, w: nat)
    requires (forall c: nat :: Copies(base)[c] <= 1) && w in Waiting(base)
    ensures forall e | e in base && e.copy == w :: e.holder.None?
  {
    var i :| 0 <= i < |Waiting(base)| && Waiting(base)[i] == w;
    WaitingMember(base, i);
    forall e | e in base && e.copy == w ensures e.holder.None? {
      OneEntry(base, e, Entry(w, None));
    }
  }

  lemma AckViewing(f: Fleet, s: Service, ch: Channel, reason: Reason,
                   base: seq<Entry>, gone: seq<nat>, held: seq<nat>, sent: seq<nat>)
    requires Calling(f, s, ch, reason, gone, held, sent) && Viewing(f, s, ch, base, gone, held) && held != []
    ensures Viewing(Apply(f, At(s, Ack(ch, held[0], reason))), s, ch, base, gone + [held[0]], held[1..])
  {
    var c := held[0];
    assert Entry(c, Some(ch)) in f.pairs[s].failed;
    AckQueue(f, s, ch, c, reason);
    MarksAck(gone, held);
    ViewRemove(base, Marks(gone, held), ch, c);
  }

  lemma MarksAck(gone: seq<nat>, held: seq<nat>)
    requires held != []
    ensures Marks(gone + [held[0]], held[1..]) == Marks(gone, held)[held[0] := Gone]
    ensures (gone + [held[0]]) + held[1..] == gone + held
  {
    assert (gone + [held[0]]) + held[1..] == gone + held;
  }

  lemma MarksNack(gone: seq<nat>, held: seq<nat>)
    requires Distinct(gone + held) && held != []
    ensures Marks(gone, held[1..]) == Marks(gone, held) - {held[0]}
    ensures held[0] in Marks(gone, held) && Marks(gone, held)[held[0]].Held?
    ensures forall d | d in gone + held[1..] :: d in gone + held
  {
    FirstApart(gone, held);
    forall i | 0 <= i < |gone| ensures gone[i] != held[0] {
      assert (gone + held)[i] == gone[i] && (gone + held)[|gone|] == held[0];
    }
  }

  lemma NackViewing(f: Fleet, s: Service, ch: Channel, reason: Reason,
                    base: seq<Entry>, gone: seq<nat>, held: seq<nat>, sent: seq<nat>)
    requires Calling(f, s, ch, reason, gone, held, sent) && Viewing(f, s, ch, base, gone, held) && held != []
    ensures Viewing(Apply(f, At(s, Nack(ch, held[0]))), s, ch, base, gone, held[1..])
  {
    var c := held[0];
    assert Entry(c, Some(ch)) in f.pairs[s].failed;
    NackQueue(f, s, ch, c);
    MarksNack(gone, held);
    ViewGiveBack(base, Marks(gone, held), ch, c);
  }

  lemma PublishViewing(f: Fleet, s: Service, ch: Channel, working: bool,
                       base: seq<Entry>, gone: seq<nat>, held: seq<nat>, c: nat)
    requires c < |f.publications|
    requires working ==> Viewing(f, s, ch, base, gone, held)
    ensures working ==>
              Viewing(Apply(f, Publish(Publication(f.publications[c].body, Replay(s, c, ch)))), s, ch, base, gone, held)
  {
    if working {
      var a := Publish(Publication(f.publications[c].body, Replay(s, c, ch)));
      ApplyInv(f, a);
      ApplyPair(f, a, s);
    }
  }

  /** Closing the channel leaves the queue without the settled copies; all others are in their place. */
  lemma CloseViewing(f: Fleet, s: Service, ch: Channel, base: seq<Entry>, gone: seq<nat>, held: seq<nat>)
    requires Viewing(f, s, ch, base, gone, held)
    ensures Apply(f, Close(ch)).pairs[s].failed == Without(base, gone)
  {
    ApplyPair(f, Close(ch), s);
    ViewClose(base, gone, held, ch);
  }

  lemma {:induction false} StartViewing(base: seq<Entry>, ch: Channel)
    ensures View(base, Marks([], []), ch) == base
  {
    if |base| > 0 {
      StartViewing(base[..|base| - 1], ch);
    }
  }

  lemma {:induction false} WaitingConcat(s: seq<Entry>, t: seq<Entry>)
    ensures Waiting(s + t) == Waiting(s) + Waiting(t)
  {
    if |t| == 0 {
      assert s + t == s;
    } else {
      assert (s + t)[..|s + t| - 1] == s + t[..|t| - 1];
      WaitingConcat(s, t[..|t| - 1]);
    }
  }

  // ---------------------------------------------------------------------------------------------
  // The calls
  // ---------------------------------------------------------------------------------------------

  /** Why a call raised: the queue does not exist, an interaction failed, or a body was no JSON. */
  datatype Failure = NoQueue | Interrupted | NotJson

  /** What ended the work of a call: nothing, its n-th interaction, or the body of its i-th message. */
  datatype Stop = Complete | FailedAt(interaction: nat) | UnreadableAt(message: nat)

  function ResultOf<T>(stop: Stop, value: T): Result<T, Failure> {
    match stop
    case Complete => Ok(value)
    case FailedAt(_) => Err(Interrupted)
    case UnreadableAt(_) => Err(NotJson)
  }

  predicate AllFine(luck: nat -> Luck, n: nat) {
    forall k | 0 <= k < n :: luck(k) == Fine
  }

  /** The interaction n is the first one that did not go well. */
  predicate FirstFailure(luck: nat -> Luck, n: nat) {
    luck(n) != Fine && AllFine(luck, n)
  }

  predicate Legible(publications: seq<Publication>, c: nat) {
    c < |publications| && publications[c].body.Some?
  }

  predicate LegibleUpTo(publications: seq<Publication>, taken: seq<nat>, n: nat) {
    forall i | 0 <= i < n && i < |taken| :: Legible(publications, taken[i])
  }

  /** The i-th message is the first one whose body cannot be read. */
  predicate FirstIllegible(publications: seq<Publication>, taken: seq<nat>, i: nat) {
    && i < |taken| && taken[i] < |publications|
    && !Legible(publications, taken[i]) && LegibleUpTo(publications, taken, i)
  }

  lemma LegibleStays(publications: seq<Publication>, more: seq<Publication>, taken: seq<nat>)
    requires publications <= more
    ensures forall n: nat :: LegibleUpTo(publications, taken, n) ==> LegibleUpTo(more, taken, n)
    ensures forall i: nat :: FirstIllegible(publications, taken, i) ==> FirstIllegible(more, taken, i)
  {
  }

  /** The queries of a call that took that many messages: one more when the queue ran out of them. */
  function Gets(taken: nat, count: int): nat {
    if taken == count || count <= 0 then taken else taken + 1
  }

  /** Whether the interaction n had its effect, when it is the one that failed. */
  function Extra(luck: nat -> Luck, n: nat): nat {
    if luck(n) == Unconfirmed then 1 else 0
  }

  /**
    How the taking of messages ended. Completed, it asked until it had enough or found none. A failed
    query may still have taken its message. A call that reads the bodies at once stops at one that is
    no JSON.
   */
  predicate TakeStop(stop: Stop, reading: bool, luck: nat -> Luck, publications: seq<Publication>,
                     taken: seq<nat>, gets: nat, count: int)
  {
    match stop
    case Complete =>
      && gets == Gets(|taken|, count) && AllFine(luck, gets)
      && (reading ==> LegibleUpTo(publications, taken, |taken|))
    case FailedAt(n) =>
      && gets == n + 1 && n < count && FirstFailure(luck, n) && n <= |taken| <= n + Extra(luck, n)
      && (reading ==> LegibleUpTo(publications, taken, n))
    case UnreadableAt(i) =>
      && reading && gets == |taken| == i + 1 && AllFine(luck, gets) && FirstIllegible(publications, taken, i)
  }

  /** The call got beyond taking its messages. */
  predicate Went(stop: Stop, gets: nat) {
    match stop
    case Complete => true
    case FailedAt(n) => n >= gets
    case UnreadableAt(_) => true
  }

  /** How a replay ended: every message takes two interactions, once its body was read. */
  predicate ReplayStop(stop: Stop, luck: nat -> Luck, publications: seq<Publication>,
                       taken: seq<nat>, gets: nat, count: int)
  {
    if !Went(stop, gets) then TakeStop(stop, false, luck, publications, taken, gets, count)
    else
      TakeStop(Complete, false, luck, publications, taken, gets, count) &&
      match stop
      case Complete => AllFine(luck, gets + 2 * |taken|) && LegibleUpTo(publications, taken, |taken|)
      case FailedAt(n) =>
        && n < gets + 2 * |taken| && FirstFailure(luck, n)
        && LegibleUpTo(publications, taken, (n - gets) / 2 + 1)
      case UnreadableAt(i) => AllFine(luck, gets + 2 * i) && FirstIllegible(publications, taken, i)
  }

  /** The interactions a replay made. */
  function ReplayMade(stop: Stop, taken: nat, gets: nat): nat {
    match stop
    case Complete => gets + 2 * taken
    case FailedAt(n) => n + 1
    case UnreadableAt(i) => gets + 2 * i
  }

  /** How many messages a replay published. */
  function SentWhen(stop: Stop, luck: nat -> Luck, gets: nat, taken: nat): nat {
    match stop
    case Complete => taken
    case FailedAt(n) =>
      if n < gets then 0
      else (n - gets) / 2 + if (n - gets) % 2 == 1 then 1 else Extra(luck, n)
    case UnreadableAt(i) => i
  }

  /** How many messages a replay removed. */
  function GoneWhen(stop: Stop, luck: nat -> Luck, gets: nat, taken: nat): nat {
    match stop
    case Complete => taken
    case FailedAt(n) =>
      if n < gets then 0
      else (n - gets) / 2 + if (n - gets) % 2 == 1 then Extra(luck, n) else 0
    case UnreadableAt(i) => i
  }

  /** How a drop ended, which asks and removes in turns; seen messages were taken and the first gone ones removed. */
  predicate DropStop(stop: Stop, luck: nat -> Luck, seen: nat, gone: nat, count: int) {
    match stop
    case Complete => gone == seen && AllFine(luck, gone + Gets(gone, count))
    case FailedAt(n) =>
      && FirstFailure(luck, n) && n / 2 < count
      && (if n % 2 == 0 then gone == n / 2 && gone <= seen <= gone + Extra(luck, n)
          else seen == n / 2 + 1 && gone == n / 2 + Extra(luck, n))
    case UnreadableAt(_) => false
  }

  /** The interactions a drop made. */
  function DropMade(stop: Stop, gone: nat, count: int): nat {
    match stop
    case FailedAt(n) => n + 1
    case _ => gone + Gets(gone, count)
  }

  /** How a list ended: it reads each message as it takes it, and gives them all back one by one. */
  predicate ListStop(stop: Stop, luck: nat -> Luck, publications: seq<Publication>,
                     taken: seq<nat>, gets: nat, limit: int)
  {
    match stop
    case Complete =>
      TakeStop(Complete, true, luck, publications, taken, gets, limit) && AllFine(luck, gets + |taken|)
    case FailedAt(n) =>
      if n < gets then TakeStop(stop, true, luck, publications, taken, gets, limit)
      else
        && TakeStop(Complete, true, luck, publications, taken, gets, limit)
        && n < gets + |taken| && FirstFailure(luck, n)
    case UnreadableAt(_) => TakeStop(stop, true, luck, publications, taken, gets, limit)
  }

  /** The interactions a list made. */
  function ListMade(stop: Stop, taken: nat, gets: nat): nat {
    match stop
    case Complete => gets + taken
    case FailedAt(n) => n + 1
    case UnreadableAt(_) => gets
  }

  // ---------------------------------------------------------------------------------------------
  // Taken before the first publication
  // ---------------------------------------------------------------------------------------------

  predicate OwnPublication(a: Action, s: Service, ch: Channel) {
    && a.Publish? && a.publication.origin.Replay?
    && a.publication.origin.service == s && a.publication.origin.channel == ch
  }

  /** None of the messages was published by this very call. */
  ghost predicate NotOwn(publications: seq<Publication>, s: Service, ch: Channel, taken: seq<nat>) {
    forall c | c in taken :: c < |publications| && !OwnPublication(Publish(publications[c]), s, ch)
  }

  /** In the trace after its first from steps, all queries by ch come before all its publications. */
  ghost predicate TakesFirst(trace: seq<Action>, from: nat, s: Service, ch: Channel) {
    exists n :: CutAt(trace, from, s, ch, n)
  }

  /** Before its n-th step there is no publication by ch, and from then on no query. */
  ghost predicate CutAt(trace: seq<Action>, from: nat, s: Service, ch: Channel, n: nat) {
    && from <= n <= |trace|
    && (forall i | from <= i < n :: !OwnPublication(trace[i], s, ch))
    && (forall i | n <= i < |trace| :: trace[i] != At(s, Get(ch)))
  }

  lemma {:induction false} NothingOwn(publications: seq<Publication>, s: Service, ch: Channel)
    requires Republished(publications, s, ch) == []
    ensures forall i | 0 <= i < |publications| :: !OwnPublication(Publish(publications[i]), s, ch)
  {
    if |publications| > 0 {
      NothingOwn(publications[..|publications| - 1], s, ch);
    }
  }

  lemma NotOwnLater(publications: seq<Publication>, more: seq<Publication>, s: Service, ch: Channel, taken: seq<nat>)
    requires NotOwn(publications, s, ch, taken) && publications <= more
    ensures NotOwn(more, s, ch, taken)
  {
  }

  /** While a call only asks, it publishes nothing. */
  lemma {:induction false} QueriesPublishNothing(call: Call, own: seq<Option<Action>>)
    requires forall k: nat :: AllForeign(call.others(k), call.channel)
    requires forall k | 0 <= k < |own| && own[k].Some? :: own[k].value == At(call.service, Get(call.channel))
    ensures var all := Woven(call, own);
            call.base <= all &&
            forall i | |call.base| <= i < |all| :: !OwnPublication(all[i], call.service, call.channel)
  {
    if |own| > 0 {
      var n := |own| - 1;
      QueriesPublishNothing(call, own[..n]);
      assert AllForeign(call.others(n), call.channel);
    }
  }

  /** After its last query a call asks no more. */
  lemma {:induction false} NoQueryAfter(call: Call, own: seq<Option<Action>>, n: nat)
    requires n <= |own| && forall k: nat :: AllForeign(call.others(k), call.channel)
    requires forall k | n <= k < |own| && own[k].Some? :: own[k].value != At(call.service, Get(call.channel))
    ensures var all, early := Woven(call, own), Woven(call, own[..n]);
            early <= all && forall i | |early| <= i < |all| :: all[i] != At(call.service, Get(call.channel))
    decreases |own|
  {
    if n == |own| {
      assert own[..n] == own;
    } else {
      var last := |own| - 1;
      assert own[..last][..n] == own[..n];
      NoQueryAfter(call, own[..last], n);
      assert AllForeign(call.others(last), call.channel);
    }
  }

  /** A replay takes its messages before it publishes the first. */
  lemma ReplayTakesFirst(call: Call, own: seq<Option<Action>>, gets: nat, taken: seq<nat>)
    requires Queries(call, own, gets, taken) && ReplayRounds(call, own, gets, taken)
    requires forall k: nat :: AllForeign(call.others(k), call.channel)
    ensures TakesFirst(Woven(call, own) + [Close(call.channel)], |call.base|, call.service, call.channel)
  {
    hide AllForeign, Woven, Oldest, Before;
    var early, trace := Woven(call, own[..gets]), Woven(call, own) + [Close(call.channel)];
    forall k | 0 <= k < gets && own[k].Some? ensures own[k].value == At(call.service, Get(call.channel)) {
      assert Query(call, own, k, MessageAt(taken, k));
    }
    QueriesPublishNothing(call, own[..gets]);
    forall k | gets <= k < |own| && own[k].Some? ensures own[k].value != At(call.service, Get(call.channel)) {
      assert ReplayRound(call, own, gets, taken, k);
    }
    NoQueryAfter(call, own, gets);
    assert CutAt(trace, |call.base|, call.service, call.channel, |early|);
  }

  // ---------------------------------------------------------------------------------------------
  // Removed only after its publication
  // ---------------------------------------------------------------------------------------------

  ghost predicate PublishedIn(trace: seq<Action>, s: Service, ch: Channel, c: nat) {
    exists i | 0 <= i < |trace| :: trace[i].Publish? && trace[i].publication.origin == Replay(s, c, ch)
  }

  /** Every removal of a replayed message by ch comes after its publication by ch. */
  ghost predicate Ordered(trace: seq<Action>, s: Service, ch: Channel) {
    forall i, c: nat | 0 <= i < |trace| && trace[i] == At(s, Ack(ch, c, Replayed)) :: PublishedIn(trace[..i], s, ch, c)
  }

  lemma OrderedOneMore(trace: seq<Action>, a: Action, s: Service, ch: Channel)
    requires Ordered(trace, s, ch)
    requires forall c: nat | a == At(s, Ack(ch, c, Replayed)) :: PublishedIn(trace, s, ch, c)
    ensures Ordered(trace + [a], s, ch)
  {
    hide PublishedIn;
    var longer := trace + [a];
    forall i, c: nat | 0 <= i < |longer| && longer[i] == At(s, Ack(ch, c, Replayed))
      ensures PublishedIn(longer[..i], s, ch, c)
    {
      assert longer[..i] == trace[..i];
    }
  }

  lemma {:induction false} OrderedForeign(trace: seq<Action>, run: seq<Action>, s: Service, ch: Channel)
    requires Ordered(trace, s, ch) && AllForeign(run, ch)
    ensures Ordered(trace + run, s, ch)
  {
    hide Ordered;
    if |run| == 0 {
      assert trace + run == trace;
    } else {
      OrderedForeign(trace, run[..|run| - 1], s, ch);
      assert trace + run == trace + run[..|run| - 1] + [run[|run| - 1]];
      OrderedOneMore(trace + run[..|run| - 1], run[|run| - 1], s, ch);
    }
  }

  lemma PublishedLater(trace: seq<Action>, longer: seq<Action>, s: Service, ch: Channel, c: nat)
    requires PublishedIn(trace, s, ch, c) && trace <= longer
    ensures PublishedIn(longer, s, ch, c)
  {
    var i :| 0 <= i < |trace| && trace[i].Publish? && trace[i].publication.origin == Replay(s, c, ch);
    assert longer[i] == trace[i];
  }

  /** A call that took the oldest waiting copies: as many as asked for, or all that waited at first. */
  ghost predicate TookOldest(before: seq<Entry>, tail: seq<Entry>, count: int, taken: seq<nat>, complete: bool) {
    && (forall e | e in tail :: e.holder.None?)
    && taken <= Waiting(before + tail)
    && (complete ==> |taken| == count || (count <= 0 && taken == []) || Waiting(before) <= taken)
  }

  /** The messages are the bodies of the taken copies. */
  ghost predicate BodiesOf(publications: seq<Publication>, taken: seq<nat>, messages: seq<Value>) {
    && |messages| == |taken|
    && forall i | 0 <= i < |taken| ::
      taken[i] < |publications| && Some(Dumps(messages[i])) == publications[taken[i]].body
  }

  /** The channel was just opened: nothing is held on it or was replayed through it. */
  ghost predicate NewChannel(f: Fleet, ch: Channel) {
    && (forall s | s in f.pairs :: HoldsExactly(f.pairs[s].failed, ch, {}))
    && forall i | 0 <= i < |f.publications| ::
      f.publications[i].origin.Replay? ==> f.publications[i].origin.channel != ch
  }

  lemma {:induction false} NothingRepublished(publications: seq<Publication>, s: Service, ch: Channel)
    requires forall i | 0 <= i < |publications| ::
               publications[i].origin.Replay? ==> publications[i].origin.channel != ch
    ensures Republished(publications, s, ch) == []
  {
    if |publications| > 0 {
      NothingRepublished(publications[..|publications| - 1], s, ch);
    }
  }

  lemma BeginCall(f: Fleet, s: Service, ch: Channel, reason: Reason)
    requires Inv(f) && s in f.pairs && NewChannel(f, ch)
    ensures Calling(f, s, ch, reason, [], [], [])
    ensures Viewing(f, s, ch, f.pairs[s].failed, [], [])
  {
    hide Inv, View, Based;
    NothingRepublished(f.publications, s, ch);
    NothingViewed(f, s, ch);
  }

  lemma NothingViewed(f: Fleet, s: Service, ch: Channel)
    requires Inv(f) && s in f.pairs && HoldsExactly(f.pairs[s].failed, ch, {})
    ensures Viewing(f, s, ch, f.pairs[s].failed, [], [])
  {
    hide Inv;
    var base := f.pairs[s].failed;
    StartViewing(base, ch);
    forall c: nat ensures Copies(base)[c] <= 1 {
      InPlaceOnce(f, s, c);
    }
    forall e | e in base ensures e.holder != Some(ch) {
      assert e == Entry(e.copy, e.holder);
    }
  }

  /** The state of a call; working says that no other admin call takes part. */
  ghost predicate InCall(f: Fleet, s: Service, ch: Channel, reason: Reason, working: bool,
                         before: seq<Entry>, tail: seq<Entry>, gone: seq<nat>, held: seq<nat>, sent: seq<nat>)
  {
    && Calling(f, s, ch, reason, gone, held, sent)
    && (forall e | e in tail :: e.holder.None?)
    && (working ==> Viewing(f, s, ch, before + tail, gone, held))
  }

  class RegistryCore {
    var fleet: Fleet
    ghost var trace: seq<Action>
    ghost const start: Fleet

    /** The state was reached by the steps of the trace. */
    ghost predicate Valid()
      reads this
    {
      Inv(start) && fleet == Exec(start, trace)
    }

    constructor (f: Fleet)
      requires Inv(f)
      ensures Valid() && fleet == start == f && trace == []
    {
      fleet, start, trace := f, f, [];
    }

    /** One interaction of this call with the broker. */
    method Do(a: Action)
      requires Valid()
      modifies this
      ensures Valid() && fleet == Apply(old(fleet), a) && trace == old(trace) + [a]
      ensures old(fleet).publications <= fleet.publications
    {
      ApplyKeeps(fleet, a);
      fleet := Apply(fleet, a);
      trace := trace + [a];
    }

    /** The steps of other parties, one after the other. */
    method Perform(run: seq<Action>)
      requires Valid()
      modifies this
      ensures Valid() && fleet == Exec(old(fleet), run) && trace == old(trace) + run
      ensures old(fleet).publications <= fleet.publications
    {
      ExecConcat(start, trace, run);
      ExecKeeps(fleet, run);
      for i := 0 to |run|
        invariant fleet == Exec(old(fleet), run[..i]) && trace == old(trace)
      {
        assert run[..i + 1][..i] == run[..i];
        fleet := Apply(fleet, run[i]);
      }
      assert run[..|run|] == run;
      trace := trace + run;
    }

    /** An await: the others run, and the call finds its own messages and the queue as it left them. */
    method Await(run: seq<Action>, ghost s: Service, ghost ch: Channel, ghost reason: Reason, ghost working: bool,
                 ghost before: seq<Entry>, ghost tail: seq<Entry>,
                 ghost gone: seq<nat>, ghost held: seq<nat>, ghost sent: seq<nat>)
      returns (ghost longer: seq<Entry>)
      requires Valid() && InCall(fleet, s, ch, reason, working, before, tail, gone, held, sent)
      requires AllForeign(run, ch) && (working ==> AllWorking(run))
      modifies this
      ensures Valid() && old(trace) <= trace && old(fleet).publications <= fleet.publications
      ensures InCall(fleet, s, ch, reason, working, before, longer, gone, held, sent)
      ensures tail <= longer && trace == old(trace) + run && (Ordered(old(trace), s, ch) ==> Ordered(trace, s, ch))
    {
      hide Exec, Calling, Viewing, AllForeign, AllWorking, Ordered;
      if Ordered(trace, s, ch) {
        OrderedForeign(trace, run, s, ch);
      }
      ForeignRun(fleet, run, s, ch, reason, gone, held, sent);
      longer := tail;
      if working {
        var more := WorkingRun(fleet, run, s, ch, before + tail, gone, held);
        longer := tail + more;
        assert before + longer == before + tail + more;
      }
      Perform(run);
    }

    /** queue.get(fail=False): the oldest waiting copy, if there is one. */
    method GetNext(s: Service, ch: Channel, ghost reason: Reason, ghost working: bool,
                   ghost before: seq<Entry>, ghost tail: seq<Entry>,
                   ghost gone: seq<nat>, ghost held: seq<nat>, ghost sent: seq<nat>)
      returns (message: Option<nat>)
      requires Valid() && InCall(fleet, s, ch, reason, working, before, tail, gone, held, sent)
      requires working ==> TakenInOrder(before + tail, gone + held)
      modifies this
      ensures Valid() && (Ordered(old(trace), s, ch) ==> Ordered(trace, s, ch))
      ensures message == OldestOf(old(fleet), s) && old(fleet).publications <= fleet.publications
      ensures trace == old(trace) + Effect(if message.Some? then Some(At(s, Get(ch))) else None)
      ensures message.None? ==> fleet == old(fleet) && (working ==> Waiting(before + tail) == gone + held)
      ensures message.Some? ==>
                && InCall(fleet, s, ch, reason, working, before, tail, gone, held + [message.value], sent)
                && (working ==> TakenInOrder(before + tail, gone + (held + [message.value])))
    {
      hide Exec, Inv, Viewing, HoldsExactly, BodiesKept, Ordered, PublishedIn;
      if Ordered(trace, s, ch) {
        OrderedOneMore(trace, At(s, Get(ch)), s, ch);
      }
      if working {
        GetViewing(fleet, s, ch, before + tail, gone, held);
      }
      var waiting := Waiting(fleet.pairs[s].failed);
      if waiting == [] {
        message := None;
        assert working ==> Waiting(before + tail)[..|gone + held|] == Waiting(before + tail);
      } else {
        GetCalling(fleet, s, ch, reason, gone, held, sent);
        message := Some(waiting[0]);
        Do(At(s, Get(ch)));
      }
    }

    /** message.ack on the first held message. */
    method AckFirst(s: Service, ch: Channel, reason: Reason, message: nat, ghost working: bool,
                    ghost before: seq<Entry>, ghost tail: seq<Entry>,
                    ghost gone: seq<nat>, ghost held: seq<nat>, ghost sent: seq<nat>)
      requires Valid() && InCall(fleet, s, ch, reason, working, before, tail, gone, held, sent)
      requires held != [] && message == held[0]
      requires reason.Replayed? ==> PublishedIn(trace, s, ch, message)
      modifies this
      ensures Valid() && (Ordered(old(trace), s, ch) ==> Ordered(trace, s, ch))
      ensures trace == old(trace) + [At(s, Ack(ch, message, reason))]
      ensures old(fleet).publications <= fleet.publications
      ensures InCall(fleet, s, ch, reason, working, before, tail, gone + [message], held[1..], sent)
    {
      hide Exec, Inv, Viewing, HoldsExactly, BodiesKept, Ordered, PublishedIn;
      if Ordered(trace, s, ch) {
        OrderedOneMore(trace, At(s, Ack(ch, message, reason)), s, ch);
      }
      AckCalling(fleet, s, ch, reason, gone, held, sent);
      if working {
        AckViewing(fleet, s, ch, reason, before + tail, gone, held, sent);
      }
      Do(At(s, Ack(ch, message, reason)));
    }

    /** message.nack(requeue=True) on the first held message. */
    method NackFirst(s: Service, ch: Channel, message: nat, ghost reason: Reason, ghost working: bool,
                     ghost before: seq<Entry>, ghost tail: seq<Entry>,
                     ghost gone: seq<nat>, ghost held: seq<nat>, ghost sent: seq<nat>)
      requires Valid() && InCall(fleet, s, ch, reason, working, before, tail, gone, held, sent)
      requires held != [] && message == held[0]
      modifies this
      ensures Valid() && trace == old(trace) + [At(s, Nack(ch, message))]
      ensures old(fleet).publications <= fleet.publications
      ensures InCall(fleet, s, ch, reason, working, before, tail, gone, held[1..], sent)
    {
      hide Exec, Inv, Viewing, HoldsExactly, BodiesKept;
      NackCalling(fleet, s, ch, reason, gone, held, sent);
      if working {
        NackViewing(fleet, s, ch, reason, before + tail, gone, held, sent);
      }
      Do(At(s, Nack(ch, message)));
    }

    /** messenger.publish of the decoded body of a held message. */
    method Republish(s: Service, ch: Channel, message: nat, ghost working: bool,
                     ghost before: seq<Entry>, ghost tail: seq<Entry>,
                     ghost gone: seq<nat>, ghost held: seq<nat>, ghost sent: seq<nat>)
      requires Valid() && InCall(fleet, s, ch, Replayed, working, before, tail, gone, held, sent)
      requires message in held && Legible(fleet.publications, message)
      modifies this
      ensures Valid() && (Ordered(old(trace), s, ch) ==> Ordered(trace, s, ch))
      ensures |trace| == |old(trace)| + 1 && old(trace) <= trace && trace[|old(trace)|].Publish?
      ensures trace[|old(trace)|].publication.origin == Replay(s, message, ch)
      ensures old(fleet).publications <= fleet.publications
      ensures InCall(fleet, s, ch, Replayed, working, before, tail, gone, held, sent + [message])
      ensures PublishedIn(trace, s, ch, message)
    {
      hide Exec, Inv, Viewing, HoldsExactly, BodiesKept, Ordered;
      HeldPublished(fleet, s, ch, Replayed, gone, held, sent, message);
      var body := PlainLoads(fleet.publications[message].body.value);
      ReplayedBodySame(fleet.publications[message].body.value);
      PublishCalling(fleet, s, ch, Replayed, gone, held, sent, message);
      PublishViewing(fleet, s, ch, working, before + tail, gone, held, message);
      var a := Publish(Publication(Some(Dumps(body)), Replay(s, message, ch)));
      if Ordered(trace, s, ch) {
        OrderedOneMore(trace, a, s, ch);
      }
      Do(a);
      assert trace[|trace| - 1] == a;
    }

    /** channel.close: whatever is still held goes back to its place. */
    method CloseChannel(s: Service, ch: Channel, ghost reason: Reason, ghost working: bool,
                        ghost before: seq<Entry>, ghost tail: seq<Entry>,
                        ghost gone: seq<nat>, ghost held: seq<nat>, ghost sent: seq<nat>)
      requires Valid() && InCall(fleet, s, ch, reason, working, before, tail, gone, held, sent)
      modifies this
      ensures Valid() && trace == old(trace) + [Close(ch)] && old(fleet).publications <= fleet.publications
      ensures Ordered(old(trace), s, ch) ==> Ordered(trace, s, ch)
      ensures Calling(fleet, s, ch, reason, gone, [], sent)
      ensures forall c | c in held :: Entry(c, None) in fleet.pairs[s].failed
      ensures working ==> fleet.pairs[s].failed == Without(before + tail, gone)
    {
      hide Exec, Inv, Viewing, HoldsExactly, BodiesKept, Ordered, PublishedIn;
      if Ordered(trace, s, ch) {
        OrderedOneMore(trace, Close(ch), s, ch);
      }
      CloseCalling(fleet, s, ch, reason, gone, held, sent);
      if working {
        CloseViewing(fleet, s, ch, before + tail, gone, held);
      }
      Do(Close(ch));
    }

    /** One round of taking: what others do, then the query, which may be refused. */
    method TakeOne(s: Service, ch: Channel, getting: seq<Action>, luck: Luck,
                   ghost call: Call, ghost own: seq<Option<Action>>,
                   ghost reason: Reason, ghost working: bool,
                   ghost before: seq<Entry>, ghost tail: seq<Entry>, ghost waiting: seq<nat>)
      returns (message: Option<nat>, ghost longer: seq<Entry>, ghost step: Option<Action>)
      requires Valid() && InCall(fleet, s, ch, reason, working, before, tail, [], waiting, [])
      requires AllForeign(getting, ch) && (working ==> AllWorking(getting) && TakenInOrder(before + tail, waiting))
      requires call.start == start && call.service == s && call.channel == ch && trace == Woven(call, own)
      requires getting == call.others(|own|) && luck == call.luck(|own|)
      requires Queries(call, own, |own|, waiting) && |waiting| == |own|
      modifies this
      ensures Valid() && old(fleet).publications <= fleet.publications && tail <= longer
      ensures Ordered(old(trace), s, ch) ==> Ordered(trace, s, ch)
      ensures luck == Refused ==> message.None?
      ensures luck != Refused && message.None? && working ==> Waiting(before + longer) == waiting
      ensures message.Some? ==> message.value < |fleet.publications|
      ensures var more := if message.Some? then waiting + [message.value] else waiting;
              && InCall(fleet, s, ch, reason, working, before, longer, [], more, [])
              && (working ==> TakenInOrder(before + longer, more))
              && Queries(call, own + [step], |own| + 1, more)
      ensures trace == Woven(call, own + [step])
    {
      hide Exec, Inv, Calling, Viewing, Ordered, Queries, Query, Woven, Before;
      longer := Await(getting, s, ch, reason, working, before, tail, [], waiting, []);
      LongerOrder(before, tail, longer, waiting);
      assert [] + waiting == waiting;
      message := None;
      ghost var awaited := trace;
      if luck != Refused {
        message := GetNext(s, ch, reason, working, before, longer, [], waiting, []);
      }
      step := if message.Some? then Some(At(s, Get(ch))) else None;
      assert trace == awaited + Effect(step);
      Asked(call, own, step, waiting, message);
      if message.Some? {
        assert [] + (waiting + [message.value]) == waiting + [message.value];
        HeldPublished(fleet, s, ch, reason, [], waiting + [message.value], [], message.value);
      }
    }

    /**
      The loop that takes up to count messages before anything else happens to them; list also reads
      each body as it takes it.
     */
    method TakeWaiting(s: Service, count: int, ch: Channel, others: nat -> seq<Action>, luck: nat -> Luck,
                       reading: bool, ghost reason: Reason, ghost working: bool, ghost before: seq<Entry>)
      returns (waiting: seq<nat>, stop: Stop, gets: nat, ghost tail: seq<Entry>, ghost own: seq<Option<Action>>)
      requires Valid() && InCall(fleet, s, ch, reason, working, before, [], [], [], [])
      requires forall k :: AllForeign(others(k), ch) && (working ==> AllWorking(others(k)))
      modifies this
      ensures Valid() && old(fleet).publications <= fleet.publications
      ensures Ordered(old(trace), s, ch) ==> Ordered(trace, s, ch)
      ensures InCall(fleet, s, ch, reason, working, before, tail, [], waiting, [])
      ensures |waiting| <= if count < 0 then 0 else count
      ensures TakeStop(stop, reading, luck, fleet.publications, waiting, gets, count)
      ensures var call := Call(start, old(trace), s, ch, others, luck);
              |own| == gets && trace == Woven(call, own) && Queries(call, own, gets, waiting)
      ensures working ==> TookOldest(before, tail, count, waiting, stop.Complete?)
    {
      hide Exec, Inv, Calling, Viewing, Ordered, Queries, Query, Woven, Taking, TakeStop;
      ghost var call := Call(start, trace, s, ch, others, luck);
      waiting, stop, gets, tail, own := [], Complete, 0, [], [];
      assert before + tail == before;
      NothingAsked(call);
      NoneTaken(reading, luck, fleet.publications);
      while stop.Complete? && |waiting| < count
        invariant Valid() && old(fleet).publications <= fleet.publications
        invariant Ordered(old(trace), s, ch) ==> Ordered(trace, s, ch)
        invariant InCall(fleet, s, ch, reason, working, before, tail, [], waiting, [])
        invariant working ==> TakenInOrder(before + tail, waiting)
        invariant |waiting| <= if count < 0 then 0 else count
        invariant |own| == gets && trace == Woven(call, own) && Queries(call, own, gets, waiting)
        invariant if stop.Complete?
                  then gets == |waiting| && Taking(reading, luck, fleet.publications, waiting)
                  else TakeStop(stop, reading, luck, fleet.publications, waiting, gets, count)
        decreases stop.Complete?, count - |waiting|
      {
        ghost var publications := fleet.publications;
        var message := None;
        ghost var step;
        message, tail, step :=
          TakeOne(s, ch, others(gets), luck(gets), call, own, reason, working, before, tail, waiting);
        TakingLater(reading, luck, publications, fleet.publications, waiting);
        TakenOneMore(reading, luck, fleet.publications, waiting, message, count);
        own := own + [step];
        if message.Some? {
          waiting := waiting + [message.value];
        }
        gets := gets + 1;
        if luck(gets - 1) != Fine {
          stop := FailedAt(gets - 1);
        } else if message.None? {
          WaitingConcat(before, tail);
          return;
        } else if reading && fleet.publications[message.value].body.None? {
          stop := UnreadableAt(gets - 1);
        }
      }
      if stop.Complete? {
        TakenEnough(reading, luck, fleet.publications, waiting, count);
      }
    }

    /** One round of the replay loop: publish the first held message, then remove it. */
    method ReplayOne(s: Service, ch: Channel, message: nat, publishing: seq<Action>, acking: seq<Action>,
                     publishLuck: Luck, ackLuck: Luck, ghost call: Call, ghost own: seq<Option<Action>>,
                     ghost working: bool, ghost before: seq<Entry>,
                     ghost tail: seq<Entry>, ghost gone: seq<nat>, ghost held: seq<nat>, ghost sent: seq<nat>)
      returns (published: bool, removed: bool, ok: bool, ghost longer: seq<Entry>, ghost step: Option<Action>)
      requires Valid() && InCall(fleet, s, ch, Replayed, working, before, tail, gone, held, sent)
      requires held != [] && message == held[0] && Legible(fleet.publications, message)
      requires AllForeign(publishing, ch) && AllForeign(acking, ch)
      requires working ==> AllWorking(publishing) && AllWorking(acking)
      requires call.service == s && call.channel == ch && trace == Woven(call, own)
      requires publishing == call.others(|own|) && acking == call.others(|own| + 1)
      requires publishLuck == call.luck(|own|) && ackLuck == call.luck(|own| + 1)
      modifies this
      ensures Valid() && old(fleet).publications <= fleet.publications && tail <= longer
      ensures Ordered(old(trace), s, ch) ==> Ordered(trace, s, ch)
      ensures ok <==> publishLuck == ackLuck == Fine
      ensures published <==> publishLuck != Refused
      ensures removed <==> publishLuck == Fine && ackLuck != Refused
      ensures InCall(fleet, s, ch, Replayed, working, before, longer,
                     if removed then gone + [message] else gone, if removed then held[1..] else held,
                     if published then sent + [message] else sent)
      ensures Publishes(call, own + [step], |own|, message)
      ensures var removal := if removed then Some(At(s, Ack(ch, message, Replayed))) else None;
              trace == Woven(call, if publishLuck == Fine then own + [step] + [removal] else own + [step])
    {
      hide Exec, Inv, Calling, Viewing, Ordered, PublishedIn, Woven;
      published, removed, ok, step := false, false, false, None;
      longer := Await(publishing, s, ch, Replayed, working, before, tail, gone, held, sent);
      ghost var awaited := trace;
      if publishLuck == Refused {
        WovenStep(call, own, step);
        assert trace == awaited + Effect(step);
        return;
      }
      Republish(s, ch, message, working, before, longer, gone, held, sent);
      published, step := true, Some(trace[|awaited|]);
      WovenStep(call, own, step);
      assert trace == awaited + Effect(step);
      if publishLuck == Unconfirmed {
        return;
      }
      ghost var announced := trace;
      longer := Await(acking, s, ch, Replayed, working, before, longer, gone, held, sent + [message]);
      PublishedLater(announced, trace, s, ch, message);
      ghost var removal := if ackLuck == Refused then None else Some(At(s, Ack(ch, message, Replayed)));
      WovenStep(call, own + [step], removal);
      awaited := trace;
      if ackLuck == Refused {
        assert trace == awaited + Effect(removal);
        return;
      }
      AckFirst(s, ch, Replayed, message, working, before, longer, gone, held, sent + [message]);
      assert trace == awaited + Effect(removal);
      removed, ok := true, ackLuck == Fine;
    }

    /** The loop that publishes each taken message and then removes it. */
    method RepublishAll(s: Service, ch: Channel, waiting: seq<nat>, others: nat -> seq<Action>, luck: nat -> Luck,
                        gets: nat, ghost call: Call, ghost queries: seq<Option<Action>>,
                        ghost working: bool, ghost before: seq<Entry>, ghost tail: seq<Entry>)
      returns (replayed: nat, stop: Stop, ghost longer: seq<Entry>, ghost own: seq<Option<Action>>)
      requires Valid() && InCall(fleet, s, ch, Replayed, working, before, tail, [], waiting, [])
      requires forall k :: AllForeign(others(k), ch) && (working ==> AllWorking(others(k)))
      requires AllFine(luck, gets) && |queries| == gets && Queries(call, queries, gets, waiting)
      requires call.service == s && call.channel == ch && call.others == others && call.luck == luck
      requires trace == Woven(call, queries)
      modifies this
      ensures Valid() && old(fleet).publications <= fleet.publications && tail <= longer
      ensures Ordered(old(trace), s, ch) ==> Ordered(trace, s, ch)
      ensures Went(stop, gets) && (stop.Complete? ==> replayed == |waiting|)
      ensures match stop
              case Complete =>
                AllFine(luck, gets + 2 * |waiting|) && LegibleUpTo(fleet.publications, waiting, |waiting|)
              case FailedAt(n) =>
                && n < gets + 2 * |waiting| && FirstFailure(luck, n)
                && LegibleUpTo(fleet.publications, waiting, (n - gets) / 2 + 1)
              case UnreadableAt(i) => AllFine(luck, gets + 2 * i) && FirstIllegible(fleet.publications, waiting, i)
      ensures var gone, sent := GoneWhen(stop, luck, gets, |waiting|), SentWhen(stop, luck, gets, |waiting|);
              && gone <= sent <= |waiting|
              && InCall(fleet, s, ch, Replayed, working, before, longer,
                        waiting[..gone], waiting[gone..], waiting[..sent])
      ensures |own| == ReplayMade(stop, |waiting|, gets) && trace == Woven(call, own)
      ensures Queries(call, own, gets, waiting) && ReplayRounds(call, own, gets, waiting)
    {
      hide Exec, Inv, Calling, Viewing, Ordered, Queries, ReplayRounds, Publishes, Woven, LegibleUpTo, FirstIllegible;
      replayed, stop, longer, own := 0, Complete, tail, queries;
      assert waiting[..0] == [] && waiting[0..] == waiting;
      NoRounds(call, own, gets, waiting);
      NoneRead(fleet.publications, waiting);
      while replayed < |waiting|
        invariant replayed <= |waiting| && stop.Complete? && Valid() && tail <= longer
        invariant old(fleet).publications <= fleet.publications
        invariant Ordered(old(trace), s, ch) ==> Ordered(trace, s, ch)
        invariant AllFine(luck, gets + 2 * replayed) && LegibleUpTo(fleet.publications, waiting, replayed)
        invariant |own| == gets + 2 * replayed && trace == Woven(call, own)
        invariant Queries(call, own, gets, waiting) && ReplayRounds(call, own, gets, waiting)
        invariant InCall(fleet, s, ch, Replayed, working, before, longer,
                         waiting[..replayed], waiting[replayed..], waiting[..replayed])
      {
        var t, message := gets + 2 * replayed, waiting[replayed];
        HeldPublished(fleet, s, ch, Replayed, waiting[..replayed], waiting[replayed..], waiting[..replayed], message);
        if fleet.publications[message].body.None? {
          stop := UnreadableAt(replayed);
          FoundIllegible(fleet.publications, waiting, replayed);
          return;
        }
        ghost var publications := fleet.publications;
        ReadOneMore(publications, waiting, replayed);
        var published, removed, ok;
        ghost var step;
        published, removed, ok, longer, step :=
          ReplayOne(s, ch, message, others(t), others(t + 1), luck(t), luck(t + 1), call, own,
                    working, before, longer, waiting[..replayed], waiting[replayed..], waiting[..replayed]);
        LegibleStays(publications, fleet.publications, waiting);
        assert waiting[..replayed] + [message] == waiting[..replayed + 1];
        assert waiting[replayed..][1..] == waiting[replayed + 1..];
        QueriesKept(call, own, step, gets, waiting);
        OneMorePublication(call, own, step, gets, waiting, replayed);
        own := own + [step];
        if luck(t) != Fine {
          stop := FailedAt(t);
          return;
        }
        step := if removed then Some(At(s, Ack(ch, message, Replayed))) else None;
        QueriesKept(call, own, step, gets, waiting);
        OneMoreRemoval(call, own, step, gets, waiting, replayed);
        own := own + [step];
        if !ok {
          stop := FailedAt(t + 1);
          return;
        }
        replayed := replayed + 1;
      }
    }

    /** The two loops of replay. */
    method TakeAndRepublish(s: Service, count: int, ch: Channel, others: nat -> seq<Action>, luck: nat -> Luck,
                            ghost working: bool, ghost before: seq<Entry>)
      returns (replayed: nat, stop: Stop, ghost gets: nat, ghost taken: seq<nat>, ghost tail: seq<Entry>,
               ghost own: seq<Option<Action>>)
      requires Valid() && InCall(fleet, s, ch, Replayed, working, before, [], [], [], [])
      requires forall k :: AllForeign(others(k), ch) && (working ==> AllWorking(others(k)))
      modifies this
      ensures Valid() && (Ordered(old(trace), s, ch) ==> Ordered(trace, s, ch))
      ensures |taken| <= if count < 0 then 0 else count
      ensures stop.Complete? ==> replayed == |taken|
      ensures ReplayStop(stop, luck, fleet.publications, taken, gets, count)
      ensures var gone, sent := GoneWhen(stop, luck, gets, |taken|), SentWhen(stop, luck, gets, |taken|);
              && gone <= sent <= |taken|
              && InCall(fleet, s, ch, Replayed, working, before, tail, taken[..gone], taken[gone..], taken[..sent])
      ensures var call := Call(start, old(trace), s, ch, others, luck);
              && |own| == ReplayMade(stop, |taken|, gets) && trace == Woven(call, own)
              && Queries(call, own, gets, taken) && ReplayRounds(call, own, gets, taken)
      ensures NotOwn(fleet.publications, s, ch, taken)
      ensures working ==> TookOldest(before, tail, count, taken, Went(stop, gets))
    {
      hide Exec, Inv, Calling, Viewing, Ordered, Queries, ReplayRounds, Woven, NotOwn, LegibleUpTo, FirstIllegible;
      ghost var call := Call(start, trace, s, ch, others, luck);
      var waiting, queries;
      waiting, stop, queries, tail, own := TakeWaiting(s, count, ch, others, luck, false, Replayed, working, before);
      taken, gets, replayed := waiting, queries, 0;
      assert taken[..0] == [] && taken[0..] == taken;
      TakenNotOwn(fleet, s, ch, taken);
      if stop.Complete? {
        ghost var shorter, publications := tail, fleet.publications;
        replayed, stop, tail, own :=
          RepublishAll(s, ch, waiting, others, luck, queries, call, own, working, before, tail);
        TookLonger(before, shorter, tail, count, taken, true);
        NotOwnLater(publications, fleet.publications, s, ch, taken);
      } else {
        NoRounds(call, own, gets, taken);
      }
    }

    /**
      replay_failed_messages. All messages are taken before the first publish, oldest first, so that
      none of them was published by this very call; each one leaves the queue only after its
      publication, which carries the original body. The call returns how many it took unless an
      interaction fails or a body is no JSON, and the first of these decides which messages were
      published and removed: those of the complete rounds, the message of the failed round published
      when its removal failed, and what an unconfirmed interaction still did. The others wait in their
      place. own is what each interaction did, and the trace is exactly that and what others did.
     */
    method ReplayFailedMessages(s: Service, count: int, ch: Channel, others: nat -> seq<Action>, luck: nat -> Luck)
      returns (r: Result<nat, Failure>, ghost stop: Stop, ghost gets: nat,
               ghost taken: seq<nat>, ghost tail: seq<Entry>, ghost own: seq<Option<Action>>)
      requires Valid() && Inv(fleet) && NewChannel(fleet, ch)
      requires forall k :: AllForeign(others(k), ch)
      modifies this
      ensures Valid() && old(trace) <= trace && (Ordered(old(trace), s, ch) ==> Ordered(trace, s, ch))
      ensures r == Err(NoQueue) <==> s !in old(fleet).pairs
      ensures s in old(fleet).pairs ==>
                && r == ResultOf(stop, |taken|)
                && ReplayStop(stop, luck, fleet.publications, taken, gets, count)
                && ((forall k :: luck(k) == Fine) ==> (r.Ok? <==> LegibleUpTo(fleet.publications, taken, |taken|)))
      ensures s in old(fleet).pairs ==>
                var call := Call(start, old(trace), s, ch, others, luck);
                && |own| == ReplayMade(stop, |taken|, gets) && trace == Woven(call, own) + [Close(ch)]
                && Queries(call, own, gets, taken) && ReplayRounds(call, own, gets, taken)
      ensures s in old(fleet).pairs ==>
                TakesFirst(trace, |old(trace)|, s, ch) && NotOwn(fleet.publications, s, ch, taken)
      ensures s in old(fleet).pairs ==>
                var gone, sent := GoneWhen(stop, luck, gets, |taken|), SentWhen(stop, luck, gets, |taken|);
                && gone <= sent <= |taken| <= (if count < 0 then 0 else count)
                && Calling(fleet, s, ch, Replayed, taken[..gone], [], taken[..sent])
                && forall c | c in taken[gone..] :: Entry(c, None) in fleet.pairs[s].failed
      ensures s in old(fleet).pairs && (forall k :: AllWorking(others(k))) ==>
                && TookOldest(old(fleet).pairs[s].failed, tail, count, taken, Went(stop, gets))
                && fleet.pairs[s].failed ==
                   Without(old(fleet).pairs[s].failed + tail, taken[..GoneWhen(stop, luck, gets, |taken|)])
    {
      hide Exec, Inv, Calling, Viewing, Ordered, TookOldest, BodiesOf, NewChannel, AllForeign, AllWorking;
      hide Queries, ReplayRounds, Woven, TakesFirst, NotOwn, ReplayStop, LegibleUpTo, FirstIllegible;
      stop, gets, taken, tail, own := Complete, 0, [], [], [];
      if s !in fleet.pairs {
        r := Err(NoQueue);
        return;
      }
      ghost var before, working := fleet.pairs[s].failed, forall k :: AllWorking(others(k));
      BeginCall(fleet, s, ch, Replayed);
      assert before + [] == before;
      var replayed, ended;
      replayed, ended, gets, taken, tail, own := TakeAndRepublish(s, count, ch, others, luck, working, before);
      stop := ended;
      ghost var gone, sent := GoneWhen(stop, luck, gets, |taken|), SentWhen(stop, luck, gets, |taken|);
      ghost var publications, call := fleet.publications, Call(start, old(trace), s, ch, others, luck);
      CloseChannel(s, ch, Replayed, working, before, tail, taken[..gone], taken[gone..], taken[..sent]);
      ReplayStopLater(stop, luck, publications, fleet.publications, taken, gets, count);
      FineReplay(stop, luck, fleet.publications, taken, gets, count);
      NotOwnLater(publications, fleet.publications, s, ch, taken);
      ReplayTakesFirst(call, own, gets, taken);
      WovenGrows(call, own);
      r := ResultOf(ended, replayed);
    }

    /** One round of the drop loop; held is what the round left unsettled. */
    method DropOne(s: Service, ch: Channel, getting: seq<Action>, acking: seq<Action>, getLuck: Luck, ackLuck: Luck,
                   ghost call: Call, ghost own: seq<Option<Action>>,
                   ghost working: bool, ghost before: seq<Entry>, ghost tail: seq<Entry>, ghost taken: seq<nat>)
      returns (message: Option<nat>, ok: bool, ghost removed: bool, ghost longer: seq<Entry>, ghost held: seq<nat>)
      requires Valid() && InCall(fleet, s, ch, Dropped, working, before, tail, taken, [], [])
      requires AllForeign(getting, ch) && AllForeign(acking, ch)
      requires working ==> AllWorking(getting) && AllWorking(acking) && TakenInOrder(before + tail, taken)
      requires call.start == start && call.service == s && call.channel == ch && trace == Woven(call, own)
      requires getting == call.others(|own|) && acking == call.others(|own| + 1)
      requires getLuck == call.luck(|own|) && ackLuck == call.luck(|own| + 1)
      modifies this
      ensures Valid() && tail <= longer
      ensures ok <==> getLuck == Fine && (message.None? || ackLuck == Fine)
      ensures getLuck == Refused ==> message.None?
      ensures removed <==> getLuck == Fine && message.Some? && ackLuck != Refused
      ensures InCall(fleet, s, ch, Dropped, working, before, longer,
                     if removed then taken + [message.value] else taken, held, [])
      ensures working ==> TakenInOrder(before + longer, if removed then taken + [message.value] else taken)
      ensures removed || (ok && message.None?) ==> held == []
      ensures ok && message.None? && working ==> Waiting(before + longer) == taken
      ensures var query := if message.Some? then Some(At(s, Get(ch))) else None;
              var removal := if removed then Some(At(s, Ack(ch, message.value, Dropped))) else None;
              && Query(call, own + [query], |own|, message)
              && trace == Woven(call, if getLuck == Fine && message.Some? then own + [query] + [removal]
                                      else own + [query])
    {
      hide Exec, Inv, Calling, Viewing, Woven, Before, Query, Ordered, TakenInOrder;
      assert taken + [] == taken;
      message, ok, removed, held := None, false, false, [];
      longer := Await(getting, s, ch, Dropped, working, before, tail, taken, [], []);
      LongerOrder(before, tail, longer, taken);
      ghost var awaited, query := trace, None;
      if getLuck == Refused {
        Answered(call, own, query, message);
        assert trace == awaited + Effect(query);
        return;
      }
      message := GetNext(s, ch, Dropped, working, before, longer, taken, [], []);
      query := if message.Some? then Some(At(s, Get(ch))) else None;
      Answered(call, own, query, message);
      if message.None? {
        ok := getLuck == Fine;
        return;
      }
      held := [] + [message.value];
      assert held == [message.value] && held[1..] == [] && taken + held == taken + [message.value];
      if getLuck == Unconfirmed {
        return;
      }
      ghost var shorter := longer;
      longer := Await(acking, s, ch, Dropped, working, before, longer, taken, held, []);
      LongerOrder(before, shorter, longer, taken);
      LongerOrder(before, shorter, longer, taken + held);
      ghost var removal := if ackLuck == Refused then None else Some(At(s, Ack(ch, message.value, Dropped)));
      WovenStep(call, own + [query], removal);
      awaited := trace;
      if ackLuck == Refused {
        assert trace == awaited + Effect(removal);
        return;
      }
      AckFirst(s, ch, Dropped, message.value, working, before, longer, taken, held, []);
      assert trace == awaited + Effect(removal);
      held, removed, ok := [], true, ackLuck == Fine;
    }

    /** The loop of drop: the oldest messages are removed one by one, with two interactions each. */
    method DropAll(s: Service, count: int, ch: Channel, others: nat -> seq<Action>, luck: nat -> Luck,
                   ghost working: bool, ghost before: seq<Entry>)
      returns (dropped: nat, stop: Stop, ghost seen: seq<nat>, ghost taken: seq<nat>, ghost held: seq<nat>,
               ghost tail: seq<Entry>, ghost own: seq<Option<Action>>)
      requires Valid() && InCall(fleet, s, ch, Dropped, working, before, [], [], [], [])
      requires forall k :: AllForeign(others(k), ch) && (working ==> AllWorking(others(k)))
      modifies this
      ensures Valid() && InCall(fleet, s, ch, Dropped, working, before, tail, taken, held, [])
      ensures taken <= seen && |taken| <= if count < 0 then 0 else count
      ensures DropStop(stop, luck, |seen|, |taken|, count) && (stop.Complete? ==> dropped == |taken|)
      ensures var call := Call(start, old(trace), s, ch, others, luck);
              |own| == DropMade(stop, |taken|, count) && trace == Woven(call, own) && DropRounds(call, own, seen)
      ensures working ==> TookOldest(before, tail, count, taken, stop.Complete?)
    {
      hide Exec, Inv, Calling, Viewing, Woven, Query, DropRounds, DropStop, AllFine;
      ghost var call := Call(start, trace, s, ch, others, luck);
      dropped, stop, seen, taken, held, tail, own := 0, Complete, [], [], [], [], [];
      assert before + tail == before;
      NothingAsked(call);
      NothingFailed(luck);
      while dropped < count
        invariant stop.Complete? && held == [] && Valid()
        invariant InCall(fleet, s, ch, Dropped, working, before, tail, taken, held, [])
        invariant working ==> TakenInOrder(before + tail, taken)
        invariant seen == taken && dropped == |taken| <= if count < 0 then 0 else count
        invariant AllFine(luck, 2 * dropped)
        invariant |own| == 2 * dropped && trace == Woven(call, own) && DropRounds(call, own, seen)
      {
        var t, message, ok := 2 * dropped, None, true;
        ghost var removed;
        message, ok, removed, tail, held :=
          DropOne(s, ch, others(t), others(t + 1), luck(t), luck(t + 1), call, own, working, before, tail, taken);
        ghost var query := if message.Some? then Some(At(s, Get(ch))) else None;
        OneMoreDropQuery(call, own, query, seen, message);
        own := own + [query];
        if message.Some? {
          seen := seen + [message.value];
        }
        if luck(t) != Fine {
          stop := FailedAt(t);
          DropQueryFailed(luck, dropped, |seen|, count);
          return;
        }
        if message.None? {
          DropFoundNone(luck, dropped, count);
          WaitingConcat(before, tail);
          return;
        }
        ghost var removal := if removed then Some(At(s, Ack(ch, message.value, Dropped))) else None;
        OneMoreDrop(call, own, removal, seen);
        own := own + [removal];
        if removed {
          taken := taken + [message.value];
        }
        if !ok {
          stop := FailedAt(t + 1);
          DropRemovalFailed(luck, dropped, |taken|, count);
          return;
        }
        DroppedOneMore(luck, dropped);
        dropped := dropped + 1;
      }
      DropHasAll(luck, dropped, count);
    }

    /**
      drop_failed_messages: exactly the dropped messages leave, the oldest ones, and nothing is
      published. The call returns their number unless an interaction fails; then the messages of the
      complete rounds left, and the next one when its unconfirmed removal still took effect. own is
      what each interaction did, and the trace is exactly that and what others did.
     */
    method DropFailedMessages(s: Service, count: int, ch: Channel, others: nat -> seq<Action>, luck: nat -> Luck)
      returns (r: Result<nat, Failure>, ghost stop: Stop, ghost seen: seq<nat>,
               ghost taken: seq<nat>, ghost tail: seq<Entry>, ghost own: seq<Option<Action>>)
      requires Valid() && Inv(fleet) && NewChannel(fleet, ch)
      requires forall k :: AllForeign(others(k), ch)
      modifies this
      ensures Valid() && old(trace) <= trace
      ensures r == Err(NoQueue) <==> s !in old(fleet).pairs
      ensures s in old(fleet).pairs ==>
                && r == ResultOf(stop, |taken|) && DropStop(stop, luck, |seen|, |taken|, count)
                && taken <= seen && |taken| <= (if count < 0 then 0 else count)
      ensures s in old(fleet).pairs && (forall k :: luck(k) == Fine) ==> r.Ok?
      ensures s in old(fleet).pairs ==>
                var call := Call(start, old(trace), s, ch, others, luck);
                && |own| == DropMade(stop, |taken|, count) && trace == Woven(call, own) + [Close(ch)]
                && DropRounds(call, own, seen)
      ensures s in old(fleet).pairs ==> Calling(fleet, s, ch, Dropped, taken, [], [])
      ensures s in old(fleet).pairs && (forall k :: AllWorking(others(k))) ==>
                && TookOldest(old(fleet).pairs[s].failed, tail, count, taken, r.Ok?)
                && fleet.pairs[s].failed == Without(old(fleet).pairs[s].failed + tail, taken)
    {
      hide Exec, Inv, Calling, Viewing, TookOldest, BodiesOf, NewChannel, AllForeign, AllWorking, Woven, DropRounds;
      stop, seen, taken, tail, own := Complete, [], [], [], [];
      if s !in fleet.pairs {
        r := Err(NoQueue);
        return;
      }
      ghost var before, working := fleet.pairs[s].failed, forall k :: AllWorking(others(k));
      BeginCall(fleet, s, ch, Dropped);
      assert before + [] == before;
      var dropped, ended;
      ghost var held;
      dropped, ended, seen, taken, held, tail, own := DropAll(s, count, ch, others, luck, working, before);
      stop := ended;
      CloseChannel(s, ch, Dropped, working, before, tail, taken, held, []);
      WovenGrows(Call(start, old(trace), s, ch, others, luck), own);
      r := ResultOf(ended, dropped);
    }

    /** One round of the loop that gives the held messages back. */
    method NackOne(s: Service, ch: Channel, message: nat, nacking: seq<Action>, luck: Luck,
                   ghost working: bool, ghost before: seq<Entry>, ghost tail: seq<Entry>, ghost held: seq<nat>)
      returns (ok: bool, ghost longer: seq<Entry>)
      requires Valid() && InCall(fleet, s, ch, Dropped, working, before, tail, [], held, [])
      requires held != [] && message == held[0]
      requires AllForeign(nacking, ch) && (working ==> AllWorking(nacking))
      modifies this
      ensures Valid() && old(fleet).publications <= fleet.publications && tail <= longer
      ensures InCall(fleet, s, ch, Dropped, working, before, longer, [], if luck.Refused? then held else held[1..], [])
      ensures ok <==> luck == Fine
      ensures trace == old(trace) + nacking + Effect(if luck.Refused? then None else Some(At(s, Nack(ch, message))))
    {
      hide Exec, Inv, Calling, Viewing;
      longer := Await(nacking, s, ch, Dropped, working, before, tail, [], held, []);
      if luck != Refused {
        NackFirst(s, ch, message, Dropped, working, before, longer, [], held, []);
      }
      ok := luck == Fine;
    }

    /** The loop of list that gives every held message back; it leaves none when nothing fails. */
    method NackAll(s: Service, ch: Channel, waiting: seq<nat>, others: nat -> seq<Action>, luck: nat -> Luck,
                   gets: nat, ghost call: Call, ghost queries: seq<Option<Action>>,
                   ghost working: bool, ghost before: seq<Entry>, ghost tail: seq<Entry>)
      returns (stop: Stop, ghost held: seq<nat>, ghost longer: seq<Entry>, ghost own: seq<Option<Action>>)
      requires Valid() && InCall(fleet, s, ch, Dropped, working, before, tail, [], waiting, [])
      requires forall k :: AllForeign(others(k), ch) && (working ==> AllWorking(others(k)))
      requires AllFine(luck, gets) && |queries| == gets && Queries(call, queries, gets, waiting)
      requires call.service == s && call.channel == ch && call.others == others && call.luck == luck
      requires trace == Woven(call, queries)
      modifies this
      ensures Valid() && old(fleet).publications <= fleet.publications && tail <= longer
      ensures InCall(fleet, s, ch, Dropped, working, before, longer, [], held, [])
      ensures match stop
              case Complete => held == [] && AllFine(luck, gets + |waiting|)
              case FailedAt(n) =>
                gets <= n < gets + |waiting| && FirstFailure(luck, n) && held == waiting[n - gets + Extra(luck, n)..]
              case UnreadableAt(_) => false
      ensures |own| == ListMade(stop, |waiting|, gets) && trace == Woven(call, own)
      ensures Queries(call, own, gets, waiting) && NackRounds(call, own, gets, waiting)
    {
      hide Exec, Inv, Calling, Viewing, Queries, NackRounds, Woven;
      stop, held, longer, own := Complete, waiting, tail, queries;
      NoNacks(call, own, gets, waiting);
      for i := 0 to |waiting|
        invariant stop.Complete? && held == waiting[i..] && tail <= longer
        invariant Valid() && old(fleet).publications <= fleet.publications
        invariant InCall(fleet, s, ch, Dropped, working, before, longer, [], held, [])
        invariant AllFine(luck, gets + i)
        invariant |own| == gets + i && trace == Woven(call, own)
        invariant Queries(call, own, gets, waiting) && NackRounds(call, own, gets, waiting)
      {
        var ok;
        ok, longer := NackOne(s, ch, waiting[i], others(gets + i), luck(gets + i), working, before, longer, held);
        ghost var step := if luck(gets + i).Refused? then None else Some(At(s, Nack(ch, waiting[i])));
        WovenStep(call, own, step);
        QueriesKept(call, own, step, gets, waiting);
        OneMoreNack(call, own, step, gets, waiting, i);
        own := own + [step];
        held := if luck(gets + i).Refused? then held else held[1..];
        if !ok {
          stop := FailedAt(gets + i);
          return;
        }
      }
    }

    /** The bodies that json.loads gave for each message: untagged trees. */
    method LoadBodies(taken: seq<nat>) returns (messages: seq<Value>)
      requires LegibleUpTo(fleet.publications, taken, |taken|)
      ensures BodiesOf(fleet.publications, taken, messages)
    {
      messages := [];
      for i := 0 to |taken|
        invariant BodiesOf(fleet.publications, taken[..i], messages)
      {
        assert Legible(fleet.publications, taken[i]);
        ReplayedBodySame(fleet.publications[taken[i]].body.value);
        messages := messages + [PlainLoads(fleet.publications[taken[i]].body.value)];
      }
      assert taken[..|taken|] == taken;
    }

    /** The two loops of list. */
    method LookAtOldest(s: Service, limit: int, ch: Channel, others: nat -> seq<Action>, luck: nat -> Luck,
                        ghost working: bool, ghost before: seq<Entry>)
      returns (messages: seq<Value>, stop: Stop, ghost gets: nat, ghost taken: seq<nat>, ghost held: seq<nat>,
               ghost tail: seq<Entry>, ghost own: seq<Option<Action>>)
      requires Valid() && InCall(fleet, s, ch, Dropped, working, before, [], [], [], [])
      requires forall k :: AllForeign(others(k), ch) && (working ==> AllWorking(others(k)))
      modifies this
      ensures Valid() && InCall(fleet, s, ch, Dropped, working, before, tail, [], held, [])
      ensures ListStop(stop, luck, fleet.publications, taken, gets, limit)
      ensures working ==> TookOldest(before, tail, limit, taken, Went(stop, gets) && !stop.UnreadableAt?)
      ensures |taken| <= if limit < 0 then 0 else limit
      ensures stop.Complete? ==> held == [] && BodiesOf(fleet.publications, taken, messages)
      ensures var call := Call(start, old(trace), s, ch, others, luck);
              && |own| == ListMade(stop, |taken|, gets) && trace == Woven(call, own)
              && Queries(call, own, gets, taken) && NackRounds(call, own, gets, taken)
    {
      hide Exec, Inv, Calling, Viewing, Queries, NackRounds, Woven, LegibleUpTo, FirstIllegible, BodiesOf;
      ghost var call := Call(start, trace, s, ch, others, luck);
      messages := [];
      var waiting, queries;
      waiting, stop, queries, tail, own := TakeWaiting(s, limit, ch, others, luck, true, Dropped, working, before);
      taken, held, gets := waiting, waiting, queries;
      if stop.Complete? {
        messages := LoadBodies(waiting);
        ghost var shorter, publications := tail, fleet.publications;
        stop, held, tail, own := NackAll(s, ch, waiting, others, luck, queries, call, own, working, before, tail);
        TookLonger(before, shorter, tail, limit, taken, true);
        LegibleStays(publications, fleet.publications, taken);
        BodiesKeep(publications, fleet.publications, taken, messages);
      } else {
        NoNacks(call, own, gets, taken);
      }
    }

    /**
      list_failed_messages: how many messages wait and the bodies of the oldest ones, unless an
      interaction fails or a body is no JSON. Afterwards the queue is as if nobody had looked, failure
      or not: every message in its place, the new ones behind. own is what each interaction did, and
      the trace is exactly that and what others did.
     */
    method ListFailedMessages(s: Service, limit: int, ch: Channel, others: nat -> seq<Action>, luck: nat -> Luck)
      returns (r: Result<(nat, seq<Value>), Failure>, ghost stop: Stop, ghost gets: nat,
               ghost taken: seq<nat>, ghost tail: seq<Entry>, ghost own: seq<Option<Action>>)
      requires Valid() && Inv(fleet) && NewChannel(fleet, ch)
      requires forall k :: AllForeign(others(k), ch)
      modifies this
      ensures Valid() && old(trace) <= trace
      ensures r == Err(NoQueue) <==> s !in old(fleet).pairs
      ensures s in old(fleet).pairs ==>
                && r == ResultOf(stop, if r.Ok? then r.value else (0, []))
                && ListStop(stop, luck, fleet.publications, taken, gets, limit)
                && ((forall k :: luck(k) == Fine) ==> (r.Ok? <==> LegibleUpTo(fleet.publications, taken, |taken|)))
      ensures s in old(fleet).pairs ==>
                var call := Call(start, old(trace), s, ch, others, luck);
                && |own| == ListMade(stop, |taken|, gets) && trace == Woven(call, own) + [Close(ch)]
                && Queries(call, own, gets, taken) && NackRounds(call, own, gets, taken)
      ensures s in old(fleet).pairs ==>
                && |taken| <= (if limit < 0 then 0 else limit)
                && Calling(fleet, s, ch, Dropped, [], [], [])
      ensures r.Ok? ==>
                && r.value.0 == |Waiting(old(fleet).pairs[s].failed)|
                && BodiesOf(fleet.publications, taken, r.value.1)
      ensures s in old(fleet).pairs && (forall k :: AllWorking(others(k))) ==>
                && TookOldest(old(fleet).pairs[s].failed, tail, limit, taken, Went(stop, gets) && !stop.UnreadableAt?)
                && fleet.pairs[s].failed == old(fleet).pairs[s].failed + tail
    {
      hide Exec, Inv, Calling, Viewing, TookOldest, BodiesOf, NewChannel, AllForeign, AllWorking;
      hide Queries, NackRounds, Woven, ListStop, LegibleUpTo, FirstIllegible;
      stop, gets, taken, tail, own := Complete, 0, [], [], [];
      if s !in fleet.pairs {
        r := Err(NoQueue);
        return;
      }
      ghost var before, working := fleet.pairs[s].failed, forall k :: AllWorking(others(k));
      BeginCall(fleet, s, ch, Dropped);
      assert before + [] == before;
      var count, messages, ended := |Waiting(fleet.pairs[s].failed)|, [], Complete;
      ghost var held;
      messages, ended, gets, taken, held, tail, own := LookAtOldest(s, limit, ch, others, luck, working, before);
      stop := ended;
      ghost var publications := fleet.publications;
      CloseChannel(s, ch, Dropped, working, before, tail, [], held, []);
      NothingRemoved(before + tail);
      ListStopLater(stop, luck, publications, fleet.publications, taken, gets, limit);
      FineList(stop, luck, fleet.publications, taken, gets, limit);
      if ended.Complete? {
        BodiesKeep(publications, fleet.publications, taken, messages);
      }
      WovenGrows(Call(start, old(trace), s, ch, others, luck), own);
      r := ResultOf(ended, (count, messages));
    }
  }

  // ---------------------------------------------------------------------------------------------
  // Small steps of the loops
  // ---------------------------------------------------------------------------------------------

  lemma NothingAsked(call: Call)
    ensures Woven(call, []) == call.base && Queries(call, [], 0, []) && DropRounds(call, [], [])
  {
  }

  lemma NoRounds(call: Call, own: seq<Option<Action>>, gets: nat, taken: seq<nat>)
    requires |own| == gets
    ensures ReplayRounds(call, own, gets, taken)
  {
  }

  lemma NoNacks(call: Call, own: seq<Option<Action>>, gets: nat, taken: seq<nat>)
    requires |own| == gets
    ensures NackRounds(call, own, gets, taken)
  {
  }

  lemma {:induction false} WovenGrows(call: Call, own: seq<Option<Action>>)
    ensures call.base <= Woven(call, own)
  {
    if |own| > 0 {
      WovenGrows(call, own[..|own| - 1]);
    }
  }

  /** A query finds what waits after the others' steps. */
  lemma Answered(call: Call, own: seq<Option<Action>>, step: Option<Action>, message: Option<nat>)
    requires step == if message.Some? then Some(At(call.service, Get(call.channel))) else None
    requires message.Some? ==> call.luck(|own|) != Refused
    requires call.luck(|own|) != Refused ==> message == Oldest(call, Woven(call, own) + call.others(|own|))
    ensures Query(call, own + [step], |own|, message)
    ensures Woven(call, own + [step]) == Woven(call, own) + call.others(|own|) + Effect(step)
  {
    hide Woven, Oldest, Before;
    WovenStep(call, own, step);
  }

  /** One more query, after what the others did and before what it did itself. */
  lemma Asked(call: Call, own: seq<Option<Action>>, step: Option<Action>, taken: seq<nat>, message: Option<nat>)
    requires Queries(call, own, |own|, taken) && |taken| == |own|
    requires step == if message.Some? then Some(At(call.service, Get(call.channel))) else None
    requires message.Some? ==> call.luck(|own|) != Refused
    requires call.luck(|own|) != Refused ==> message == Oldest(call, Woven(call, own) + call.others(|own|))
    ensures Queries(call, own + [step], |own| + 1, if message.Some? then taken + [message.value] else taken)
    ensures Woven(call, own + [step]) == Woven(call, own) + call.others(|own|) + Effect(step)
  {
    hide Woven, Oldest, Before, Queries, Query;
    Answered(call, own, step, message);
    OneMoreQuery(call, own, step, taken, message);
  }

  lemma NoneRead(publications: seq<Publication>, taken: seq<nat>)
    ensures LegibleUpTo(publications, taken, 0)
  {
  }

  lemma ReadOneMore(publications: seq<Publication>, taken: seq<nat>, n: nat)
    requires LegibleUpTo(publications, taken, n) && n < |taken| && Legible(publications, taken[n])
    ensures LegibleUpTo(publications, taken, n + 1)
  {
  }

  lemma FoundIllegible(publications: seq<Publication>, taken: seq<nat>, n: nat)
    requires LegibleUpTo(publications, taken, n) && n < |taken| && taken[n] < |publications|
    requires publications[taken[n]].body.None?
    ensures FirstIllegible(publications, taken, n)
  {
  }

  /** So far every query went well, and the bodies were read when they had to be. */
  ghost predicate Taking(reading: bool, luck: nat -> Luck, publications: seq<Publication>, taken: seq<nat>) {
    AllFine(luck, |taken|) && (reading ==> LegibleUpTo(publications, taken, |taken|))
  }

  lemma NoneTaken(reading: bool, luck: nat -> Luck, publications: seq<Publication>)
    ensures Taking(reading, luck, publications, [])
  {
  }

  lemma TakingLater(reading: bool, luck: nat -> Luck, publications: seq<Publication>, more: seq<Publication>,
                    taken: seq<nat>)
    requires publications <= more
    ensures Taking(reading, luck, publications, taken) ==> Taking(reading, luck, more, taken)
  {
  }

  lemma TakenEnough(reading: bool, luck: nat -> Luck, publications: seq<Publication>, taken: seq<nat>, count: int)
    requires Taking(reading, luck, publications, taken) && |taken| == if count < 0 then 0 else count
    ensures TakeStop(Complete, reading, luck, publications, taken, |taken|, count)
  {
  }

  /** What one more query means for the taking of messages. */
  lemma TakenOneMore(reading: bool, luck: nat -> Luck, publications: seq<Publication>, taken: seq<nat>,
                     message: Option<nat>, count: int)
    requires Taking(reading, luck, publications, taken) && |taken| < count
    requires message.Some? ==> message.value < |publications| && luck(|taken|) != Refused
    ensures var n, more := |taken|, if message.Some? then taken + [message.value] else taken;
            if luck(n) != Fine then TakeStop(FailedAt(n), reading, luck, publications, more, n + 1, count)
            else if message.None? then TakeStop(Complete, reading, luck, publications, more, n + 1, count)
            else if reading && publications[message.value].body.None?
            then TakeStop(UnreadableAt(n), reading, luck, publications, more, n + 1, count)
            else Taking(reading, luck, publications, more)
  {
  }

  lemma NothingFailed(luck: nat -> Luck)
    ensures AllFine(luck, 0)
  {
  }

  lemma DroppedOneMore(luck: nat -> Luck, gone: nat)
    requires AllFine(luck, 2 * gone) && luck(2 * gone) == luck(2 * gone + 1) == Fine
    ensures AllFine(luck, 2 * (gone + 1))
  {
  }

  lemma DropQueryFailed(luck: nat -> Luck, gone: nat, seen: nat, count: int)
    requires AllFine(luck, 2 * gone) && luck(2 * gone) != Fine && gone < count
    requires gone <= seen <= gone + Extra(luck, 2 * gone)
    ensures DropStop(FailedAt(2 * gone), luck, seen, gone, count)
  {
  }

  lemma DropRemovalFailed(luck: nat -> Luck, dropped: nat, gone: nat, count: int)
    requires AllFine(luck, 2 * dropped) && luck(2 * dropped) == Fine && luck(2 * dropped + 1) != Fine
    requires dropped < count && gone == dropped + Extra(luck, 2 * dropped + 1)
    ensures DropStop(FailedAt(2 * dropped + 1), luck, dropped + 1, gone, count)
  {
    assert (2 * dropped + 1) / 2 == dropped;
  }

  lemma DropFoundNone(luck: nat -> Luck, gone: nat, count: int)
    requires AllFine(luck, 2 * gone) && luck(2 * gone) == Fine && gone < count
    ensures DropStop(Complete, luck, gone, gone, count)
  {
  }

  lemma DropHasAll(luck: nat -> Luck, gone: nat, count: int)
    requires AllFine(luck, 2 * gone) && gone == if count < 0 then 0 else count
    ensures DropStop(Complete, luck, gone, gone, count)
  {
  }

  lemma TakenNotOwn(f: Fleet, s: Service, ch: Channel, taken: seq<nat>)
    requires Calling(f, s, ch, Replayed, [], taken, [])
    ensures NotOwn(f.publications, s, ch, taken)
  {
    hide Inv, HoldsExactly, BodiesKept, Distinct;
    NothingOwn(f.publications, s, ch);
    AllPublished(f, s, ch, Replayed, [], taken, []);
  }

  lemma ReplayStopLater(stop: Stop, luck: nat -> Luck, publications: seq<Publication>, more: seq<Publication>,
                        taken: seq<nat>, gets: nat, count: int)
    requires ReplayStop(stop, luck, publications, taken, gets, count) && publications <= more
    ensures ReplayStop(stop, luck, more, taken, gets, count)
  {
    hide LegibleUpTo, FirstIllegible;
    LegibleStays(publications, more, taken);
  }

  lemma ListStopLater(stop: Stop, luck: nat -> Luck, publications: seq<Publication>, more: seq<Publication>,
                      taken: seq<nat>, gets: nat, limit: int)
    requires ListStop(stop, luck, publications, taken, gets, limit) && publications <= more
    ensures ListStop(stop, luck, more, taken, gets, limit)
  {
    hide LegibleUpTo, FirstIllegible;
    LegibleStays(publications, more, taken);
  }

  /** When no interaction fails, only a body that is no JSON can stop a replay. */
  lemma FineReplay(stop: Stop, luck: nat -> Luck, publications: seq<Publication>, taken: seq<nat>, gets: nat,
                   count: int)
    requires ReplayStop(stop, luck, publications, taken, gets, count)
    ensures (forall k :: luck(k) == Fine) ==> (stop.Complete? <==> LegibleUpTo(publications, taken, |taken|))
  {
  }

  lemma FineList(stop: Stop, luck: nat -> Luck, publications: seq<Publication>, taken: seq<nat>, gets: nat, limit: int)
    requires ListStop(stop, luck, publications, taken, gets, limit)
    ensures (forall k :: luck(k) == Fine) ==> (stop.Complete? <==> LegibleUpTo(publications, taken, |taken|))
  {
  }

  lemma BodiesKeep(publications: seq<Publication>, more: seq<Publication>, taken: seq<nat>, messages: seq<Value>)
    requires BodiesOf(publications, taken, messages) && publications <= more
    ensures BodiesOf(more, taken, messages)
  {
  }

  lemma TookLonger(before: seq<Entry>, tail: seq<Entry>, longer: seq<Entry>, count: int, taken: seq<nat>,
                   complete: bool)
    requires tail <= longer && forall e | e in longer :: e.holder.None?
    ensures TookOldest(before, tail, count, taken, complete) ==> TookOldest(before, longer, count, taken, complete)
    ensures TookOldest(before, tail, count, taken, true) ==> TookOldest(before, longer, count, taken, false)
  {
    LongerOrder(before, tail, longer, taken);
  }

  lemma {:induction false} NothingRemoved(base: seq<Entry>)
    ensures Without(base, []) == base
  {
    if |base| > 0 {
      NothingRemoved(base[..|base| - 1]);
    }
  }

  lemma AllPublished(f: Fleet, s: Service, ch: Channel, reason: Reason,
                     gone: seq<nat>, held: seq<nat>, sent: seq<nat>)
    requires Calling(f, s, ch, reason, gone, held, sent)
    ensures forall i | 0 <= i < |held| :: held[i] < |f.publications|
  {
    forall i | 0 <= i < |held| ensures held[i] < |f.publications| {
      HeldPublished(f, s, ch, reason, gone, held, sent, held[i]);
    }
  }

  lemma LongerOrder(before: seq<Entry>, tail: seq<Entry>, longer: seq<Entry>, taken: seq<nat>)
    requires tail <= longer
    ensures TakenInOrder(before + tail, taken) ==> TakenInOrder(before + longer, taken)
  {
    assert before + longer == before + tail + longer[|tail|..];
    WaitingConcat(before + tail, longer[|tail|..]);
  }
}
