/**
  Where every copy of an event is, told by the steps a run took: what each queue, handler and admin
  call got is what it passed on or still has.
 */
module Whereabouts {
  import opened Wrappers
  import opened Broker

  // ---------------------------------------------------------------------------------------------
  // One step
  // ---------------------------------------------------------------------------------------------

  /** One, when the step was op and took effect. */
  function Took(p: QueuePair, step: Op, op: Op): nat {
    if step == op && Enabled(p, step) then 1 else 0
  }

  /** One, when the step removed c from the failed queue for that reason, whoever held it. */
  function TookOut(p: QueuePair, step: Op, c: nat, reason: Reason): nat {
    if step.Ack? && step.copy == c && step.reason == reason && Enabled(p, step) then 1 else 0
  }

  /** What one step does to c in the work queue and on its way to the failed queue. */
  ghost predicate WorkMoved(p: QueuePair, q: QueuePair, op: Op, c: nat) {
    var last := Attempts(p, c) >= p.limit;
    && q.ready[c] + Took(p, op, Deliver(c)) == p.ready[c] + Took(p, op, GiveBack(c)) + Took(p, op, RetryDue(c))
    && q.done[c] == p.done[c] + Took(p, op, Succeed(c))
    && q.delayed[c] + Took(p, op, RetryDue(c)) == p.delayed[c] + (if last then 0 else Took(p, op, Fail(c)))
    && q.leaving[c] + Took(p, op, Retain(c)) == p.leaving[c] + (if last then Took(p, op, Fail(c)) else 0)
  }

  lemma StepWork(p: QueuePair, op: Op, c: nat)
    ensures WorkMoved(p, Step(p, op), op, c)
  {
    hide *;
    if !Enabled(p, op) {
      StepIdle(p, op, c);
    } else {
      match op
      case Deliver(_) => StepForward(p, op, c);
      case Succeed(_) => StepForward(p, op, c);
      case GiveBack(_) => StepForward(p, op, c);
      case RetryDue(_) => StepForward(p, op, c);
      case Fail(d) => StepReject(p, d, c);
      case Retain(_) => StepPast(p, op, c);
      case Get(_) => StepPast(p, op, c);
      case Ack(_, _, _) => StepPast(p, op, c);
      case Nack(_, _) => StepPast(p, op, c);
    }
  }

  lemma StepIdle(p: QueuePair, op: Op, c: nat)
    requires !Enabled(p, op)
    ensures WorkMoved(p, Step(p, op), op, c)
  {
    hide Enabled, Step;
    DisabledStep(p, op);
  }

  lemma StepForward(p: QueuePair, op: Op, c: nat)
    requires Enabled(p, op) && (op.Deliver? || op.Succeed? || op.GiveBack? || op.RetryDue?)
    ensures WorkMoved(p, Step(p, op), op, c)
  {
    hide Enabled, Step, Attempts;
    StepForwardIs(p, op, c);
  }

  lemma StepForwardIs(p: QueuePair, op: Op, c: nat)
    requires Enabled(p, op) && (op.Deliver? || op.Succeed? || op.GiveBack? || op.RetryDue?)
    ensures var one, q := if op.copy == c then 1 else 0, Step(p, op);
            && q.limit == p.limit && q.leaving == p.leaving
            && q.ready[c] + (if op.Deliver? then one else 0) ==
               p.ready[c] + (if op.GiveBack? || op.RetryDue? then one else 0)
            && q.done[c] == p.done[c] + (if op.Succeed? then one else 0)
            && q.delayed[c] == p.delayed[c] - (if op.RetryDue? then one else 0)
  {
    hide Copies, Waiting, WithHolder, Removed, Attempts;
  }

  lemma StepReject(p: QueuePair, d: nat, c: nat)
    requires Enabled(p, Fail(d))
    ensures WorkMoved(p, Step(p, Fail(d)), Fail(d), c)
  {
    hide Copies, Waiting;
  }

  lemma StepPast(p: QueuePair, op: Op, c: nat)
    requires Enabled(p, op) && (op.Retain? || op.Get? || op.Ack? || op.Nack?)
    ensures WorkMoved(p, Step(p, op), op, c)
  {
    hide Step, Enabled, Attempts;
    FailedQueueFrame(p, op);
    StepPastIs(p, op);
  }

  lemma StepPastIs(p: QueuePair, op: Op)
    requires Enabled(p, op) && (op.Retain? || op.Get? || op.Ack? || op.Nack?)
    ensures op.Retain? ==> multiset{op.copy} <= p.leaving && Step(p, op).leaving == p.leaving - multiset{op.copy}
    ensures !op.Retain? ==> Step(p, op).leaving == p.leaving
  {
    hide Copies, Waiting, WithHolder, Removed, Attempts;
  }

  lemma StepRetained(p: QueuePair, op: Op, c: nat)
    requires Copies(p.failed)[c] <= 1
    ensures var q := Step(p, op);
            && Copies(q.failed)[c] + TookOut(p, op, c, Replayed) + TookOut(p, op, c, Dropped) ==
               Copies(p.failed)[c] + Took(p, op, Retain(c))
            && q.replayed[c] == p.replayed[c] + TookOut(p, op, c, Replayed)
            && q.dropped[c] == p.dropped[c] + TookOut(p, op, c, Dropped)
  {
    hide Copies, Waiting, WithHolder, Removed, Step;
    if !Enabled(p, op) {
      DisabledStep(p, op);
    } else if op.Retain? || op.Get? || op.Ack? || op.Nack? {
      FailedQueueAfter(p, op);
      match op
      case Retain(d) =>
        CopiesConcat(p.failed, [Entry(d, None)]);
        OneCopy(d);
      case Get(ch) => HolderKeepsCopies(p.failed, Waiting(p.failed)[0], Some(ch));
      case Nack(_, d) => HolderKeepsCopies(p.failed, d, None);
      case Ack(ch, d, _) =>
        EntryCopy(p.failed, Entry(d, Some(ch)));
        RemovedCopies(p.failed, d);
    } else {
      WorkLeavesFailed(p, op);
    }
  }

  lemma WorkLeavesFailed(p: QueuePair, op: Op)
    requires !op.Retain? && !op.Get? && !op.Ack? && !op.Nack?
    ensures var q := Step(p, op); q.failed == p.failed && q.replayed == p.replayed && q.dropped == p.dropped
  {
    hide Copies, Waiting;
  }

  // ---------------------------------------------------------------------------------------------
  // Every run
  // ---------------------------------------------------------------------------------------------

  /** How often the run removed c from the failed queue of s for that reason. */
  function Removals(f: Fleet, run: seq<Action>, s: Service, c: nat, reason: Reason): nat {
    if |run| == 0 then 0
    else
      var init, last := run[..|run| - 1], run[|run| - 1];
      var before := Exec(f, init);
      Removals(f, init, s, c, reason) +
      if last.At? && last.service == s && s in before.pairs then TookOut(before.pairs[s], last.op, c, reason) else 0
  }

  /** The rejects that were not the last one allowed. */
  function Retries(rejects: nat, maxAttempts: int): int {
    if rejects < maxAttempts then rejects else maxAttempts - 1
  }

  /** Where the copy c of the service s is after the run, told by the steps on it. */
  ghost predicate Accounts(f: Fleet, run: seq<Action>, s: Service, c: nat, maxAttempts: int)
    requires s in Exec(f, run).pairs
  {
    var p, rejects := Exec(f, run).pairs[s], Count(f, run, s, Fail(c));
    && p.ready[c] + Count(f, run, s, Deliver(c)) ==
       (if c < |Exec(f, run).publications| then 1 else 0)
       + Count(f, run, s, GiveBack(c)) + Count(f, run, s, RetryDue(c))
    && p.unacked[c] + Count(f, run, s, Succeed(c)) + rejects + Count(f, run, s, GiveBack(c)) ==
       Count(f, run, s, Deliver(c))
    && p.done[c] == Count(f, run, s, Succeed(c))
    && p.delayed[c] + Count(f, run, s, RetryDue(c)) == Retries(rejects, maxAttempts)
    && p.leaving[c] + Count(f, run, s, Retain(c)) == rejects - Retries(rejects, maxAttempts)
    && Copies(p.failed)[c] + Removals(f, run, s, c, Replayed) + Removals(f, run, s, c, Dropped) ==
       Count(f, run, s, Retain(c))
    && p.replayed[c] == Removals(f, run, s, c, Replayed)
    && p.dropped[c] == Removals(f, run, s, c, Dropped)
  }

  lemma CountStep(f: Fleet, init: seq<Action>, last: Action, s: Service, op: Op)
    requires s in Exec(f, init).pairs
    ensures Count(f, init + [last], s, op) ==
            Count(f, init, s, op) +
            if last.At? && last.service == s then Took(Exec(f, init).pairs[s], last.op, op) else 0
  {
    hide Enabled;
    assert (init + [last])[..|init|] == init;
  }

  lemma RemovalsStep(f: Fleet, init: seq<Action>, last: Action, s: Service, c: nat, reason: Reason)
    requires s in Exec(f, init).pairs
    ensures Removals(f, init + [last], s, c, reason) ==
            Removals(f, init, s, c, reason) +
            if last.At? && last.service == s then TookOut(Exec(f, init).pairs[s], last.op, c, reason) else 0
  {
    hide Enabled;
    assert (init + [last])[..|init|] == init;
  }

  /** A publication and a closed channel are no steps on the queues of s, and neither is a step of another service. */
  lemma NoStep(f: Fleet, a: Action, s: Service, c: nat)
    requires s in f.pairs && !(a.At? && a.service == s)
    ensures var p, q, n := f.pairs[s], Apply(f, a).pairs[s], |f.publications|;
            && |Apply(f, a).publications| == n + (if a.Publish? then 1 else 0)
            && q.ready[c] == p.ready[c] + (if a.Publish? && c == n then 1 else 0)
            && q == p.(ready := q.ready, failed := q.failed)
            && Copies(q.failed) == Copies(p.failed)
  {
    hide Copies, Step, Released;
    ApplyPair(f, a, s);
    if a.Close? {
      ReleaseKeepsCopies(f.pairs[s].failed, a.channel);
    }
  }

  lemma AccountsStep(f: Fleet, init: seq<Action>, last: Action, s: Service, c: nat, maxAttempts: int)
    requires s in Exec(f, init).pairs && maxAttempts == Exec(f, init).pairs[s].limit + 1
    requires Attempts(Exec(f, init).pairs[s], c) == Count(f, init, s, Fail(c)) <= maxAttempts
    requires Copies(Exec(f, init).pairs[s].failed)[c] <= 1
    requires Accounts(f, init, s, c, maxAttempts)
    ensures s in Exec(f, init + [last]).pairs && Accounts(f, init + [last], s, c, maxAttempts)
  {
    hide Count, Removals, Copies, Attempts, Step, Took, TookOut, Apply, Waiting, Enabled, Exec;
    hide WithHolder, Removed, Released;
    var before := Exec(f, init);
    ExecOne(f, init, last);
    CountStep(f, init, last, s, Deliver(c));
    CountStep(f, init, last, s, Succeed(c));
    CountStep(f, init, last, s, Fail(c));
    CountStep(f, init, last, s, GiveBack(c));
    CountStep(f, init, last, s, RetryDue(c));
    CountStep(f, init, last, s, Retain(c));
    RemovalsStep(f, init, last, s, c, Replayed);
    RemovalsStep(f, init, last, s, c, Dropped);
    ApplyPair(before, last, s);
    if last.At? && last.service == s {
      StepWork(before.pairs[s], last.op, c);
      StepUnackedTook(before.pairs[s], last.op, c);
      StepRetained(before.pairs[s], last.op, c);
      PublicationsStay(before, last);
      TookOnce(before.pairs[s], last.op, Fail(c));
    } else {
      NoStep(before, last, s, c);
    }
  }

  lemma ExecOne(f: Fleet, init: seq<Action>, last: Action)
    ensures Exec(f, init + [last]) == Apply(Exec(f, init), last)
  {
    assert (init + [last])[..|init|] == init;
  }

  lemma TookOnce(p: QueuePair, step: Op, op: Op)
    ensures Took(p, step, op) <= 1
  {
  }

  lemma PublicationsStay(f: Fleet, a: Action)
    requires a.At?
    ensures Apply(f, a).publications == f.publications
  {
  }

  lemma StepUnackedTook(p: QueuePair, op: Op, c: nat)
    ensures Step(p, op).unacked[c] + Took(p, op, Succeed(c)) + Took(p, op, Fail(c)) + Took(p, op, GiveBack(c)) ==
            p.unacked[c] + Took(p, op, Deliver(c))
  {
    hide Step, Enabled;
    StepUnacked(p, op, c);
  }

  /**
    Over every run from the start: a copy enters the work queue by its publication, a return and a
    due retry; a reject delays it, but the last one allowed sends it to the failed queue; it is done
    exactly when it was acked; and it leaves the failed queue exactly as often as it was removed.
   */
  lemma {:induction false} EveryCopyAccounted(maxAttempts: map<Service, int>, run: seq<Action>, s: Service, c: nat)
    requires s in maxAttempts && maxAttempts[s] >= 1
    ensures s in Exec(Start(maxAttempts), run).pairs
    ensures Accounts(Start(maxAttempts), run, s, c, maxAttempts[s])
  {
    hide Apply, Accounts;
    var f := Start(maxAttempts);
    if |run| == 0 {
      NothingYet(maxAttempts, s, c);
    } else {
      var init, last := run[..|run| - 1], run[|run| - 1];
      EveryCopyAccounted(maxAttempts, init, s, c);
      Retention(maxAttempts, init, s, c);
      AttemptsAreRejections(f, init, s, c);
      ExecKeeps(f, init);
      AccountsStep(f, init, last, s, c, maxAttempts[s]);
      assert run == init + [last];
    }
  }

  lemma NothingYet(maxAttempts: map<Service, int>, s: Service, c: nat)
    requires s in maxAttempts && maxAttempts[s] >= 1
    ensures Accounts(Start(maxAttempts), [], s, c, maxAttempts[s])
  {
  }

  // ---------------------------------------------------------------------------------------------
  // Nothing gets stuck
  // ---------------------------------------------------------------------------------------------

  /** Its handler has it, or it is delivered by the next step, or by the one after its due retry. */
  ghost predicate Deliverable(p: QueuePair, c: nat) {
    || (Enabled(p, Succeed(c)) && Enabled(p, Fail(c)) && Enabled(p, GiveBack(c)))
    || (Enabled(p, Deliver(c)) && Enabled(Step(p, Deliver(c)), Succeed(c)))
    || (Enabled(p, RetryDue(c)) && Enabled(Step(p, RetryDue(c)), Deliver(c)))
  }

  /** It waits for room in the failed queue, or an admin call can take it or settles it. */
  ghost predicate Recoverable(p: QueuePair, c: nat) {
    || (c in p.leaving && (Enabled(p, Retain(c)) <==> |Waiting(p.failed)| < FAILED_QUEUE_MAX_LENGTH))
    || c in Waiting(p.failed)
    || exists ch :: Enabled(p, Nack(ch, c)) && forall reason :: Enabled(p, Ack(ch, c, reason))
  }

  /**
    Over every run from the start, a published copy that was neither acked nor rejected max_attempts
    times can be delivered; one that was rejected so often is retained until it is replayed or
    dropped; and one that was acked is never delivered again.
   */
  lemma NeverStranded(maxAttempts: map<Service, int>, run: seq<Action>, s: Service, c: nat)
    requires s in maxAttempts && maxAttempts[s] >= 1
    requires c < |Exec(Start(maxAttempts), run).publications|
    ensures var f0 := Start(maxAttempts);
            var acks, rejects := Count(f0, run, s, Succeed(c)), Count(f0, run, s, Fail(c));
            var removed := Removals(f0, run, s, c, Replayed) + Removals(f0, run, s, c, Dropped);
            && s in Exec(f0, run).pairs
            && var p := Exec(f0, run).pairs[s];
            && (acks == 0 && rejects < maxAttempts[s] <==> Deliverable(p, c))
            && (rejects == maxAttempts[s] && removed == 0 <==> Recoverable(p, c))
            && acks + removed <= 1
  {
    hide Exec, Count, Removals, Copies, Waiting;
    EveryCopyAccounted(maxAttempts, run, s, c);
    Retention(maxAttempts, run, s, c);
    var p := Exec(Start(maxAttempts), run).pairs[s];
    DeliverableWhere(p, c);
    RecoverableWhere(p, c);
  }

  lemma DeliverableWhere(p: QueuePair, c: nat)
    ensures Deliverable(p, c) <==> p.ready[c] + p.delayed[c] + p.unacked[c] > 0
  {
    hide Copies, Waiting;
  }

  lemma RecoverableWhere(p: QueuePair, c: nat)
    ensures Recoverable(p, c) <==> p.leaving[c] + Copies(p.failed)[c] > 0
  {
    hide Step, Waiting, Copies;
    if c in Copies(p.failed) {
      CopyHeldOrWaiting(p.failed, c);
      if c !in Waiting(p.failed) {
        var ch :| Entry(c, Some(ch)) in p.failed;
        assert Enabled(p, Nack(ch, c));
      }
    }
    if c in Waiting(p.failed) {
      WaitingEntry(p.failed, c);
      EntryCopy(p.failed, Entry(c, None));
    } else if Recoverable(p, c) && c !in p.leaving {
      var ch :| Enabled(p, Nack(ch, c));
      EntryCopy(p.failed, Entry(c, Some(ch)));
    }
  }

  lemma {:induction false} WaitingEntry(failed: seq<Entry>, c: nat)
    ensures c in Waiting(failed) <==> Entry(c, None) in failed
  {
    if |failed| > 0 {
      var init, last := failed[..|failed| - 1], failed[|failed| - 1];
      WaitingEntry(init, c);
      assert failed == init + [last];
      assert last == Entry(last.copy, last.holder);
    }
  }

  lemma {:induction false} CopyHeldOrWaiting(failed: seq<Entry>, c: nat)
    requires c in Copies(failed)
    ensures c in Waiting(failed) || exists ch :: Entry(c, Some(ch)) in failed
  {
    var init, last := failed[..|failed| - 1], failed[|failed| - 1];
    WaitingEntry(failed, c);
    if last.copy == c {
      assert last in failed && last == Entry(c, last.holder);
    } else {
      CopyHeldOrWaiting(init, c);
      WaitingEntry(init, c);
    }
  }
}
