/**
  The loop that sends heartbeats (kontiki/registry/client/heartbeat_publisher.py), and that the
  times it sends at are the regular ones HeartbeatTiming speaks of.
 */
module HeartbeatPublisher {
  import opened Wrappers
  import opened RegistryState
  import opened HeartbeatTiming

  const DEFAULT_INTERVAL: int := 10 * SECOND

  /** What a degraded condition returns: a pair, or any other value seen as true or false. */
  datatype Condition = Pair(degraded: bool, reason: Option<string>) | Other(truthy: bool)

  /** One heartbeat as it is published. */
  datatype Heartbeat = Heartbeat(at: Time, degraded: bool, reason: Option<string>)

  /** How one round of the loop goes, and how long it works before it sleeps. */
  datatype Outcome =
    | NotConnected
    | ConditionRaises
    | PublishRaises(condition: Option<Condition>)
    | PublishInterrupted(condition: Option<Condition>)
    | Published(condition: Option<Condition>)
    | TaskCancelled

  datatype Round = Round(outcome: Outcome, work: nat)

  /** normalize_degraded_result: a reason counts only with a true flag. */
  function Normalized(result: Condition): (r: (bool, Option<string>))
    ensures r.1.Some? ==> r.0
  {
    match result
    case Pair(degraded, reason) => if degraded then (true, reason) else (false, None)
    case Other(truthy) => (truthy, None)
  }

  /** _evaluate_degraded; without a condition the service is never degraded. */
  function Evaluated(condition: Option<Condition>): (bool, Option<string>) {
    if condition.None? then (false, None) else Normalized(condition.value)
  }

  /** When a round starts. */
  function StartOf(rounds: seq<Round>, start: Time, interval: int, i: nat): Time
    requires i <= |rounds|
  {
    if i == 0 then start else StartOf(rounds, start, interval, i - 1) + rounds[i - 1].work + interval
  }

  /** The heartbeats the rounds send: each one says what its own evaluation said. */
  function SentBy(rounds: seq<Round>, start: Time, interval: int): seq<Heartbeat> {
    if |rounds| == 0 then []
    else
      var n := |rounds| - 1;
      SentBy(rounds[..n], start, interval) +
      if rounds[n].outcome.Published? then
        var state := Evaluated(rounds[n].outcome.condition);
        [Heartbeat(StartOf(rounds, start, interval, n) + rounds[n].work, state.0, state.1)]
      else []
  }

  /** The rounds before the task was cancelled. */
  function UntilCancelled(rounds: seq<Round>): (n: nat)
    ensures n <= |rounds|
  {
    if |rounds| == 0 || rounds[0].outcome.TaskCancelled? then 0 else 1 + UntilCancelled(rounds[1..])
  }

  lemma {:induction false} UntilCancelledIs(rounds: seq<Round>, n: nat)
    requires n <= |rounds| && forall i | 0 <= i < n :: !rounds[i].outcome.TaskCancelled?
    requires n < |rounds| ==> rounds[n].outcome.TaskCancelled?
    ensures UntilCancelled(rounds) == n
  {
    if n > 0 {
      UntilCancelledIs(rounds[1..], n - 1);
    }
  }

  lemma {:induction false} StartOfPrefix(rounds: seq<Round>, start: Time, interval: int, n: nat, i: nat)
    requires i <= n <= |rounds|
    ensures StartOf(rounds[..n], start, interval, i) == StartOf(rounds, start, interval, i)
  {
    if i > 0 {
      StartOfPrefix(rounds, start, interval, n, i - 1);
    }
  }

  // ---------------------------------------------------------------------------------------------
  // What a heartbeat says
  // ---------------------------------------------------------------------------------------------

  /** The heartbeat says what the condition itself returned: its own truth, and a reason only with a true pair. */
  ghost predicate Says(heartbeat: Heartbeat, condition: Option<Condition>) {
    match condition
    case None => !heartbeat.degraded && heartbeat.reason.None?
    case Some(Other(truthy)) => (heartbeat.degraded <==> truthy) && heartbeat.reason.None?
    case Some(Pair(degraded, reason)) =>
      && (heartbeat.degraded <==> degraded)
      && heartbeat.reason == (if degraded then reason else None)
  }

  /** The rounds that published, in order. */
  function PublishedRounds(rounds: seq<Round>): seq<nat> {
    if |rounds| == 0 then []
    else
      var n := |rounds| - 1;
      PublishedRounds(rounds[..n]) + if rounds[n].outcome.Published? then [n] else []
  }

  /**
    The heartbeats of the loop are those of its published rounds, in order: each is sent when its round
    has worked, and says what its own condition returned.
   */
  lemma {:induction false} HeartbeatsSayConditions(rounds: seq<Round>, start: Time, interval: int)
    ensures var sent, published := SentBy(rounds, start, interval), PublishedRounds(rounds);
            && |sent| == |published|
            && forall i | 0 <= i < |sent| ::
                 && published[i] < |rounds| && rounds[published[i]].outcome.Published?
                 && sent[i].at == SentAt(rounds, start, interval, published[i])
                 && Says(sent[i], rounds[published[i]].outcome.condition)
    ensures forall n | 0 <= n < |rounds| :: n in PublishedRounds(rounds) <==> rounds[n].outcome.Published?
  {
    if |rounds| > 0 {
      var n := |rounds| - 1;
      var init := rounds[..n];
      HeartbeatsSayConditions(init, start, interval);
      forall i: nat | i <= n ensures StartOf(init, start, interval, i) == StartOf(rounds, start, interval, i) {
        StartOfPrefix(rounds, start, interval, n, i);
      }
    }
  }

  class Publisher {
    const interval: Option<int>
    var isDegraded: bool
    var errorLogged: bool
    var clock: Time
    var sent: seq<Heartbeat>

    constructor (interval: Option<int>, start: Time)
      ensures this.interval == interval && clock == start && sent == [] && !isDegraded && !errorLogged
    {
      this.interval, clock, sent, isDegraded, errorLogged := interval, start, [], false, false;
    }

    function Interval(): int {
      if interval.Some? then interval.value else DEFAULT_INTERVAL
    }

    /** The flag follows the evaluation, and the reason is dropped with it. */
    method Follow(condition: Option<Condition>) returns (reason: Option<string>)
      modifies this`isDegraded
      ensures (isDegraded, reason) == Evaluated(condition)
    {
      var shouldDegrade := Evaluated(condition).0;
      reason := Evaluated(condition).1;
      if shouldDegrade && !isDegraded {
        isDegraded := true;
      } else if !shouldDegrade && isDegraded {
        isDegraded := false;
        reason := None;
      }
      if !isDegraded {
        reason := None;
      }
    }

    /** One round up to its sleep; whatever was sent or failed before does not show in the heartbeat. */
    method BeatOnce(round: Round)
      requires !round.outcome.TaskCancelled?
      modifies this
      ensures clock == old(clock) + round.work
      ensures sent == old(sent) +
                      if round.outcome.Published? then
                        var state := Evaluated(round.outcome.condition);
                        [Heartbeat(old(clock) + round.work, state.0, state.1)]
                      else []
    {
      clock := clock + round.work;
      match round.outcome
      case NotConnected =>
      case ConditionRaises => errorLogged := true;
      case PublishRaises(condition) => var _ := Follow(condition); errorLogged := true;
      case PublishInterrupted(condition) => var _ := Follow(condition); errorLogged := true;
      case Published(condition) =>
        var reason := Follow(condition);
        sent := sent + [Heartbeat(clock, isDegraded, reason)];
        errorLogged := false;
    }

    /** _send_heartbeat: only a cancellation of the task itself ends the loop, and every round ends in one sleep. */
    method SendHeartbeats(rounds: seq<Round>)
      modifies this
      ensures sent == old(sent) + SentBy(rounds[..UntilCancelled(rounds)], old(clock), Interval())
    {
      var i := 0;
      while i < |rounds| && !rounds[i].outcome.TaskCancelled?
        invariant 0 <= i <= |rounds|
        invariant forall j | 0 <= j < i :: !rounds[j].outcome.TaskCancelled?
        invariant clock == StartOf(rounds, old(clock), Interval(), i)
        invariant sent == old(sent) + SentBy(rounds[..i], old(clock), Interval())
      {
        assert rounds[..i + 1][..i] == rounds[..i];
        StartOfPrefix(rounds, old(clock), Interval(), i + 1, i);
        BeatOnce(rounds[i]);
        clock := clock + Interval();
        i := i + 1;
      }
      UntilCancelledIs(rounds, i);
    }
  }

  // ---------------------------------------------------------------------------------------------
  // Regularity
  // ---------------------------------------------------------------------------------------------

  /** When a round has its heartbeat ready. */
  function SentAt(rounds: seq<Round>, start: Time, interval: int, i: nat): Time
    requires i < |rounds|
  {
    StartOf(rounds, start, interval, i) + rounds[i].work
  }

  /** The beats of a run: arrivals tells when the heartbeat of a round was handled, if it was. */
  function BeatsOf(rounds: seq<Round>, start: Time, interval: int, arrivals: seq<Option<Time>>): (beats: seq<Beat>)
    requires |arrivals| == |rounds|
    ensures |beats| == |rounds|
    ensures forall i | 0 <= i < |beats| :: beats[i] == Beat(SentAt(rounds, start, interval, i), arrivals[i])
  {
    seq(|rounds|, i requires 0 <= i < |rounds| => Beat(SentAt(rounds, start, interval, i), arrivals[i]))
  }

  /** Only a published heartbeat arrives, within the delay and in order. */
  ghost predicate Delivered(rounds: seq<Round>, start: Time, interval: int, arrivals: seq<Option<Time>>, delay: int)
    requires |arrivals| == |rounds|
  {
    && (forall i | 0 <= i < |rounds| && arrivals[i].Some? ::
          var sent := SentAt(rounds, start, interval, i);
          rounds[i].outcome.Published? && sent <= arrivals[i].value <= sent + delay)
    && (forall i, j | 0 <= i < j < |rounds| && arrivals[i].Some? && arrivals[j].Some? ::
          arrivals[i].value <= arrivals[j].value)
  }

  ghost predicate SomeArrives(arrivals: seq<Option<Time>>, i: nat, losses: nat) {
    exists j | i <= j < |arrivals| && j <= i + losses :: arrivals[j].Some?
  }

  /** Two rounds are at least the interval apart, and at most the interval and the work of the later one. */
  lemma Spacing(rounds: seq<Round>, start: Time, interval: int, i: nat)
    requires 0 < i < |rounds| && interval >= 0
    ensures SentAt(rounds, start, interval, i) == SentAt(rounds, start, interval, i - 1) + interval + rounds[i].work
  {
  }

  /**
    When no round works longer than work, and of any losses + 1 rounds in a row one sends a
    heartbeat that arrives, the loop beats regularly, interval + work apart at most.
   */
  lemma LoopIsRegular(rounds: seq<Round>, start: Time, interval: int, arrivals: seq<Option<Time>>,
                      delay: int, losses: nat, work: nat)
    requires |arrivals| == |rounds| && interval >= 0 && forall round | round in rounds :: round.work <= work
    requires Delivered(rounds, start, interval, arrivals, delay)
    requires forall i: nat | i + losses < |arrivals| :: SomeArrives(arrivals, i, losses)
    ensures Regular(BeatsOf(rounds, start, interval, arrivals), interval + work, delay, losses)
  {
    hide SentAt;
    var beats := BeatsOf(rounds, start, interval, arrivals);
    forall i | 0 < i < |beats| ensures beats[i - 1].sent <= beats[i].sent <= beats[i - 1].sent + (interval + work) {
      Spacing(rounds, start, interval, i);
      assert rounds[i] in rounds;
    }
    forall i: nat | i + losses < |beats| ensures OneArrives(beats, i, losses) {
      assert SomeArrives(arrivals, i, losses);
      var j :| i <= j < |arrivals| && j <= i + losses && arrivals[j].Some?;
      assert beats[j].handled.Some?;
    }
  }
}
