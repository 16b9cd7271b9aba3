/**
  Heartbeats over time: when an instance that beats regularly is seen as down, and when the
  registry announces that it stopped. All times are in microseconds.
 */
module HeartbeatTiming {
  import opened Wrappers
  import opened RegistryState

  const MONITOR_PERIOD: int := 5 * SECOND

  /** One heartbeat: sent, and handled by the registry unless it was lost. */
  datatype Beat = Beat(sent: Time, handled: Option<Time>)

  /** One of the beats from i on arrives before more than losses were lost. */
  ghost predicate OneArrives(beats: seq<Beat>, i: nat, losses: nat) {
    exists j | i <= j < |beats| && j <= i + losses :: beats[j].handled.Some?
  }

  /** Beats at most interval apart, handled in order within delay; of any losses + 1 in a row one arrives. */
  ghost predicate Regular(beats: seq<Beat>, interval: int, delay: int, losses: nat) {
    && (forall i | 0 < i < |beats| :: beats[i - 1].sent <= beats[i].sent <= beats[i - 1].sent + interval)
    && (forall i | 0 <= i < |beats| && beats[i].handled.Some? ::
          beats[i].sent <= beats[i].handled.value <= beats[i].sent + delay)
    && (forall i, j | 0 <= i < j < |beats| && beats[i].handled.Some? && beats[j].handled.Some? ::
          beats[i].handled.value <= beats[j].handled.value)
    && (forall i: nat | i + losses < |beats| :: OneArrives(beats, i, losses))
  }

  function ExecFrom(st: State, run: seq<Op>): State {
    if |run| == 0 then st else Apply(ExecFrom(st, run[..|run| - 1]), run[|run| - 1])
  }

  /** The interval an instance registered with, ten seconds if it gave none. */
  function RegisteredInterval(registration: Registration): int {
    match registration.heartbeatInterval
    case Some(seconds) => seconds * SECOND
    case None => 10 * SECOND
  }

  // ---------------------------------------------------------------------------------------------
  // What the registry remembers
  // ---------------------------------------------------------------------------------------------

  /** The step does not unregister the instance, nor register it with another interval. */
  predicate Keeps(op: Op, key: Key, interval: int) {
    && (op.DoUnregister? ==> op.key != key)
    && (Registers(op, key) ==> RegisteredInterval(op.registration) == interval)
  }

  /** The instance stays registered with the interval; anything else may happen, to it and to others. */
  predicate StaysRegistered(run: seq<Op>, key: Key, interval: int) {
    forall op | op in run :: Keeps(op, key, interval)
  }

  function IntervalOf(st: State, key: Key): int
    requires HasInstance(st.services, key)
  {
    RegisteredInterval(st.services[key.service][key.instance])
  }

  /** The times at which heartbeats of key are handled in a run. */
  function HeardIn(run: seq<Op>, key: Key): seq<Time> {
    if |run| == 0 then []
    else HeardIn(run[..|run| - 1], key) + if Beats(run[|run| - 1], key) then [run[|run| - 1].now] else []
  }

  /** The times at which beats arrive, up to now. */
  function ArrivedBy(beats: seq<Beat>, now: Time): seq<Time> {
    if |beats| == 0 then []
    else
      var last := beats[|beats| - 1];
      ArrivedBy(beats[..|beats| - 1], now) +
      if last.handled.Some? && last.handled.value <= now then [last.handled.value] else []
  }

  ghost predicate RegisteredWith(st: State, key: Key, interval: int) {
    HasInstance(st.services, key) && IntervalOf(st, key) == interval
  }

  lemma StepHears(st: State, op: Op, key: Key, interval: int)
    requires RegisteredWith(st, key, interval) && Keeps(op, key, interval)
    ensures var next := Apply(st, op);
            && RegisteredWith(next, key, interval)
            && (Beats(op, key) ==> key in next.heartbeats && next.heartbeats[key] == op.now)
            && (!Beats(op, key) ==> (key in next.heartbeats <==> key in st.heartbeats)
                                    && (key in st.heartbeats ==> next.heartbeats[key] == st.heartbeats[key]))
  {
    hide Refresh, RefreshAll, WithDegraded;
    match op
    case DoRegister(_, _, _) =>
    case DoRegisterUnhashable(_) =>
    case DoUnregister(k, _) =>
      if HasInstance(st.services, k) && k.service == key.service {
        assert key.instance in st.services[k.service] - {k.instance};
      }
    case DoHeartbeat(k, degraded, reason, now, _, published) =>
      RefreshFrame(Stored(st, k, degraded, reason, now), k, if degraded then reason else None, now, published);
      DegradedOnly(st, k, degraded, reason);
    case DoRefreshAll(order, now, published) =>
      RefreshAllFrame(st, order, now, published);
  }

  /** Over any run of all handlers, the heartbeat the registry remembers is the last one it handled. */
  lemma {:induction false} Remembered(st: State, run: seq<Op>, key: Key, interval: int)
    requires RegisteredWith(st, key, interval) && StaysRegistered(run, key, interval)
    ensures var next, heard := ExecFrom(st, run), HeardIn(run, key);
            && RegisteredWith(next, key, interval)
            && (heard != [] ==> key in next.heartbeats && next.heartbeats[key] == heard[|heard| - 1])
            && (heard == [] ==> (key in next.heartbeats <==> key in st.heartbeats)
                                && (key in st.heartbeats ==> next.heartbeats[key] == st.heartbeats[key]))
  {
    hide Apply, RegisteredWith, Keeps;
    if |run| > 0 {
      Remembered(st, run[..|run| - 1], key, interval);
      StepHears(ExecFrom(st, run[..|run| - 1]), run[|run| - 1], key, interval);
    }
  }

  lemma {:induction false} LastOfArrived(beats: seq<Beat>, now: Time, i: nat)
    requires i < |beats| && beats[i].handled.Some? && beats[i].handled.value <= now
    requires forall j | i < j < |beats| :: beats[j].handled.None? || beats[j].handled.value > now
    ensures var arrived := ArrivedBy(beats, now); arrived != [] && arrived[|arrived| - 1] == beats[i].handled.value
    decreases |beats|
  {
    if i < |beats| - 1 {
      LastOfArrived(beats[..|beats| - 1], now, i);
    }
  }

  // ---------------------------------------------------------------------------------------------
  // Regular heartbeats
  // ---------------------------------------------------------------------------------------------

  lemma {:induction false} SentApart(beats: seq<Beat>, interval: int, i: nat, j: nat)
    requires i <= j < |beats|
    requires forall n | 0 < n < |beats| :: beats[n - 1].sent <= beats[n].sent <= beats[n - 1].sent + interval
    ensures beats[j].sent <= beats[i].sent + (j - i) * interval
    decreases j
  {
    if i < j {
      SentApart(beats, interval, i, j - 1);
      assert beats[j].sent <= beats[j - 1].sent + interval;
      assert (j - i) * interval == (j - 1 - i) * interval + interval;
    }
  }

  /** The last heartbeat that arrived by now, when a later one is still to come. */
  lemma {:induction false} LastArrived(beats: seq<Beat>, now: Time, first: nat, later: nat) returns (i: nat)
    requires first < later < |beats|
    requires beats[first].handled.Some? && beats[first].handled.value <= now
    requires beats[later].handled.Some? && beats[later].handled.value > now
    ensures first <= i < later && beats[i].handled.Some? && beats[i].handled.value <= now
    ensures forall j | i < j <= later :: beats[j].handled.None? || beats[j].handled.value > now
    decreases later - first
  {
    if j :| first < j < later && beats[j].handled.Some? && beats[j].handled.value <= now {
      i := LastArrived(beats, now, j, later);
    } else {
      i := first;
    }
  }

  /**
    An instance that loses at most k heartbeats in a row is never seen as down between two handled
    heartbeats, when (k + 1) intervals and the delay fit into its timeout.
   */
  lemma NeverDownBetweenHeartbeats(st: State, run: seq<Op>, key: Key, beats: seq<Beat>, interval: int, delay: int,
                                   losses: nat, first: nat, later: nat, now: Time)
    requires HasInstance(st.services, key) && StaysRegistered(run, key, IntervalOf(st, key))
    requires HeardIn(run, key) == ArrivedBy(beats, now)
    requires Regular(beats, interval, delay, losses) && interval >= 0
    requires first < later < |beats| && beats[first].handled.Some? && beats[later].handled.Some?
    requires beats[first].handled.value <= now < beats[later].handled.value
    requires (losses + 1) * interval + delay <= 3 * IntervalOf(st, key)
    ensures var next := ExecFrom(st, run);
            HasInstance(next.services, key) && StatusOf(next, key, now) != Down
  {
    hide ExecFrom, Regular;
    var i := LastArrived(beats, now, first, later);
    NextArrival(beats, interval, delay, losses, i, later, now);
    LaterStillOut(beats, interval, delay, losses, later, now);
    LastOfArrived(beats, now, i);
    Remembered(st, run, key, IntervalOf(st, key));
  }

  lemma LaterStillOut(beats: seq<Beat>, interval: int, delay: int, losses: nat, later: nat, now: Time)
    requires Regular(beats, interval, delay, losses) && later < |beats| && beats[later].handled.Some?
    requires now < beats[later].handled.value
    ensures forall j | later < j < |beats| :: beats[j].handled.None? || beats[j].handled.value > now
  {
  }

  /** The time since the last arrival stays below the next one. */
  lemma NextArrival(beats: seq<Beat>, interval: int, delay: int, losses: nat, i: nat, later: nat, now: Time)
    requires Regular(beats, interval, delay, losses) && interval >= 0 && i < later < |beats|
    requires beats[i].handled.Some? && beats[i].handled.value <= now
    requires forall j | i < j <= later :: beats[j].handled.None? || beats[j].handled.value > now
    requires beats[later].handled.Some?
    ensures now - beats[i].handled.value < (losses + 1) * interval + delay
  {
    hide Regular;
    var next := ArrivalWithin(beats, interval, delay, losses, i, later);
    SpanBound(beats, interval, delay, losses, i, next);
    LateArrival(beats, interval, delay, losses, i, next);
    MulMonotone(next - i, losses + 1, interval);
  }

  lemma ArrivalWithin(beats: seq<Beat>, interval: int, delay: int, losses: nat, i: nat, later: nat) returns (next: nat)
    requires Regular(beats, interval, delay, losses) && i < later < |beats| && beats[later].handled.Some?
    ensures i < next <= later && next - i <= losses + 1 && beats[next].handled.Some?
  {
    next := later;
    if i + 1 + losses < later {
      assert OneArrives(beats, i + 1, losses);
      next :| i + 1 <= next < |beats| && next <= i + 1 + losses && beats[next].handled.Some?;
    }
  }

  lemma SpanBound(beats: seq<Beat>, interval: int, delay: int, losses: nat, i: nat, j: nat)
    requires Regular(beats, interval, delay, losses) && i < j < |beats|
    ensures beats[j].sent <= beats[i].sent + (j - i) * interval
  {
    SentApart(beats, interval, i, j);
  }

  lemma LateArrival(beats: seq<Beat>, interval: int, delay: int, losses: nat, i: nat, j: nat)
    requires Regular(beats, interval, delay, losses) && i < j < |beats|
    requires beats[i].handled.Some? && beats[j].handled.Some?
    ensures beats[j].handled.value <= beats[j].sent + delay && beats[i].sent <= beats[i].handled.value
  {
  }

  lemma MulMonotone(a: int, b: int, c: int)
    requires a <= b && 0 <= c
    ensures a * c <= b * c
  {
  }

  /**
    Once heartbeats stop, and whatever else is handled, the instance is down from strictly after
    its last heartbeat plus three intervals, and not before.
   */
  lemma DownAfterTimeout(st: State, run: seq<Op>, key: Key, now: Time)
    requires HasInstance(st.services, key) && StaysRegistered(run, key, IntervalOf(st, key)) && HeardIn(run, key) != []
    ensures var next, heard := ExecFrom(st, run), HeardIn(run, key);
            && HasInstance(next.services, key)
            && (StatusOf(next, key, now) == Down <==>
                  now > heard[|heard| - 1] + 3 * IntervalOf(st, key))
  {
    hide ExecFrom;
    Remembered(st, run, key, IntervalOf(st, key));
  }

  // ---------------------------------------------------------------------------------------------
  // The monitor
  // ---------------------------------------------------------------------------------------------

  /** Every publication of the run is accepted. */
  predicate Accepted(run: seq<Op>) {
    forall op | op in run :: Accepts(op)
  }

  lemma {:induction false} AcceptedStaysInSync(st: State, run: seq<Op>)
    requires InSync(st) && AllTracked(st) && Accepted(run)
    ensures InSync(ExecFrom(st, run)) && AllTracked(ExecFrom(st, run))
  {
    hide Apply, InSync, AllTracked;
    if |run| > 0 {
      AcceptedStaysInSync(st, run[..|run| - 1]);
      ApplySync(ExecFrom(st, run[..|run| - 1]), run[|run| - 1]);
    }
  }

  /** The instance is late at the time since, and known to be down. */
  ghost predicate KnownDown(st: State, key: Key, since: Time) {
    && HasInstance(st.services, key) && Tracked(st, key) == Some(Down)
    && (forall now | now >= since :: StatusOf(st, key, now) == Down)
  }

  lemma {:induction false} RefreshAllStaysDown(st: State, order: seq<Key>, key: Key, now: Time, published: bool)
    requires HasInstance(st.services, key) && Tracked(st, key) == Some(Down) && StatusOf(st, key, now) == Down
    ensures Tracked(RefreshAll(st, order, now, published), key) == Some(Down)
    decreases |order|
  {
    if |order| > 0 {
      RefreshFrame(st, order[0], None, now, published);
      RefreshAllStaysDown(Refresh(st, order[0], None, now, published), order[1..], key, now, published);
    }
  }

  /** A step that is not about the instance leaves its tracked status alone, and a registration sets it to down. */
  lemma StepKeepsTracked(st: State, op: Op, key: Key)
    requires !op.DoRefreshAll? && !Beats(op, key) && (op.DoUnregister? ==> op.key != key)
    requires Tracked(st, key) == Some(Down)
    ensures Tracked(Apply(st, op), key) == Some(Down)
  {
    hide WithDegraded, StatusOf, WithInstance, WithoutInstance;
    if op.DoHeartbeat? {
      DegradedOnly(st, op.key, op.degraded, op.reason);
    }
  }

  /** Nothing but its own heartbeat or unregistration ends that, when no refresh comes before since. */
  lemma StepStaysDown(st: State, op: Op, key: Key, since: Time)
    requires KnownDown(st, key, since) && !Beats(op, key) && Keeps(op, key, IntervalOf(st, key))
    requires op.DoRefreshAll? ==> op.now >= since
    ensures KnownDown(Apply(st, op), key, since)
  {
    hide Apply;
    StepHears(st, op, key, IntervalOf(st, key));
    var next := Apply(st, op);
    forall now | now >= since ensures StatusOf(next, key, now) == Down {
      assert StatusOf(st, key, now) == Down;
    }
    if op.DoRefreshAll? {
      RefreshAllStaysDown(st, op.order, key, op.now, op.published);
      AppliedPass(st, op);
    } else {
      StepKeepsTracked(st, op, key);
    }
  }

  lemma AppliedPass(st: State, op: Op)
    requires op.DoRefreshAll?
    ensures Apply(st, op) == RefreshAll(st, op.order, op.now, op.published)
  {
  }

  /** The n-th step is a monitor pass over key less than a period before end; no later pass is dated earlier. */
  ghost predicate PassAt(run: seq<Op>, key: Key, end: Time, n: nat) {
    && n < |run| && run[n].DoRefreshAll? && key in run[n].order && end < run[n].now + MONITOR_PERIOD
    && forall j | n < j < |run| && run[j].DoRefreshAll? :: run[j].now >= run[n].now
  }

  lemma {:induction false} StaysDownAfter(st: State, run: seq<Op>, key: Key, n: nat, since: Time)
    requires HasInstance(st.services, key) && StaysRegistered(run, key, IntervalOf(st, key))
    requires n <= |run| && KnownDown(ExecFrom(st, run[..n]), key, since)
    requires forall j | n <= j < |run| :: !Beats(run[j], key)
    requires forall j | n <= j < |run| && run[j].DoRefreshAll? :: run[j].now >= since
    ensures KnownDown(ExecFrom(st, run), key, since)
    decreases |run|
  {
    hide Apply, KnownDown, Beats;
    assert run[..|run|] == run;
    if n < |run| {
      var init := run[..|run| - 1];
      assert init[..n] == run[..n];
      StaysDownAfter(st, init, key, n, since);
      Remembered(st, init, key, IntervalOf(st, key));
      StepStaysDown(ExecFrom(st, init), run[|run| - 1], key, since);
    }
  }

  /**
    With a monitor pass at least every five seconds, an instance that stopped beating has been
    published as down five seconds after three intervals without a heartbeat: whatever else was
    handled meanwhile, every subscriber holds it as down.
   */
  lemma DownPublishedInTime(st: State, run: seq<Op>, key: Key, end: Time, n: nat)
    requires InSync(st) && AllTracked(st) && Accepted(run)
    requires HasInstance(st.services, key) && key in st.heartbeats
    requires StaysRegistered(run, key, IntervalOf(st, key)) && HeardIn(run, key) == [] && PassAt(run, key, end, n)
    requires end >= st.heartbeats[key] + 3 * IntervalOf(st, key) + MONITOR_PERIOD
    ensures var next := ExecFrom(st, run);
            key in Fold(next.stream) && Fold(next.stream)[key] == Down
  {
    hide Apply, Fold;
    NoBeats(run, key);
    var pass := run[n];
    HeardPrefix(run, key, n);
    Remembered(st, run[..n], key, IntervalOf(st, key));
    var before := ExecFrom(st, run[..n]);
    assert run[..n + 1][..n] == run[..n];
    assert pass in run && Accepts(pass);
    PassFindsDown(before, pass, key);
    StaysDownAfter(st, run, key, n + 1, pass.now);
    AcceptedStaysInSync(st, run);
  }

  lemma PassFindsDown(st: State, pass: Op, key: Key)
    requires pass.DoRefreshAll? && pass.published && key in pass.order
    requires HasInstance(st.services, key) && StatusOf(st, key, pass.now) == Down
    ensures KnownDown(Apply(st, pass), key, pass.now)
  {
    PassTracksAll(st, pass.order, pass.now);
    RefreshAllFrame(st, pass.order, pass.now, true);
    var next := Apply(st, pass);
    forall now | now >= pass.now ensures StatusOf(next, key, now) == Down {
      assert next.services == st.services && next.heartbeats == st.heartbeats;
    }
  }

  lemma {:induction false} NoBeats(run: seq<Op>, key: Key)
    requires HeardIn(run, key) == []
    ensures forall j | 0 <= j < |run| :: !Beats(run[j], key)
  {
    if |run| > 0 {
      NoBeats(run[..|run| - 1], key);
    }
  }

  lemma {:induction false} HeardPrefix(run: seq<Op>, key: Key, n: nat)
    requires HeardIn(run, key) == [] && n <= |run|
    ensures HeardIn(run[..n], key) == []
    decreases |run| - n
  {
    assert run[..|run|] == run;
    if n < |run| {
      HeardPrefix(run, key, n + 1);
      assert run[..n + 1][..n] == run[..n];
    }
  }
}
