/**
  What the registry knows about one instance, told by the messages of that instance alone: the
  registry keeps all instances in common lists and dictionaries, but each one is seen as if it were
  the only one.
 */
module RegistryHistory {
  import opened Wrappers
  import opened RegistryState
  import opened RegistryServer

  /** What the messages of one instance said, latest first. */
  datatype Told = Told(registration: Option<Registration>, beat: Option<Time>, degraded: bool, reason: Option<string>)

  const UNHEARD := Told(None, None, false, None)

  /** A heartbeat counts only while the instance is registered; a reason lasts as long as the instance is degraded. */
  function Hear(t: Told, op: Op, key: Key): Told {
    match op
    case DoRegister(k, registration, _) => if k == key then t.(registration := Some(registration)) else t
    case DoUnregister(k, _) => if k == key then t.(registration := None) else t
    case DoHeartbeat(k, degraded, reason, now, _, _) =>
      if k != key || t.registration.None? then t
      else
        var given := if reason.Some? && reason.value != "" then reason else t.reason;
        t.(beat := Some(now), degraded := degraded, reason := if degraded then given else None)
    case _ => t
  }

  function History(run: seq<Op>, key: Key): Told {
    if |run| == 0 then UNHEARD else Hear(History(run[..|run| - 1], key), run[|run| - 1], key)
  }

  /** The nested dictionary holds the registration of the instance. */
  ghost predicate AgreesRegistration(services: Services, registration: Option<Registration>, key: Key) {
    && (HasInstance(services, key) <==> registration.Some?)
    && (registration.Some? ==> services[key.service][key.instance] == registration.value)
  }

  ghost predicate AgreesBeat(st: State, t: Told, key: Key) {
    && (key in st.heartbeats <==> t.beat.Some?)
    && (t.beat.Some? ==> st.heartbeats[key] == t.beat.value)
    && (key in st.degraded <==> t.degraded)
    && (key in st.reasons <==> t.reason.Some?)
    && (t.reason.Some? ==> st.reasons[key] == t.reason.value)
  }

  /** The registry holds about the instance what its messages said. */
  ghost predicate Agrees(st: State, t: Told, key: Key) {
    AgreesRegistration(st.services, t.registration, key) && AgreesBeat(st, t, key)
  }

  lemma RegisterTold(services: Services, k: Key, registration: Registration, was: Option<Registration>, key: Key)
    requires AgreesRegistration(services, was, key)
    ensures var now := if k == key then Some(registration) else was;
            AgreesRegistration(WithInstance(services, k, registration), now, key)
  {
  }

  lemma UnregisterTold(services: Services, k: Key, was: Option<Registration>, key: Key)
    requires AgreesRegistration(services, was, key) && HasInstance(services, k)
    ensures AgreesRegistration(WithoutInstance(services, k), if k == key then None else was, key)
  {
    if k.service == key.service {
      var instances := services[k.service] - {k.instance};
      assert key.instance in instances <==> key.instance in services[k.service] && key != k;
    }
  }

  lemma ServicesTold(st: State, op: Op, t: Told, key: Key)
    requires Agrees(st, t, key) && (op.DoRegister? || op.DoRegisterUnhashable? || op.DoUnregister?)
    ensures Agrees(Apply(st, op), Hear(t, op, key), key)
  {
    hide WithInstance, WithoutInstance;
    match op
    case DoRegister(k, registration, _) => RegisterTold(st.services, k, registration, t.registration, key);
    case DoUnregister(k, _) =>
      if HasInstance(st.services, k) {
        UnregisterTold(st.services, k, t.registration, key);
      }
    case _ =>
  }

  lemma DegradedTold(st: State, degraded: bool, reason: Option<string>, key: Key)
    requires WellFormed(st)
    ensures var next := WithDegraded(st, key, degraded, reason);
            && (key in next.degraded <==> degraded)
            && (degraded && reason.Some? && reason.value != "" ==> next.reasons == st.reasons[key := reason.value])
            && (degraded && !(reason.Some? && reason.value != "") ==> next.reasons == st.reasons)
            && (!degraded ==> next.reasons == st.reasons - {key})
            && forall k | k != key :: k in next.degraded <==> k in st.degraded
  {
    hide RemoveFirst;
    RemoveFirstMembers(st.degraded, key);
  }

  lemma OwnBeatTold(st: State, op: Op, t: Told)
    requires op.DoHeartbeat? && AgreesBeat(st, t, op.key) && WellFormed(st) && t.registration.Some?
    ensures AgreesBeat(Stored(st, op.key, op.degraded, op.reason, op.now), Hear(t, op, op.key), op.key)
  {
    hide WithDegraded, WellFormed;
    DegradedOnly(st, op.key, op.degraded, op.reason);
    DegradedTold(st, op.degraded, op.reason, op.key);
  }

  lemma OtherBeatTold(st: State, op: Op, t: Told, key: Key)
    requires op.DoHeartbeat? && op.key != key && AgreesBeat(st, t, key) && WellFormed(st)
    ensures AgreesBeat(Stored(st, op.key, op.degraded, op.reason, op.now), t, key)
  {
    hide WithDegraded, WellFormed;
    DegradedOnly(st, op.key, op.degraded, op.reason);
    DegradedTold(st, op.degraded, op.reason, op.key);
  }

  lemma BeatTold(st: State, op: Op, t: Told, key: Key)
    requires Agrees(st, t, key) && WellFormed(st) && op.DoHeartbeat?
    ensures Agrees(Apply(st, op), Hear(t, op, key), key)
  {
    hide Refresh, WithDegraded, WellFormed;
    if HasInstance(st.services, op.key) {
      var stored := Stored(st, op.key, op.degraded, op.reason, op.now);
      RefreshFrame(stored, op.key, if op.degraded then op.reason else None, op.now, op.published);
      DegradedOnly(st, op.key, op.degraded, op.reason);
      if op.key == key {
        OwnBeatTold(st, op, t);
      } else {
        OtherBeatTold(st, op, t, key);
      }
    }
  }

  lemma StepTold(st: State, op: Op, t: Told, key: Key)
    requires Agrees(st, t, key) && WellFormed(st)
    ensures Agrees(Apply(st, op), Hear(t, op, key), key)
  {
    hide Agrees, WellFormed;
    match op
    case DoHeartbeat(_, _, _, _, _, _) => BeatTold(st, op, t, key);
    case DoRefreshAll(order, now, published) => PassTold(st, op, t, key);
    case _ => ServicesTold(st, op, t, key);
  }

  lemma PassTold(st: State, op: Op, t: Told, key: Key)
    requires Agrees(st, t, key) && op.DoRefreshAll?
    ensures Agrees(Apply(st, op), Hear(t, op, key), key)
  {
    hide RefreshAll;
    RefreshAllFrame(st, op.order, op.now, op.published);
  }

  /** Over every run, whatever the messages of all other instances are. */
  lemma {:induction false} RegistryHoldsHistory(run: seq<Op>, key: Key)
    ensures Agrees(Exec(run), History(run, key), key)
  {
    hide Agrees, Apply, Hear;
    if |run| == 0 {
      NothingHeard(key);
    } else {
      var init := run[..|run| - 1];
      RegistryHoldsHistory(init, key);
      ReachableWellFormed(init);
      StepTold(Exec(init), run[|run| - 1], History(init, key), key);
    }
  }

  lemma NothingHeard(key: Key)
    ensures Agrees(Exec([]), History([], key), key)
  {
  }

  // ---------------------------------------------------------------------------------------------
  // Status and row
  // ---------------------------------------------------------------------------------------------

  /** The heartbeat is older than three of the intervals the instance registered with, ten seconds if it gave none. */
  predicate Late(t: Told, now: Time)
    requires t.registration.Some? && t.beat.Some?
  {
    var seconds := match t.registration.value.heartbeatInterval case Some(s) => s case None => 10;
    now - t.beat.value > 3 * seconds * 1_000_000
  }

  /**
    Over every run a registered instance is down exactly when no heartbeat of it was heard or the last
    one is late, and otherwise degraded exactly when the last one said so. Its row shows the time of
    that heartbeat and the last reason given since the instance was not degraded.
   */
  lemma StatusTold(run: seq<Op>, key: Key, now: Time)
    ensures var t := History(run, key);
            && (HasInstance(Exec(run).services, key) <==> t.registration.Some?)
            && (t.registration.Some? ==>
                  ShownOf(Exec(run), key, now) ==
                  Shown(if t.beat.None? || Late(t, now) then Down else if t.degraded then Degraded else Active,
                        t.beat, t.reason, t.registration.value))
  {
    RegistryHoldsHistory(run, key);
    ReachableWellFormed(run);
  }

  // ---------------------------------------------------------------------------------------------
  // Asked to register again
  // ---------------------------------------------------------------------------------------------

  /** A heartbeat of an instance that is not registered, after the grace period, whose answer is accepted. */
  predicate AsksAgain(before: seq<Op>, op: Op, key: Key) {
    Beats(op, key) && History(before, key).registration.None? && !op.inGrace && op.published
  }

  function AskedAgain(run: seq<Op>): seq<Key> {
    if |run| == 0 then []
    else
      var init, op := run[..|run| - 1], run[|run| - 1];
      AskedAgain(init) + if op.DoHeartbeat? && AsksAgain(init, op, op.key) then [op.key] else []
  }

  /**
    Over every run, each such heartbeat asks its instance once to register again, in their order; and
    nothing else asks.
   */
  lemma {:induction false} RegisterAgainAsked(run: seq<Op>, key: Key)
    ensures Exec(run).registerAgain == AskedAgain(run)
    ensures key in Exec(run).registerAgain <==>
            exists i :: 0 <= i < |run| && AsksAgain(run[..i], run[i], key)
  {
    hide AsksAgain, Apply;
    if |run| > 0 {
      var init, op := run[..|run| - 1], run[|run| - 1];
      RegisterAgainAsked(init, key);
      AsksStep(init, op);
      assert forall i | 0 <= i < |init| :: init[..i] == run[..i] && init[i] == run[i];
      if i :| 0 <= i < |init| && AsksAgain(init[..i], init[i], key) {
        assert AsksAgain(run[..i], run[i], key);
      }
      assert init == run[..|init|];
      AsksItself(init, op, key);
    }
  }

  lemma AsksStep(init: seq<Op>, op: Op)
    ensures Apply(Exec(init), op).registerAgain ==
            Exec(init).registerAgain + if op.DoHeartbeat? && AsksAgain(init, op, op.key) then [op.key] else []
  {
    hide Exec, History, Refresh, RefreshAll, WithDegraded;
    var st := Exec(init);
    match op
    case DoHeartbeat(key, degraded, reason, now, _, published) =>
      RegistryHoldsHistory(init, key);
      DegradedOnly(st, key, degraded, reason);
      RefreshFrame(Stored(st, key, degraded, reason, now), key, if degraded then reason else None, now, published);
    case DoRefreshAll(order, now, published) => RefreshAllFrame(st, order, now, published);
    case _ =>
  }

  lemma AsksItself(init: seq<Op>, op: Op, key: Key)
    ensures AsksAgain(init, op, key) ==> op.DoHeartbeat? && op.key == key
  {
  }

  // ---------------------------------------------------------------------------------------------
  // Who is there
  // ---------------------------------------------------------------------------------------------

  ghost predicate OnlyRegistered(st: State) {
    forall key | key in st.tracked :: HasInstance(st.services, key)
  }

  lemma ServicesStepTracks(st: State, op: Op)
    requires OnlyRegistered(st) && Accepts(op) && (op.DoRegister? || op.DoRegisterUnhashable? || op.DoUnregister?)
    ensures OnlyRegistered(Apply(st, op))
  {
    hide WithInstance, WithoutInstance;
    var next := Apply(st, op);
    match op
    case DoRegister(key, registration, _) =>
      forall k | k in next.tracked ensures HasInstance(next.services, k) {
        InstancesChange(st.services, key, registration, k);
      }
    case DoUnregister(key, _) =>
      if HasInstance(st.services, key) {
        forall k | k in next.tracked ensures HasInstance(next.services, k) {
          InstancesChange(st.services, key, st.services[key.service][key.instance], k);
        }
      }
    case _ =>
  }

  lemma RefreshTracks(st: State, key: Key, reason: Option<string>, now: Time, published: bool)
    requires OnlyRegistered(st)
    ensures OnlyRegistered(Refresh(st, key, reason, now, published))
  {
  }

  lemma {:induction false} PassTracks(st: State, order: seq<Key>, now: Time, published: bool)
    requires OnlyRegistered(st)
    ensures OnlyRegistered(RefreshAll(st, order, now, published))
    decreases |order|
  {
    hide Refresh, OnlyRegistered;
    if |order| > 0 {
      RefreshTracks(st, order[0], None, now, published);
      PassTracks(Refresh(st, order[0], None, now, published), order[1..], now, published);
    }
  }

  lemma {:induction false} TrackedAreRegistered(run: seq<Op>)
    requires forall i | 0 <= i < |run| :: Accepts(run[i])
    ensures OnlyRegistered(Exec(run))
  {
    hide Refresh, RefreshAll, WithDegraded;
    if |run| > 0 {
      var st, op := Exec(run[..|run| - 1]), run[|run| - 1];
      TrackedAreRegistered(run[..|run| - 1]);
      match op
      case DoHeartbeat(key, degraded, reason, now, _, published) =>
        DegradedOnly(st, key, degraded, reason);
        RefreshTracks(Stored(st, key, degraded, reason, now), key, if degraded then reason else None, now, published);
      case DoRefreshAll(order, now, published) => PassTracks(st, order, now, published);
      case _ => ServicesStepTracks(st, op);
    }
  }

  /** When every publication is accepted, the stream tells its subscribers of exactly the registered instances. */
  lemma StreamTellsWhoIsThere(run: seq<Op>, key: Key)
    requires forall i | 0 <= i < |run| :: Accepts(run[i])
    ensures key in Fold(Exec(run).stream) <==> History(run, key).registration.Some?
  {
    hide Exec, Fold, History;
    SubscriberInSync(run);
    TrackedAreRegistered(run);
    RegistryHoldsHistory(run, key);
  }

  // ---------------------------------------------------------------------------------------------
  // What a heartbeat announces
  // ---------------------------------------------------------------------------------------------

  /**
    A heartbeat of a tracked instance announces at once the status it brings, once, with the reason it
    gave if it is degraded; and nothing when the status stays.
   */
  lemma HeartbeatAnnounces(st: State, key: Key, degraded: bool, reason: Option<string>, now: Time, inGrace: bool)
    requires WellFormed(st) && HasInstance(st.services, key) && key in st.tracked
    ensures var after := StoreHeartbeat(st, key, degraded, reason, now, inGrace, true);
            var negative := Timeout(st.services[key.service][key.instance]) < 0;
            var next := if negative then Down else if degraded then Degraded else Active;
            && after.tracked == st.tracked[key := next]
            && after.stream == st.stream +
                               if st.tracked[key] == next then []
                               else [StatusChanged(key, st.tracked[key], next, if next.Degraded? then reason else None)]
  {
    RemoveFirstMembers(st.degraded, key);
    var stored := Stored(st, key, degraded, reason, now);
    assert key in stored.degraded <==> degraded;
    assert st.tracked[key := st.tracked[key]] == st.tracked;
  }
}
