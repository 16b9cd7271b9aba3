/**
  The state of the fleet registry and what its handlers do to it, one handler at a time:
  kontiki/registry/server/core.py, delegates/registry.py and delegates/heartbeat_manager.py.
  published tells whether the broker accepts what the handler publishes.
 */
module RegistryState {
  import opened Wrappers

  /** Microseconds since the epoch. */
  type Time = int

  const SECOND: int := 1_000_000
  const DEFAULT_HEARTBEAT_INTERVAL: int := 10
  const TIMEOUT_FACTOR: int := 3

  datatype Status = Active | Degraded | Down

  datatype Key = Key(service: string, instance: string)

  datatype Entrypoint = Entrypoint(kind: string, name: string, mode: Option<string>)

  /** The fields of a registration the registry reads itself; intervals are in seconds. */
  datatype Registration = Registration(heartbeatInterval: Option<int>, entrypoints: Option<seq<Entrypoint>>)

  type Services = map<string, map<string, Registration>>

  datatype Event =
    | Registered(key: Key)
    | Deregistered(key: Key)
    | StatusChanged(key: Key, previous: Status, next: Status, reason: Option<string>)

  datatype State = State(
    services: Services,
    heartbeats: map<Key, Time>,
    degraded: seq<Key>,
    reasons: map<Key, string>,
    tracked: map<Key, Status>,
    stream: seq<Event>,
    registerAgain: seq<Key>)

  const Initial := State(map[], map[], [], map[], map[], [], [])

  predicate HasInstance(services: Services, key: Key) {
    key.service in services && key.instance in services[key.service]
  }

  function Timeout(registration: Registration): int {
    var interval := if registration.heartbeatInterval.Some? then registration.heartbeatInterval.value
                    else DEFAULT_HEARTBEAT_INTERVAL;
    interval * TIMEOUT_FACTOR * SECOND
  }

  /** _get_instance_status at the time now. */
  function StatusOf(st: State, key: Key, now: Time): Status
    requires HasInstance(st.services, key)
  {
    if key !in st.heartbeats then Down
    else if now - st.heartbeats[key] > Timeout(st.services[key.service][key.instance]) then Down
    else if key in st.degraded then Degraded
    else Active
  }

  // ---------------------------------------------------------------------------------------------
  // Handlers
  // ---------------------------------------------------------------------------------------------

  function WithInstance(services: Services, key: Key, registration: Registration): Services {
    var instances := if key.service in services then services[key.service] else map[];
    services[key.service := instances[key.instance := registration]]
  }

  /** The services without one instance; a service without instances is removed. */
  function WithoutInstance(services: Services, key: Key): Services
    requires HasInstance(services, key)
  {
    var instances := services[key.service] - {key.instance};
    if instances == map[] then services - {key.service} else services[key.service := instances]
  }

  /** The instance is stored before the event is published, and tracked after. */
  function Register(st: State, key: Key, registration: Registration, published: bool): State {
    var stored := st.(services := WithInstance(st.services, key, registration));
    if published then stored.(stream := st.stream + [Registered(key)], tracked := st.tracked[key := Down])
    else stored
  }

  /**
    A registration whose instance id cannot be a dictionary key: looking the service up in the
    defaultdict creates its entry before the assignment raises.
   */
  function RegisterUnhashable(st: State, service: string): State {
    if service in st.services then st else st.(services := st.services[service := map[]])
  }

  function Unregister(st: State, key: Key, published: bool): State {
    if !HasInstance(st.services, key) then st
    else
      var removed := st.(services := WithoutInstance(st.services, key));
      if published then removed.(stream := st.stream + [Deregistered(key)], tracked := st.tracked - {key})
      else removed
  }

  function Tracked(st: State, key: Key): Option<Status> {
    if key in st.tracked then Some(st.tracked[key]) else None
  }

  /** The refresh would publish a status change. */
  predicate Announces(st: State, key: Key, now: Time) {
    HasInstance(st.services, key) && key in st.tracked && st.tracked[key] != StatusOf(st, key, now)
  }

  /** refresh_instance_status: the new status is tracked before the change is published. */
  function Refresh(st: State, key: Key, reason: Option<string>, now: Time, published: bool): State {
    if !HasInstance(st.services, key) then st
    else
      var next := StatusOf(st, key, now);
      if Tracked(st, key) == Some(next) then st
      else
        var tracking := st.(tracked := st.tracked[key := next]);
        if key !in st.tracked || !published then tracking
        else tracking.(stream := st.stream +
                       [StatusChanged(key, st.tracked[key], next, if next.Degraded? then reason else None)])
  }

  /** refresh_all_instance_statuses in the order of the nested dictionary; a failed publish ends the pass. */
  function RefreshAll(st: State, order: seq<Key>, now: Time, published: bool): State
    decreases |order|
  {
    if |order| == 0 then st
    else
      var next := Refresh(st, order[0], None, now, published);
      if Announces(st, order[0], now) && !published then next
      else RefreshAll(next, order[1..], now, published)
  }

  /** list.remove: the first occurrence only. */
  function RemoveFirst(keys: seq<Key>, key: Key): seq<Key> {
    if |keys| == 0 then [] else if keys[0] == key then keys[1..] else [keys[0]] + RemoveFirst(keys[1..], key)
  }

  function WithDegraded(st: State, key: Key, degraded: bool, reason: Option<string>): State {
    if degraded then
      st.(degraded := if key in st.degraded then st.degraded else st.degraded + [key],
          reasons := if reason.Some? && reason.value != "" then st.reasons[key := reason.value] else st.reasons)
    else
      st.(degraded := if key in st.degraded then RemoveFirst(st.degraded, key) else st.degraded,
          reasons := st.reasons - {key})
  }

  /** The state that a handled heartbeat refreshes. */
  function Stored(st: State, key: Key, degraded: bool, reason: Option<string>, now: Time): State {
    WithDegraded(st, key, degraded, reason).(heartbeats := st.heartbeats[key := now])
  }

  /** store_heartbeat; an unknown instance is asked to register again once the grace period is over. */
  function StoreHeartbeat(st: State, key: Key, degraded: bool, reason: Option<string>, now: Time,
                          inGrace: bool, published: bool): State
  {
    if HasInstance(st.services, key) then
      Refresh(Stored(st, key, degraded, reason, now), key, if degraded then reason else None, now, published)
    else if inGrace || !published then st
    else st.(registerAgain := st.registerAgain + [key])
  }

  // ---------------------------------------------------------------------------------------------
  // Runs
  // ---------------------------------------------------------------------------------------------

  datatype Op =
    | DoRegister(key: Key, registration: Registration, published: bool)
    | DoRegisterUnhashable(service: string)
    | DoUnregister(key: Key, published: bool)
    | DoHeartbeat(key: Key, degraded: bool, reason: Option<string>, now: Time, inGrace: bool, published: bool)
    | DoRefreshAll(order: seq<Key>, now: Time, published: bool)

  function Apply(st: State, op: Op): State {
    match op
    case DoRegister(key, registration, published) => Register(st, key, registration, published)
    case DoRegisterUnhashable(service) => RegisterUnhashable(st, service)
    case DoUnregister(key, published) => Unregister(st, key, published)
    case DoHeartbeat(key, degraded, reason, now, inGrace, published) =>
      StoreHeartbeat(st, key, degraded, reason, now, inGrace, published)
    case DoRefreshAll(order, now, published) => RefreshAll(st, order, now, published)
  }

  function Exec(run: seq<Op>): State {
    if |run| == 0 then Initial else Apply(Exec(run[..|run| - 1]), run[|run| - 1])
  }

  // ---------------------------------------------------------------------------------------------
  // The event stream
  // ---------------------------------------------------------------------------------------------

  /** What a subscriber knows after the stream: registered is down, a change gives the new status. */
  function Fold(stream: seq<Event>): map<Key, Status> {
    if |stream| == 0 then map[]
    else
      var before := Fold(stream[..|stream| - 1]);
      match stream[|stream| - 1]
      case Registered(key) => before[key := Down]
      case Deregistered(key) => before - {key}
      case StatusChanged(key, _, next, _) => before[key := next]
  }

  /** Every status change starts from what the subscriber knew, and is a change. */
  ghost predicate TrueChanges(stream: seq<Event>) {
    forall i | 0 <= i < |stream| && stream[i].StatusChanged? ::
      var e := stream[i];
      e.key in Fold(stream[..i]) && Fold(stream[..i])[e.key] == e.previous && e.next != e.previous
  }

  ghost predicate InSync(st: State) {
    Fold(st.stream) == st.tracked && TrueChanges(st.stream)
  }

  ghost predicate AllTracked(st: State) {
    forall key | HasInstance(st.services, key) :: key in st.tracked
  }

  lemma StreamGrows(st: State, e: Event, next: State)
    requires InSync(st) && next.stream == st.stream + [e]
    requires next.tracked == match e
             case Registered(key) => st.tracked[key := Down]
             case Deregistered(key) => st.tracked - {key}
             case StatusChanged(key, _, status, _) => st.tracked[key := status]
    requires e.StatusChanged? ==> Tracked(st, e.key) == Some(e.previous) && e.next != e.previous
    ensures InSync(next)
  {
    var longer := next.stream;
    assert longer[..|longer| - 1] == st.stream;
    forall i | 0 <= i < |longer| && longer[i].StatusChanged?
      ensures longer[i].key in Fold(longer[..i]) && Fold(longer[..i])[longer[i].key] == longer[i].previous
      ensures longer[i].next != longer[i].previous
    {
      assert longer[..i] == st.stream[..i];
    }
  }

  /** A refresh parts the subscriber from the tracked statuses: the change is tracked but not published. */
  predicate RefreshParts(st: State, key: Key, now: Time, published: bool) {
    (HasInstance(st.services, key) && key !in st.tracked) || (Announces(st, key, now) && !published)
  }

  /** The same for a pass: one of the refreshes up to its end parts them. */
  predicate PassParts(st: State, order: seq<Key>, now: Time, published: bool)
    decreases |order|
  {
    |order| > 0 &&
    (RefreshParts(st, order[0], now, published) ||
     PassParts(Refresh(st, order[0], None, now, published), order[1..], now, published))
  }

  /** Which steps part the subscriber from the tracked statuses: no registration, lost or not, does. */
  predicate Parts(st: State, op: Op) {
    match op
    case DoHeartbeat(key, degraded, reason, now, _, published) =>
      HasInstance(st.services, key) && RefreshParts(Stored(st, key, degraded, reason, now), key, now, published)
    case DoRefreshAll(order, now, published) => PassParts(st, order, now, published)
    case _ => false
  }

  /** A refresh keeps the subscriber in step if and only if it does not part them. */
  lemma RefreshSync(st: State, key: Key, reason: Option<string>, now: Time, published: bool)
    requires InSync(st)
    ensures InSync(Refresh(st, key, reason, now, published)) <==> !RefreshParts(st, key, now, published)
  {
    var next := Refresh(st, key, reason, now, published);
    if Announces(st, key, now) && published {
      StreamGrows(st, next.stream[|st.stream|], next);
    }
  }

  /** An instance that was tracked without the subscriber's knowledge stays so to the end of the pass. */
  lemma {:induction false} UnknownStaysUnknown(st: State, order: seq<Key>, key: Key, now: Time, published: bool)
    requires HasInstance(st.services, key) && Tracked(st, key) == Some(StatusOf(st, key, now))
    requires key !in Fold(st.stream)
    ensures var next := RefreshAll(st, order, now, published); key in next.tracked && key !in Fold(next.stream)
    decreases |order|
  {
    hide StatusOf;
    if |order| > 0 {
      var next := Refresh(st, order[0], None, now, published);
      RefreshFrame(st, order[0], None, now, published);
      SameStatus(st, next, key, now);
      assert next.stream == st.stream || next.stream[..|next.stream| - 1] == st.stream;
      UnknownStaysUnknown(next, order[1..], key, now, published);
    }
  }

  lemma SameStatus(st: State, next: State, key: Key, now: Time)
    requires HasInstance(st.services, key) && next.services == st.services
    requires next.heartbeats == st.heartbeats && next.degraded == st.degraded
    ensures StatusOf(next, key, now) == StatusOf(st, key, now)
  {
  }

  lemma {:induction false} PassSync(st: State, order: seq<Key>, now: Time, published: bool)
    requires InSync(st)
    ensures InSync(RefreshAll(st, order, now, published)) <==> !PassParts(st, order, now, published)
    decreases |order|
  {
    hide StatusOf, InSync, Announces;
    if |order| > 0 {
      var key, next := order[0], Refresh(st, order[0], None, now, published);
      RefreshSync(st, key, None, now, published);
      if !RefreshParts(st, key, now, published) {
        PassSync(next, order[1..], now, published);
      } else if !(Announces(st, key, now) && !published) {
        FirstTracked(st, key, now, published);
        UnknownStaysUnknown(next, order[1..], key, now, published);
        InSyncKnows(RefreshAll(st, order, now, published), key);
      }
    }
  }

  /** A refresh of an untracked instance tracks it and tells nobody. */
  lemma FirstTracked(st: State, key: Key, now: Time, published: bool)
    requires InSync(st) && HasInstance(st.services, key) && key !in st.tracked
    ensures var next := Refresh(st, key, None, now, published);
            && HasInstance(next.services, key) && Tracked(next, key) == Some(StatusOf(next, key, now))
            && key !in Fold(next.stream)
  {
  }

  lemma InSyncKnows(st: State, key: Key)
    requires key in st.tracked && key !in Fold(st.stream)
    ensures !InSync(st)
  {
  }

  /** For every handler: the subscriber stays in step if and only if the handler does not part them. */
  lemma StepSync(st: State, op: Op)
    requires InSync(st)
    ensures InSync(Apply(st, op)) <==> !Parts(st, op)
  {
    hide Refresh, RefreshAll, WithDegraded, PassParts, RefreshParts;
    match op
    case DoRegister(key, _, published) =>
      if published {
        StreamGrows(st, Registered(key), Apply(st, op));
      }
    case DoRegisterUnhashable(_) =>
    case DoUnregister(key, published) =>
      if HasInstance(st.services, key) && published {
        StreamGrows(st, Deregistered(key), Apply(st, op));
      }
    case DoHeartbeat(key, degraded, reason, now, _, published) =>
      if HasInstance(st.services, key) {
        DegradedOnly(st, key, degraded, reason);
        RefreshSync(Stored(st, key, degraded, reason, now), key, if degraded then reason else None, now, published);
      }
    case DoRefreshAll(order, now, published) =>
      PassSync(st, order, now, published);
  }

  lemma {:induction false} StaysInStep(run: seq<Op>, n: nat)
    requires n <= |run| && forall i | 0 <= i < n :: !Parts(Exec(run[..i]), run[i])
    ensures InSync(Exec(run[..n]))
  {
    hide InSync, Parts, Apply;
    if n == 0 {
      StartsInSync();
    } else {
      StaysInStep(run, n - 1);
      assert run[..n][..n - 1] == run[..n - 1];
      StepSync(Exec(run[..n - 1]), run[n - 1]);
    }
  }

  /**
    Over every run, whatever is published or lost: the subscriber holds exactly the tracked statuses
    at every moment, and saw only true changes, if and only if no step parted them.
   */
  lemma InStepThroughout(run: seq<Op>)
    ensures (forall n | 0 <= n <= |run| :: InSync(Exec(run[..n]))) <==>
            (forall n | 0 <= n < |run| :: !Parts(Exec(run[..n]), run[n]))
  {
    hide InSync, Parts, Apply;
    if forall n | 0 <= n < |run| :: !Parts(Exec(run[..n]), run[n]) {
      forall n | 0 <= n <= |run| ensures InSync(Exec(run[..n])) {
        StaysInStep(run, n);
      }
    }
    if forall n | 0 <= n <= |run| :: InSync(Exec(run[..n])) {
      forall n | 0 <= n < |run| ensures !Parts(Exec(run[..n]), run[n]) {
        assert run[..n + 1][..n] == run[..n];
        StepSync(Exec(run[..n]), run[n]);
      }
    }
  }

  lemma StartsInSync()
    ensures InSync(Exec([]))
  {
  }

  /** The broker accepts what the handler publishes, if it publishes anything. */
  predicate Accepts(op: Op) {
    op.DoRegisterUnhashable? || op.published
  }

  lemma {:induction false} AcceptedPass(st: State, order: seq<Key>, now: Time)
    requires AllTracked(st)
    ensures !PassParts(st, order, now, true) && AllTracked(RefreshAll(st, order, now, true))
    decreases |order|
  {
    if |order| > 0 {
      AcceptedPass(Refresh(st, order[0], None, now, true), order[1..], now);
    }
  }

  lemma ApplySync(st: State, op: Op)
    requires InSync(st) && AllTracked(st) && Accepts(op)
    ensures InSync(Apply(st, op)) && AllTracked(Apply(st, op))
  {
    hide InSync, RefreshAll, PassParts, StatusOf;
    StepSync(st, op);
    match op
    case DoHeartbeat(key, degraded, reason, _, _, _) => DegradedOnly(st, key, degraded, reason);
    case DoRefreshAll(order, now, _) => AcceptedPass(st, order, now);
    case _ =>
  }

  lemma DegradedOnly(st: State, key: Key, degraded: bool, reason: Option<string>)
    ensures var next := WithDegraded(st, key, degraded, reason);
            next == st.(degraded := next.degraded, reasons := next.reasons)
  {
  }

  /**
    A subscriber that folds the published stream holds exactly the tracked statuses after every
    run whose publications are accepted, and each status change it saw was a change for it.
   */
  lemma {:induction false} SubscriberInSync(run: seq<Op>)
    requires forall i | 0 <= i < |run| :: Accepts(run[i])
    ensures InSync(Exec(run)) && AllTracked(Exec(run))
  {
    hide InSync, AllTracked, Apply, Accepts;
    if |run| == 0 {
      StartsInSync();
      StartsTracked();
    } else {
      SubscriberInSync(run[..|run| - 1]);
      ApplySync(Exec(run[..|run| - 1]), run[|run| - 1]);
    }
  }

  lemma StartsTracked()
    ensures AllTracked(Exec([]))
  {
  }

  /** A heartbeat that revives a tracked instance parts the subscriber exactly when its publication is lost. */
  lemma LostChange(st: State, key: Key, now: Time, inGrace: bool, published: bool)
    requires InSync(st) && WellFormed(st) && HasInstance(st.services, key) && Tracked(st, key) == Some(Down)
    requires Timeout(st.services[key.service][key.instance]) >= 0
    ensures var next := StoreHeartbeat(st, key, false, None, now, inGrace, published);
            && Tracked(next, key) == Some(Active)
            && (InSync(next) <==> published)
            && (!published ==> Fold(next.stream)[key] == Down)
  {
    StepSync(st, DoHeartbeat(key, false, None, now, inGrace, published));
    RemoveFirstMembers(st.degraded, key);
  }

  // ---------------------------------------------------------------------------------------------
  // Every reachable state
  // ---------------------------------------------------------------------------------------------

  /** The degraded list has no repeats, and only degraded instances have a reason. */
  ghost predicate WellFormed(st: State) {
    && Distinct(st.degraded)
    && (forall key | key in st.reasons :: key in st.degraded)
  }

  lemma {:induction false} RemoveFirstMembers(keys: seq<Key>, key: Key)
    requires Distinct(keys)
    ensures Distinct(RemoveFirst(keys, key))
    ensures forall k :: k in RemoveFirst(keys, key) <==> k in keys && k != key
  {
    if |keys| > 0 {
      RemoveFirstMembers(keys[1..], key);
      assert keys == [keys[0]] + keys[1..];
      if keys[0] == key {
        assert forall i | 0 <= i < |keys[1..]| :: keys[1..][i] == keys[i + 1];
      } else {
        var rest := RemoveFirst(keys[1..], key);
        forall i | 0 <= i < |rest| ensures rest[i] != keys[0] {
          assert rest[i] in keys[1..];
        }
      }
    }
  }

  /** A refresh touches the tracked statuses and the stream only. */
  lemma RefreshFrame(st: State, key: Key, reason: Option<string>, now: Time, published: bool)
    ensures var next := Refresh(st, key, reason, now, published);
            next == st.(tracked := next.tracked, stream := next.stream)
  {
  }

  lemma {:induction false} RefreshAllFrame(st: State, order: seq<Key>, now: Time, published: bool)
    ensures var next := RefreshAll(st, order, now, published);
            next == st.(tracked := next.tracked, stream := next.stream)
    decreases |order|
  {
    if |order| > 0 {
      RefreshFrame(st, order[0], None, now, published);
      RefreshAllFrame(Refresh(st, order[0], None, now, published), order[1..], now, published);
    }
  }

  lemma DegradedWellFormed(st: State, key: Key, degraded: bool, reason: Option<string>)
    requires WellFormed(st)
    ensures WellFormed(WithDegraded(st, key, degraded, reason))
  {
    RemoveFirstMembers(st.degraded, key);
  }

  lemma ApplyWellFormed(st: State, op: Op)
    requires WellFormed(st)
    ensures WellFormed(Apply(st, op))
  {
    hide WithInstance, WithoutInstance, WithDegraded, Refresh, RefreshAll;
    match op
    case DoHeartbeat(key, degraded, reason, now, _, published) =>
      if HasInstance(st.services, key) {
        DegradedWellFormed(st, key, degraded, reason);
        RefreshFrame(Stored(st, key, degraded, reason, now), key, if degraded then reason else None, now, published);
      }
    case DoRefreshAll(order, now, published) =>
      RefreshAllFrame(st, order, now, published);
    case _ =>
  }

  predicate Registers(op: Op, key: Key) {
    op.DoRegister? && op.key == key
  }

  predicate Beats(op: Op, key: Key) {
    op.DoHeartbeat? && op.key == key
  }

  /** In every reachable state, whether publications are accepted or not. */
  lemma {:induction false} ReachableWellFormed(run: seq<Op>)
    ensures WellFormed(Exec(run))
  {
    if |run| > 0 {
      ReachableWellFormed(run[..|run| - 1]);
      ApplyWellFormed(Exec(run[..|run| - 1]), run[|run| - 1]);
    }
  }

  /** The service has an entry but no instance. */
  predicate EmptyEntry(st: State, service: string) {
    service in st.services && st.services[service] == map[]
  }

  /** The n-th step left an entry without instances behind, and nothing registered for the service since. */
  ghost predicate LeftEmpty(run: seq<Op>, service: string, n: nat) {
    && n < |run| && run[n] == DoRegisterUnhashable(service) && service !in Exec(run[..n]).services
    && forall i | n < i < |run| && run[i].DoRegister? :: run[i].key.service != service
  }

  /** A handler leaves an entry empty only if it was, or by a registration with an unhashable instance id. */
  lemma StepEmpties(st: State, op: Op, service: string)
    ensures EmptyEntry(Apply(st, op), service) <==>
            || (op == DoRegisterUnhashable(service) && service !in st.services)
            || (EmptyEntry(st, service) && !(op.DoRegister? && op.key.service == service))
  {
    hide WithDegraded, Refresh, RefreshAll;
    match op
    case DoRegister(key, registration, _) =>
      assert key.instance in WithInstance(st.services, key, registration)[key.service];
    case DoHeartbeat(key, degraded, reason, now, _, published) =>
      DegradedOnly(st, key, degraded, reason);
      RefreshFrame(Stored(st, key, degraded, reason, now), key, if degraded then reason else None, now, published);
    case DoRefreshAll(order, now, published) =>
      RefreshAllFrame(st, order, now, published);
    case _ =>
  }

  /**
    In every reachable state a service has an empty entry if and only if a registration with an
    unhashable instance id came when it had none, and no instance of it registered since.
   */
  lemma {:induction false} EmptyEntries(run: seq<Op>, service: string)
    ensures EmptyEntry(Exec(run), service) <==> exists n: nat :: LeftEmpty(run, service, n)
  {
    hide EmptyEntry, Apply;
    if |run| == 0 {
      NothingAtFirst(service);
    } else {
      var init, op := run[..|run| - 1], run[|run| - 1];
      EmptyEntries(init, service);
      StepEmpties(Exec(init), op, service);
      assert forall n | 0 <= n <= |init| :: init[..n] == run[..n];
      if n: nat :| LeftEmpty(run, service, n) {
        if n < |init| {
          assert LeftEmpty(init, service, n);
          assert run[|init|] == op;
        }
      }
      if n: nat :| LeftEmpty(init, service, n) {
        if !(op.DoRegister? && op.key.service == service) {
          assert LeftEmpty(run, service, n);
        }
      }
      if op == DoRegisterUnhashable(service) && service !in Exec(init).services {
        assert LeftEmpty(run, service, |init|);
      }
    }
  }

  lemma NothingAtFirst(service: string)
    ensures !EmptyEntry(Exec([]), service)
  {
  }

  /** Registering adds one instance and unregistering removes one. */
  lemma InstancesChange(services: Services, key: Key, registration: Registration, k: Key)
    ensures HasInstance(WithInstance(services, key, registration), k) <==> HasInstance(services, k) || k == key
    ensures HasInstance(services, key) ==>
              (HasInstance(WithoutInstance(services, key), k) <==> HasInstance(services, k) && k != key)
  {
    if HasInstance(services, key) && k.service == key.service {
      var instances := services[key.service] - {key.instance};
      assert k.instance in instances <==> k.instance in services[key.service] && k.instance != key.instance;
    }
  }

  lemma ApplyKnown(st: State, op: Op, key: Key)
    requires WellFormed(st)
    ensures HasInstance(Apply(st, op).services, key) ==> HasInstance(st.services, key) || Registers(op, key)
    ensures key in Apply(st, op).heartbeats ==>
              key in st.heartbeats || (Beats(op, key) && HasInstance(st.services, key))
    ensures key in Apply(st, op).degraded ==>
              key in st.degraded || (Beats(op, key) && HasInstance(st.services, key))
  {
    hide WithInstance, WithoutInstance;
    match op
    case DoRegister(k, registration, _) =>
      InstancesChange(st.services, k, registration, key);
    case DoRegisterUnhashable(_) =>
    case DoUnregister(k, _) =>
      InstancesChange(st.services, k, Registration(None, None), key);
    case DoHeartbeat(k, degraded, reason, now, _, published) =>
      if HasInstance(st.services, k) {
        hide WithDegraded, Refresh;
        DegradedFrame(st, k, degraded, reason);
        RefreshFrame(Stored(st, k, degraded, reason, now), k, if degraded then reason else None, now, published);
      }
    case DoRefreshAll(order, now, published) =>
      RefreshAllFrame(st, order, now, published);
  }

  lemma DegradedFrame(st: State, key: Key, degraded: bool, reason: Option<string>)
    requires WellFormed(st)
    ensures var next := WithDegraded(st, key, degraded, reason);
            && next == st.(degraded := next.degraded, reasons := next.reasons)
            && forall k | k in next.degraded :: k in st.degraded || k == key
  {
    RemoveFirstMembers(st.degraded, key);
  }

  /** A heartbeat of key was handled after a registration of key. */
  ghost predicate BeatAfterRegistration(run: seq<Op>, key: Key) {
    exists i, j | 0 <= i < j < |run| :: Registers(run[i], key) && Beats(run[j], key)
  }

  /** What the registry knows about an instance comes from a registration, and from a heartbeat after it. */
  lemma {:induction false} KnownHasCause(run: seq<Op>, key: Key)
    ensures HasInstance(Exec(run).services, key) ==> exists i | 0 <= i < |run| :: Registers(run[i], key)
    ensures key in Exec(run).heartbeats || key in Exec(run).degraded ==> BeatAfterRegistration(run, key)
  {
    if |run| > 0 {
      var init, op := run[..|run| - 1], run[|run| - 1];
      KnownHasCause(init, key);
      ReachableWellFormed(init);
      ApplyKnown(Exec(init), op, key);
      if exists i | 0 <= i < |init| :: Registers(init[i], key) {
        var i :| 0 <= i < |init| && Registers(init[i], key);
        assert Registers(run[i], key);
      }
      if BeatAfterRegistration(init, key) {
        var i, j :| 0 <= i < j < |init| && Registers(init[i], key) && Beats(init[j], key);
        assert Registers(run[i], key) && Beats(run[j], key);
      }
      assert Registers(op, key) ==> Registers(run[|run| - 1], key);
      assert Beats(op, key) ==> Beats(run[|run| - 1], key);
    }
  }

  /** An instance is down until the first heartbeat that follows its first registration. */
  lemma DownUntilFirstHeartbeat(run: seq<Op>, key: Key, now: Time)
    requires HasInstance(Exec(run).services, key) && !BeatAfterRegistration(run, key)
    ensures StatusOf(Exec(run), key, now) == Down
  {
    KnownHasCause(run, key);
  }

  /**
    Heartbeats survive an unregistration, so a registered-again instance is down exactly when it
    never beat before or its last heartbeat is already late.
   */
  lemma DownAfterRegistration(st: State, key: Key, registration: Registration, published: bool, now: Time)
    ensures var next := Register(st, key, registration, published);
            && HasInstance(next.services, key)
            && (StatusOf(next, key, now) == Down <==>
                  key !in st.heartbeats || now - st.heartbeats[key] > Timeout(registration))
  {
  }

  /**
    A run in which that matters: an instance that beat, left and registers again has its old status
    right away, while every subscriber takes it for down.
   */
  lemma StatusOnReturn(key: Key, first: Registration, again: Registration, degraded: bool, reason: Option<string>,
                       beat: Time, now: Time)
    ensures var run := [DoRegister(key, first, true), DoHeartbeat(key, degraded, reason, beat, false, true),
                        DoUnregister(key, true), DoRegister(key, again, true)];
            var st := Exec(run);
            && HasInstance(st.services, key)
            && StatusOf(st, key, now) == (if now - beat > Timeout(again) then Down
                                          else if degraded then Degraded else Active)
            && Fold(st.stream) == st.tracked && Tracked(st, key) == Some(Down)
  {
    var registered := Register(Initial, key, first, true);
    var beaten := StoreHeartbeat(registered, key, degraded, reason, beat, false, true);
    RefreshFrame(Stored(registered, key, degraded, reason, beat), key, if degraded then reason else None, beat, true);
    assert beaten.heartbeats == map[key := beat] && (key in beaten.degraded <==> degraded);
    var run := [DoRegister(key, first, true), DoHeartbeat(key, degraded, reason, beat, false, true),
                DoUnregister(key, true), DoRegister(key, again, true)];
    ExecFour(run);
    SubscriberInSync(run);
  }

  lemma ExecFour(run: seq<Op>)
    requires |run| == 4
    ensures Exec(run) == Apply(Apply(Apply(Apply(Initial, run[0]), run[1]), run[2]), run[3])
  {
    hide Apply;
    assert run[..3][..2] == run[..2] && run[..2][..1] == run[..1] && run[..1][..0] == [];
    assert Exec(run[..1]) == Apply(Initial, run[0]);
    assert Exec(run[..2]) == Apply(Exec(run[..1]), run[1]);
    assert Exec(run[..3]) == Apply(Exec(run[..2]), run[2]);
  }

  // ---------------------------------------------------------------------------------------------
  // A monitor pass
  // ---------------------------------------------------------------------------------------------

  /** After a pass over all instances the tracked statuses are the current ones, in whatever order it went. */
  lemma {:induction false} PassTracksAll(st: State, order: seq<Key>, now: Time)
    ensures var next := RefreshAll(st, order, now, true);
            && (forall key | key in order && HasInstance(st.services, key) ::
                  Tracked(next, key) == Some(StatusOf(st, key, now)))
            && (forall key | key !in order :: Tracked(next, key) == Tracked(st, key))
    decreases |order|
  {
    if |order| > 0 {
      var key := order[0];
      var one := Refresh(st, key, None, now, true);
      RefreshFrame(st, key, None, now, true);
      PassTracksAll(one, order[1..], now);
      RefreshAllFrame(one, order[1..], now, true);
      assert order == [key] + order[1..];
    }
  }
}
