/** The registry's objects, their message handlers and the status views they answer with. */
module RegistryServer {
  import opened Wrappers
  import opened RegistryState
  import Ordering

  /** delegates/registry.py: the nested dictionary of registered instances. */
  class Registry {
    var services: Services

    constructor ()
      ensures services == map[]
    {
      services := map[];
    }
  }

  /** delegates/heartbeat_manager.py. */
  class HeartbeatManager {
    var heartbeats: map<Key, Time>
    var degradedServices: seq<Key>
    var degradedReasons: map<Key, string>

    constructor ()
      ensures heartbeats == map[] && degradedServices == [] && degradedReasons == map[]
    {
      heartbeats, degradedServices, degradedReasons := map[], [], map[];
    }
  }

  /** One row of get_services. */
  datatype Shown = Shown(status: Status, lastHeartbeat: Option<Time>, degradedReason: Option<string>,
                         metadata: Registration)

  /** The row of an instance: a reason shows only while the instance is in the degraded list. */
  function ShownOf(st: State, key: Key, now: Time): Shown
    requires HasInstance(st.services, key)
  {
    Shown(StatusOf(st, key, now),
          if key in st.heartbeats then Some(st.heartbeats[key]) else None,
          if key in st.degraded && key in st.reasons then Some(st.reasons[key]) else None,
          st.services[key.service][key.instance])
  }

  predicate Selected(st: State, key: Key, status: Option<Status>, now: Time) {
    HasInstance(st.services, key) && (status.Some? ==> StatusOf(st, key, now) == status.value)
  }

  /** The instances of a service that are not down. */
  ghost function Live(st: State, service: string, now: Time): set<string> {
    if service !in st.services then {}
    else set i | i in st.services[service] && StatusOf(st, Key(service, i), now) != Down
  }

  predicate Competes(entry: Entrypoint, event: string) {
    entry.kind == "event" && entry.name == event && entry.mode == Some("competing")
  }

  /** The registration lists the event as one its service competes on. */
  ghost predicate Declares(registration: Registration, event: string) {
    registration.entrypoints.Some? && exists e | e in registration.entrypoints.value :: Competes(e, event)
  }

  ghost predicate DeclaresCompeting(st: State, service: string, event: string, now: Time) {
    exists i | i in Live(st, service, now) :: Declares(st.services[service][i], event)
  }

  /** The characters str.strip removes: Unicode white space and the separator control characters. */
  predicate IsSpace(c: char) {
    var n := c as int;
    || 0x09 <= n <= 0x0D || 0x1C <= n <= 0x20 || n == 0x85 || n == 0xA0 || n == 0x1680
    || 0x2000 <= n <= 0x200A || n == 0x2028 || n == 0x2029 || n == 0x202F || n == 0x205F || n == 0x3000
  }

  predicate Blank(s: string) {
    forall i | 0 <= i < |s| :: IsSpace(s[i])
  }

  /**
    A registration message: one that cannot be read or lacks a field, one whose instance id cannot
    be a dictionary key, or a proper one.
   */
  datatype RegisterMessage =
    | Unreadable
    | Unhashable(service: string)
    | Proper(key: Key, registration: Registration)

  /** What get_services returns for a status: exactly the selected instances with their rows, and no empty service. */
  ghost predicate Lists(r: map<string, map<string, Shown>>, st: State, status: Option<Status>, now: Time) {
    && (forall s, i :: s in r && i in r[s] <==> Selected(st, Key(s, i), status, now))
    && (forall s, i | s in r && i in r[s] ::
          Selected(st, Key(s, i), status, now) && r[s][i] == ShownOf(st, Key(s, i), now))
    && (forall s | s in r :: r[s] != map[])
  }

  class ServiceRegistryCore {
    const registry: Registry
    const heartbeatManager: HeartbeatManager
    const ownName: string
    var trackedStatus: map<Key, Status>
    var published: seq<Event>
    var registerAgain: seq<Key>

    constructor (ownName: string)
      ensures Abs() == Initial && this.ownName == ownName
      ensures fresh(registry) && fresh(heartbeatManager)
    {
      registry := new Registry();
      heartbeatManager := new HeartbeatManager();
      this.ownName := ownName;
      trackedStatus, published, registerAgain := map[], [], [];
    }

    function Abs(): State
      reads this, registry, heartbeatManager
    {
      State(registry.services, heartbeatManager.heartbeats, heartbeatManager.degradedServices,
            heartbeatManager.degradedReasons, trackedStatus, published, registerAgain)
    }

    /**
      _handle_register and on_instance_registered. An unreadable message changes nothing; an
      unhashable instance id raises after the lookup created an entry for the service.
     */
    method HandleRegister(message: RegisterMessage, accepted: bool)
      modifies this, registry
      ensures Abs() == match message
                       case Unreadable => old(Abs())
                       case Unhashable(service) => RegisterUnhashable(old(Abs()), service)
                       case Proper(key, registration) => Register(old(Abs()), key, registration, accepted)
    {
      if message.Unreadable? {
        return;
      }
      var service := if message.Proper? then message.key.service else message.service;
      if service !in registry.services {
        registry.services := registry.services[service := map[]];
      }
      if message.Unhashable? {
        return;
      }
      var key := message.key;
      var instances := registry.services[service];
      registry.services := registry.services[service := instances[key.instance := message.registration]];
      if accepted {
        published := published + [Registered(key)];
        trackedStatus := trackedStatus[key := Down];
      }
    }

    /** _handle_unregister and on_instance_deregistered. */
    method HandleUnregister(message: Option<Key>, accepted: bool)
      modifies this, registry
      ensures Abs() == if message.None? then old(Abs()) else Unregister(old(Abs()), message.value, accepted)
    {
      if message.None? {
        return;
      }
      var key := message.value;
      if key.service !in registry.services {
        return;
      }
      if key.instance !in registry.services[key.service] {
        return;
      }
      var instances := registry.services[key.service] - {key.instance};
      registry.services := registry.services[key.service := instances];
      if instances == map[] {
        registry.services := registry.services - {key.service};
        assert registry.services == WithoutInstance(old(registry.services), key);
      }
      if accepted {
        published := published + [Deregistered(key)];
        trackedStatus := trackedStatus - {key};
      }
    }

    /** refresh_instance_status; it raises when the change cannot be published. */
    method RefreshInstanceStatus(key: Key, reason: Option<string>, now: Time, accepted: bool) returns (raised: bool)
      modifies this
      ensures Abs() == Refresh(old(Abs()), key, reason, now, accepted)
      ensures raised <==> Announces(old(Abs()), key, now) && !accepted
    {
      raised := false;
      if !HasInstance(registry.services, key) {
        return;
      }
      var newStatus := GetInstanceStatus(key, now);
      var previous := if key in trackedStatus then Some(trackedStatus[key]) else None;
      if previous == Some(newStatus) {
        return;
      }
      trackedStatus := trackedStatus[key := newStatus];
      if previous.None? {
        return;
      }
      if !accepted {
        return true;
      }
      published := published +
                   [StatusChanged(key, previous.value, newStatus, if newStatus.Degraded? then reason else None)];
    }

    /** _get_instance_status. */
    method GetInstanceStatus(key: Key, now: Time) returns (status: Status)
      requires HasInstance(registry.services, key)
      ensures status == StatusOf(Abs(), key, now)
    {
      if key !in heartbeatManager.heartbeats {
        return Down;
      }
      var timeout := Timeout(registry.services[key.service][key.instance]);
      if now - heartbeatManager.heartbeats[key] > timeout {
        return Down;
      }
      if key in heartbeatManager.degradedServices {
        return Degraded;
      }
      return Active;
    }

    /** refresh_all_instance_statuses: two loops over the nested dictionary. */
    method RefreshAllInstanceStatuses(now: Time, accepted: bool) returns (ghost order: seq<Key>)
      modifies this
      ensures Abs() == RefreshAll(old(Abs()), order, now, accepted)
      ensures forall key | key in order :: HasInstance(registry.services, key)
      ensures (forall key | HasInstance(registry.services, key) :: key in order) ||
              AbortedBy(old(Abs()), order, now, accepted)
    {
      order := [];
      var names := registry.services.Keys;
      while names != {}
        invariant names <= registry.services.Keys
        invariant Abs() == RefreshAll(old(Abs()), order, now, accepted)
        invariant !AbortedBy(old(Abs()), order, now, accepted)
        invariant forall key :: key in order <==> HasInstance(registry.services, key) && key.service !in names
      {
        var name :| name in names;
        var ids := registry.services[name].Keys;
        while ids != {}
          invariant ids <= registry.services[name].Keys
          invariant Abs() == RefreshAll(old(Abs()), order, now, accepted)
          invariant !AbortedBy(old(Abs()), order, now, accepted)
          invariant forall key :: key in order <==>
                                  HasInstance(registry.services, key) &&
                                  (key.service !in names || (key.service == name && key.instance !in ids))
        {
          var id :| id in ids;
          var key := Key(name, id);
          RefreshOneMore(old(Abs()), order, key, now, accepted);
          var raised := RefreshInstanceStatus(key, None, now, accepted);
          order := order + [key];
          if raised {
            return;
          }
          ids := ids - {id};
        }
        names := names - {name};
      }
    }

    /** store_heartbeat; whatever is raised inside is logged and swallowed. */
    method StoreHeartbeatOf(key: Key, degraded: bool, reason: Option<string>, now: Time, inGrace: bool, accepted: bool)
      modifies this, heartbeatManager
      ensures Abs() == StoreHeartbeat(old(Abs()), key, degraded, reason, now, inGrace, accepted)
    {
      if HasInstance(registry.services, key) {
        if degraded {
          if key !in heartbeatManager.degradedServices {
            heartbeatManager.degradedServices := heartbeatManager.degradedServices + [key];
          }
          if reason.Some? && reason.value != "" {
            heartbeatManager.degradedReasons := heartbeatManager.degradedReasons[key := reason.value];
          }
        } else {
          if key in heartbeatManager.degradedServices {
            heartbeatManager.degradedServices := RemoveFirst(heartbeatManager.degradedServices, key);
          }
          heartbeatManager.degradedReasons := heartbeatManager.degradedReasons - {key};
        }
        heartbeatManager.heartbeats := heartbeatManager.heartbeats[key := now];
        var _ := RefreshInstanceStatus(key, if degraded then reason else None, now, accepted);
      } else if !inGrace && accepted {
        registerAgain := registerAgain + [key];
      }
    }

    // -------------------------------------------------------------------------------------------
    // Views
    // -------------------------------------------------------------------------------------------

    /** get_services: exactly the instances with the given status, with their rows, and no empty service. */
    method GetServices(status: Option<Status>, now: Time) returns (r: map<string, map<string, Shown>>)
      ensures Lists(r, Abs(), status, now)
    {
      r := map[];
      var names := registry.services.Keys;
      while names != {}
        invariant names <= registry.services.Keys
        invariant forall s, i :: s in r && i in r[s] <==> s !in names && Selected(Abs(), Key(s, i), status, now)
        invariant forall s, i | s in r && i in r[s] ::
                Selected(Abs(), Key(s, i), status, now) && r[s][i] == ShownOf(Abs(), Key(s, i), now)
        invariant forall s | s in r :: s !in names && r[s] != map[]
      {
        var name :| name in names;
        var rows := SelectInstances(name, status, now);
        if rows != map[] {
          r := r[name := rows];
        }
        names := names - {name};
      }
    }

    /** The inner loop of get_services. */
    method SelectInstances(name: string, status: Option<Status>, now: Time) returns (rows: map<string, Shown>)
      requires name in registry.services
      ensures forall i :: i in rows <==> Selected(Abs(), Key(name, i), status, now)
      ensures forall i | i in rows ::
                Selected(Abs(), Key(name, i), status, now) && rows[i] == ShownOf(Abs(), Key(name, i), now)
    {
      rows := map[];
      var ids := registry.services[name].Keys;
      while ids != {}
        invariant ids <= registry.services[name].Keys
        invariant forall i :: i in rows <==> i !in ids && Selected(Abs(), Key(name, i), status, now)
        invariant forall i | i in rows ::
                Selected(Abs(), Key(name, i), status, now) && rows[i] == ShownOf(Abs(), Key(name, i), now)
      {
        var id :| id in ids;
        var key := Key(name, id);
        var current := GetInstanceStatus(key, now);
        if status.None? || current == status.value {
          var last := if key in heartbeatManager.heartbeats then Some(heartbeatManager.heartbeats[key]) else None;
          var reason := if key in heartbeatManager.degradedServices && key in heartbeatManager.degradedReasons
                        then Some(heartbeatManager.degradedReasons[key]) else None;
          rows := rows[id := Shown(current, last, reason, registry.services[name][id])];
        }
        ids := ids - {id};
      }
    }

    /** list_instances: the live instance ids in strictly ascending order; none for a blank name. */
    method ListInstances(service: string, now: Time) returns (live: seq<string>)
      ensures Ordering.StrictlySorted(live)
      ensures Blank(service) ==> live == []
      ensures !Blank(service) ==> forall i :: i in live <==> i in Live(Abs(), service, now)
    {
      if Blank(service) || service !in registry.services {
        return [];
      }
      live := [];
      var ids := registry.services[service].Keys;
      while ids != {}
        invariant ids <= registry.services[service].Keys
        invariant forall j, k | 0 <= j < k < |live| :: live[j] != live[k]
        invariant forall i :: i in live <==> i !in ids && i in Live(Abs(), service, now)
      {
        var id :| id in ids;
        var status := GetInstanceStatus(Key(service, id), now);
        if !status.Down? {
          live := live + [id];
        }
        ids := ids - {id};
      }
      Ordering.SortMembers(live);
      live := Ordering.Sort(live);
    }

    /** is_live. */
    method IsLive(service: string, now: Time) returns (b: bool)
      ensures b <==> service == ownName || Live(Abs(), service, now) != {}
    {
      if service == ownName {
        return true;
      }
      if service !in registry.services {
        return false;
      }
      var ids := registry.services[service].Keys;
      while ids != {}
        invariant ids <= registry.services[service].Keys
        invariant forall i | i in Live(Abs(), service, now) :: i in ids
      {
        var id :| id in ids;
        var status := GetInstanceStatus(Key(service, id), now);
        if !status.Down? {
          assert id in Live(Abs(), service, now);
          return true;
        }
        ids := ids - {id};
      }
      return false;
    }

    /** declares_competing_event: some live instance registered the event as competing. */
    method DeclaresCompetingEvent(service: string, event: string, now: Time) returns (b: bool)
      ensures b <==> DeclaresCompeting(Abs(), service, event, now)
    {
      if service !in registry.services {
        return false;
      }
      var ids := registry.services[service].Keys;
      while ids != {}
        invariant ids <= registry.services[service].Keys
        invariant forall i | i in Live(Abs(), service, now) && i !in ids ::
                    !Declares(registry.services[service][i], event)
      {
        var id :| id in ids;
        ids := ids - {id};
        var status := GetInstanceStatus(Key(service, id), now);
        var entrypoints := registry.services[service][id].entrypoints;
        if !status.Down? && entrypoints.Some? {
          for j := 0 to |entrypoints.value|
            invariant forall k | 0 <= k < j :: !Competes(entrypoints.value[k], event)
          {
            if Competes(entrypoints.value[j], event) {
              assert id in Live(Abs(), service, now) && entrypoints.value[j] in entrypoints.value;
              return true;
            }
          }
        }
      }
      return false;
    }
  }

  /** The pass over order was ended by a change that could not be published. */
  ghost predicate AbortedBy(st: State, order: seq<Key>, now: Time, accepted: bool) {
    !accepted && exists i | 0 <= i < |order| ::
      Announces(RefreshAll(st, order[..i], now, accepted), order[i], now)
  }

  /** A pass that was not ended goes on with the next instance. */
  lemma {:induction false} RefreshOneMore(st: State, order: seq<Key>, key: Key, now: Time, accepted: bool)
    requires !AbortedBy(st, order, now, accepted)
    ensures RefreshAll(st, order + [key], now, accepted) ==
            Refresh(RefreshAll(st, order, now, accepted), key, None, now, accepted)
    ensures AbortedBy(st, order + [key], now, accepted) <==>
            Announces(RefreshAll(st, order, now, accepted), key, now) && !accepted
    decreases |order|
  {
    var longer := order + [key];
    assert forall i | 0 <= i <= |order| :: longer[..i] == order[..i];
    assert order[..|order|] == order;
    if |order| == 0 {
    } else {
      var next := Refresh(st, order[0], None, now, accepted);
      assert order[..0] == [] && !(Announces(st, order[0], now) && !accepted);
      assert longer[1..] == order[1..] + [key];
      forall i | 0 <= i < |order[1..]|
        ensures RefreshAll(next, order[1..][..i], now, accepted) == RefreshAll(st, order[..i + 1], now, accepted)
      {
        assert order[..i + 1][1..] == order[1..][..i];
      }
      RefreshOneMore(next, order[1..], key, now, accepted);
    }
  }

  /** How a row of the full listing shows in a listing by status. */
  ghost predicate ShownIn(r: map<string, map<string, Shown>>, service: string, id: string, row: Shown) {
    service in r && id in r[service] && r[service][id] == row
  }

  /** The listings by active, degraded and down partition the full listing, row by row. */
  lemma ListingsPartition(st: State, now: Time, all: map<string, map<string, Shown>>,
                          active: map<string, map<string, Shown>>, degraded: map<string, map<string, Shown>>,
                          down: map<string, map<string, Shown>>, service: string, id: string, row: Shown)
    requires Lists(all, st, None, now) && Lists(active, st, Some(Active), now)
    requires Lists(degraded, st, Some(Degraded), now) && Lists(down, st, Some(Down), now)
    ensures ShownIn(all, service, id, row) <==>
            ShownIn(active, service, id, row) || ShownIn(degraded, service, id, row) || ShownIn(down, service, id, row)
    ensures !(ShownIn(active, service, id, row) && ShownIn(degraded, service, id, row))
    ensures !(ShownIn(active, service, id, row) && ShownIn(down, service, id, row))
    ensures !(ShownIn(degraded, service, id, row) && ShownIn(down, service, id, row))
  {
    hide Lists, ShownIn, ShownOf, StatusOf;
    ListedAs(all, st, None, now, service, id, row);
    ListedAs(active, st, Some(Active), now, service, id, row);
    ListedAs(degraded, st, Some(Degraded), now, service, id, row);
    ListedAs(down, st, Some(Down), now, service, id, row);
  }

  /** A listing shows exactly the row of each selected instance. */
  lemma ListedAs(r: map<string, map<string, Shown>>, st: State, status: Option<Status>, now: Time,
                 service: string, id: string, row: Shown)
    requires Lists(r, st, status, now)
    ensures ShownIn(r, service, id, row) <==>
            Selected(st, Key(service, id), status, now) && row == ShownOf(st, Key(service, id), now)
  {
    hide ShownOf, Selected;
    assert service in r && id in r[service] <==> Selected(st, Key(service, id), status, now);
  }

  /** The live instances of a service are those that the listings by active and by degraded show. */
  lemma LiveAreListed(st: State, now: Time, active: map<string, map<string, Shown>>,
                      degraded: map<string, map<string, Shown>>, service: string, id: string)
    requires Lists(active, st, Some(Active), now) && Lists(degraded, st, Some(Degraded), now)
    ensures id in Live(st, service, now) <==>
            (service in active && id in active[service]) || (service in degraded && id in degraded[service])
  {
    hide StatusOf, ShownOf;
    assert service in active && id in active[service] <==> Selected(st, Key(service, id), Some(Active), now);
    assert service in degraded && id in degraded[service] <==> Selected(st, Key(service, id), Some(Degraded), now);
  }

  /**
    The other views agree: a service is live exactly when it is the registry itself or its instance
    list is not empty, except for a registered blank name; and a declared competing event has a live
    instance.
   */
  lemma ViewsAgree(st: State, service: string, event: string, own: string, now: Time, listed: set<string>)
    requires listed == if Blank(service) then {} else Live(st, service, now)
    ensures ((service == own || Live(st, service, now) != {}) <==> (service == own || listed != {})) <==>
            !(Blank(service) && service != own && Live(st, service, now) != {})
    ensures DeclaresCompeting(st, service, event, now) ==> Live(st, service, now) != {}
  {
    if DeclaresCompeting(st, service, event, now) {
      var i :| i in Live(st, service, now);
    }
  }
}
