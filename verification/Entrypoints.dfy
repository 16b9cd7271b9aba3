/**
  The event handlers of a service: what the consumer arms for them
  (kontiki/messaging/consumer/core.py) and what the registration says about them
  (kontiki/registry/catalog.py).
 */
module Entrypoints {
  import opened Wrappers
  import opened Configuration
  import Topology
  import Broker

  /** The event type argument of on_event: given, or a configuration path. */
  datatype EventSpec = One(name: string) | Many(names: seq<string>) | FromConfig(path: string)

  /** One on_event declaration; the decorator refuses a session handler that broadcasts. */
  datatype Endpoint = Endpoint(handler: string, spec: EventSpec, targetInstance: bool, broadcast: bool,
                               maxAttempts: Option<int>)

  ghost predicate Declarable(endpoint: Endpoint) {
    !(endpoint.targetInstance && endpoint.broadcast)
  }

  /** A consumer task, with the queue it consumes. */
  datatype EventTask = EventTask(event: string, queue: string, key: string, requeue: bool,
                                 maxAttempts: int, failedQueue: Option<string>, deliveryLimit: Option<nat>)

  datatype Entry = Entry(name: string, handler: string, mode: string, maxAttempts: Option<int>)

  // ---------------------------------------------------------------------------------------------
  // Event types
  // ---------------------------------------------------------------------------------------------

  function TextItems(items: seq<Tree>): Option<seq<string>> {
    if |items| == 0 then Some([])
    else
      match items[0]
      case Leaf(Text(name)) =>
        var rest := TextItems(items[1..]);
        if rest.None? then None else Some([name] + rest.value)
      case _ => None
  }

  lemma {:induction false} TextItemsSay(items: seq<Tree>, names: seq<string>)
    ensures TextItems(items) == Some(names) <==>
            |items| == |names| && forall i | 0 <= i < |items| :: items[i] == Leaf(Text(names[i]))
  {
    if |items| > 0 {
      if |names| > 0 {
        TextItemsSay(items[1..], names[1..]);
        assert names == [names[0]] + names[1..];
        assert forall i | 0 <= i < |items[1..]| :: items[1..][i] == items[i + 1];
        assert forall i | 0 <= i < |names[1..]| :: names[1..][i] == names[i + 1];
      }
    }
  }

  /** The names a declaration gives: its own, or the text or the list of texts at its configuration path. */
  ghost predicate Names(spec: EventSpec, config: Tree, names: seq<string>) {
    match spec
    case One(name) => names == [name]
    case Many(many) => names == many
    case FromConfig(path) =>
      || (|names| == 1 && Holds(config, Split(path), Leaf(Text(names[0]))))
      || exists items ::
           && Holds(config, Split(path), Leaf(Items(items))) && |items| == |names|
           && forall i | 0 <= i < |items| :: items[i] == Leaf(Text(names[i]))
  }

  /** A service consumes exactly the event types its declaration names, if there are some and none is empty. */
  lemma EventTypesNamed(spec: EventSpec, config: Tree, names: seq<string>)
    ensures EventTypes(spec, config) == Some(names) <==>
            Names(spec, config, names) && names != [] && forall i | 0 <= i < |names| :: names[i] != ""
  {
    hide TextItems, Split;
    if spec.FromConfig? {
      assert |names| == 1 ==> names == [names[0]];
      match Walk(config, Split(spec.path))
      case Found(Leaf(Items(items))) => TextItemsSay(items, names);
      case _ =>
    }
  }

  /** resolve_parameter_path and normalize_event_types; None when either raises. */
  function EventTypes(spec: EventSpec, config: Tree): (r: Option<seq<string>>)
    ensures r.Some? ==> r.value != [] && forall i | 0 <= i < |r.value| :: r.value[i] != ""
  {
    var names := match spec
      case One(name) => Some([name])
      case Many(many) => Some(many)
      case FromConfig(path) =>
        match Walk(config, Split(path))
        case Found(Leaf(Text(name))) => Some([name])
        case Found(Leaf(Items(items))) => TextItems(items)
        case _ => None;
    if names.None? || names.value == [] || exists i | 0 <= i < |names.value| :: names.value[i] == "" then None
    else names
  }

  // ---------------------------------------------------------------------------------------------
  // Arming
  // ---------------------------------------------------------------------------------------------

  function Effective(endpoint: Endpoint, default: int): int {
    if endpoint.maxAttempts.Some? then endpoint.maxAttempts.value else default
  }

  predicate OneOff(endpoint: Endpoint) {
    endpoint.broadcast || endpoint.targetInstance
  }

  /** The declared work queue raises for a limit below one attempt. */
  predicate Armable(endpoint: Endpoint, config: Tree, default: int) {
    EventTypes(endpoint.spec, config).Some? && (OneOff(endpoint) || Effective(endpoint, default) >= 1)
  }

  class Consumer {
    const serviceName: string
    const instanceId: string
    const maxAttempts: int
    var onEventTasks: seq<EventTask>

    constructor (serviceName: string, instanceId: string, maxAttempts: int)
      ensures onEventTasks == [] && this.serviceName == serviceName
      ensures this.instanceId == instanceId && this.maxAttempts == maxAttempts
    {
      this.serviceName, this.instanceId, this.maxAttempts := serviceName, instanceId, maxAttempts;
      onEventTasks := [];
    }

    /** The task the consumer arms for one event type of an endpoint. */
    function TaskFor(endpoint: Endpoint, event: string): EventTask {
      var attempts := Effective(endpoint, maxAttempts);
      if OneOff(endpoint) then
        EventTask(event, Topology.NameOf(Topology.OneOff(serviceName, event, instanceId)),
                  if endpoint.targetInstance then event + "." + instanceId else event,
                  false, attempts, None, None)
      else
        EventTask(event, Topology.NameOf(Topology.Work(serviceName, event)), event, true, attempts,
                  Some(Topology.NameOf(Topology.Failed(serviceName, event))), Broker.DeliveryLimit(attempts))
    }

    function TasksFor(endpoint: Endpoint, events: seq<string>): seq<EventTask> {
      seq(|events|, i requires 0 <= i < |events| => TaskFor(endpoint, events[i]))
    }

    function TasksOf(endpoints: seq<Endpoint>, config: Tree): seq<EventTask> {
      if |endpoints| == 0 then []
      else
        var last := endpoints[|endpoints| - 1];
        var events := EventTypes(last.spec, config);
        TasksOf(endpoints[..|endpoints| - 1], config) +
        if events.Some? then TasksFor(last, events.value) else []
    }

    /** The inner loop: one task per event type; the declaration of a work queue may raise. */
    method ArmEndpoint(endpoint: Endpoint, events: seq<string>) returns (ok: bool)
      requires events != []
      modifies this
      ensures ok <==> OneOff(endpoint) || Effective(endpoint, maxAttempts) >= 1
      ensures onEventTasks == old(onEventTasks) + if ok then TasksFor(endpoint, events) else []
    {
      var effective := Effective(endpoint, maxAttempts);
      for j := 0 to |events|
        invariant onEventTasks == old(onEventTasks) + TasksFor(endpoint, events[..j])
        invariant j > 0 ==> OneOff(endpoint) || effective >= 1
      {
        var event := events[j];
        var task;
        if OneOff(endpoint) {
          OneOffName(serviceName, event, instanceId);
          task := EventTask(event, serviceName + "." + event + "." + instanceId + ".queue",
                            if endpoint.targetInstance then event + "." + instanceId else event,
                            false, effective, None, None);
        } else {
          if effective < 1 {
            return false;
          }
          task := EventTask(event, serviceName + "." + event + ".queue", event, true, effective,
                            Some(serviceName + "." + event + ".failed"), Some(effective - 1));
        }
        assert TasksFor(endpoint, events[..j + 1]) == TasksFor(endpoint, events[..j]) + [task];
        onEventTasks := onEventTasks + [task];
      }
      assert events[..|events|] == events;
      ok := true;
    }

    /** add_on_event_tasks; it raises at the first endpoint that cannot be armed, with those before it armed. */
    method AddOnEventTasks(endpoints: seq<Endpoint>, config: Tree) returns (ok: bool)
      modifies this
      ensures ok <==> forall i | 0 <= i < |endpoints| :: Armable(endpoints[i], config, maxAttempts)
      ensures ok ==> onEventTasks == old(onEventTasks) + TasksOf(endpoints, config)
      ensures !ok ==> exists k | 0 <= k < |endpoints| ::
                && onEventTasks == old(onEventTasks) + TasksOf(endpoints[..k], config)
                && !Armable(endpoints[k], config, maxAttempts)
                && forall i | 0 <= i < k :: Armable(endpoints[i], config, maxAttempts)
    {
      hide TaskFor, TasksFor, Effective, OneOff;
      for i := 0 to |endpoints|
        invariant onEventTasks == old(onEventTasks) + TasksOf(endpoints[..i], config)
        invariant forall j | 0 <= j < i :: Armable(endpoints[j], config, maxAttempts)
      {
        var resolved := EventTypes(endpoints[i].spec, config);
        if resolved.None? {
          return false;
        }
        ok := ArmEndpoint(endpoints[i], resolved.value);
        if !ok {
          return;
        }
        assert endpoints[..i + 1][..i] == endpoints[..i];
      }
      assert endpoints[..|endpoints|] == endpoints;
      ok := true;
    }
  }

  lemma OneOffName(service: string, event: string, id: string)
    ensures service + "." + event + "." + id + ".queue" == Topology.NameOf(Topology.OneOff(service, event, id))
  {
    assert service + "." + (event + "." + id) + ".queue" == service + "." + event + "." + id + ".queue";
  }

  // ---------------------------------------------------------------------------------------------
  // The registered catalogue
  // ---------------------------------------------------------------------------------------------

  function ModeName(endpoint: Endpoint): string {
    if endpoint.broadcast then "broadcast" else if endpoint.targetInstance then "in_session" else "competing"
  }

  function EntryFor(endpoint: Endpoint, event: string, default: int): Entry {
    Entry(event, endpoint.handler, ModeName(endpoint),
          if OneOff(endpoint) then None else Some(Effective(endpoint, default)))
  }

  function EntriesFor(endpoint: Endpoint, events: seq<string>, default: int): seq<Entry> {
    seq(|events|, i requires 0 <= i < |events| => EntryFor(endpoint, events[i], default))
  }

  function EntriesOf(endpoints: seq<Endpoint>, config: Tree, default: int): seq<Entry> {
    if |endpoints| == 0 then []
    else
      var last := endpoints[|endpoints| - 1];
      var events := EventTypes(last.spec, config);
      EntriesOf(endpoints[..|endpoints| - 1], config, default) +
      if events.Some? then EntriesFor(last, events.value, default) else []
  }

  /** The inner loop: one entry per event type. */
  method DescribeEndpoint(data: Endpoint, events: seq<string>, default: int) returns (entries: seq<Entry>)
    ensures entries == EntriesFor(data, events, default)
  {
    var mode := if data.broadcast then "broadcast" else if data.targetInstance then "in_session" else "competing";
    entries := [];
    for j := 0 to |events|
      invariant entries == EntriesFor(data, events[..j], default)
    {
      var entry := Entry(events[j], data.handler, mode, None);
      if !data.broadcast && !data.targetInstance {
        var attempts := if data.maxAttempts.None? then default else data.maxAttempts.value;
        entry := entry.(maxAttempts := Some(attempts));
      }
      assert EntriesFor(data, events[..j + 1], default) == EntriesFor(data, events[..j], default) + [entry];
      entries := entries + [entry];
    }
    assert events[..|events|] == events;
  }

  /** _event_entrypoints; it raises when an event type does not resolve. */
  method EventEntrypoints(endpoints: seq<Endpoint>, config: Tree, default: int) returns (r: Option<seq<Entry>>)
    ensures r.Some? <==> forall i | 0 <= i < |endpoints| :: EventTypes(endpoints[i].spec, config).Some?
    ensures r.Some? ==> r.value == EntriesOf(endpoints, config, default)
  {
    hide EntriesFor, EntryFor, EventTypes;
    var entries: seq<Entry> := [];
    for i := 0 to |endpoints|
      invariant entries == EntriesOf(endpoints[..i], config, default)
      invariant forall j | 0 <= j < i :: EventTypes(endpoints[j].spec, config).Some?
    {
      var resolved := EventTypes(endpoints[i].spec, config);
      if resolved.None? {
        return None;
      }
      var more := DescribeEndpoint(endpoints[i], resolved.value, default);
      assert endpoints[..i + 1][..i] == endpoints[..i];
      entries := entries + more;
    }
    assert endpoints[..|endpoints|] == endpoints;
    r := Some(entries);
  }

  /** An entry says of a task what the task does. */
  ghost predicate Describes(entry: Entry, task: EventTask) {
    && entry.name == task.event
    && (entry.mode == "competing" <==> task.requeue)
    && (entry.mode == "competing" <==> task.failedQueue.Some?)
    && (entry.mode == "competing" <==> entry.maxAttempts.Some?)
    && (entry.maxAttempts.Some? ==> task.deliveryLimit.Some? && entry.maxAttempts.value == task.deliveryLimit.value + 1)
    && (entry.mode == "in_session" <==> task.key != task.event)
  }

  /**
    For every service definition that can be armed, the registered catalogue lists in order exactly
    what the consumer armed: the event types, which of them are retained, and one attempt more than
    the declared delivery limit.
   */
  lemma {:induction false} CatalogueDescribesTasks(c: Consumer, endpoints: seq<Endpoint>, config: Tree)
    requires forall i | 0 <= i < |endpoints| :: Declarable(endpoints[i]) && Armable(endpoints[i], config, c.maxAttempts)
    ensures var tasks, entries := c.TasksOf(endpoints, config), EntriesOf(endpoints, config, c.maxAttempts);
            |entries| == |tasks| && forall i | 0 <= i < |tasks| :: Describes(entries[i], tasks[i])
  {
    hide EventTypes, Describes, EntryFor, Consumer.TaskFor;
    if |endpoints| > 0 {
      var init, last := endpoints[..|endpoints| - 1], endpoints[|endpoints| - 1];
      CatalogueDescribesTasks(c, init, config);
      forall event: string
        ensures Describes(EntryFor(last, event, c.maxAttempts), c.TaskFor(last, event))
      {
        EntryDescribes(c, last, event);
      }
    }
  }

  lemma EntryDescribes(c: Consumer, endpoint: Endpoint, event: string)
    requires Declarable(endpoint) && (OneOff(endpoint) || Effective(endpoint, c.maxAttempts) >= 1)
    ensures Describes(EntryFor(endpoint, event, c.maxAttempts), c.TaskFor(endpoint, event))
  {
    assert "broadcast"[0] == 'b' && "in_session"[0] == 'i' && "competing"[0] == 'c';
    assert |event + "." + c.instanceId| > |event|;
  }
}
