/**
  A fleet of services as deployed: that the queues their consumers arm are the ones routing and the
  registry speak of.
 */
module Deployment {
  import opened Wrappers
  import opened Configuration
  import opened Entrypoints
  import Topology
  import RegistryState
  import RegistryServer

  /** One running service: its consumer, its event handlers and its configuration. */
  datatype Service = Service(consumer: Consumer, endpoints: seq<Endpoint>, config: Tree)

  /** Every event handler of the service could be declared and armed. */
  ghost predicate Armed(d: Service) {
    forall i | 0 <= i < |d.endpoints| ::
      Declarable(d.endpoints[i]) && Armable(d.endpoints[i], d.config, d.consumer.maxAttempts)
  }

  function Tasks(d: Service): seq<EventTask> {
    d.consumer.TasksOf(d.endpoints, d.config)
  }

  // ---------------------------------------------------------------------------------------------
  // What a handler was declared as
  // ---------------------------------------------------------------------------------------------

  function ModeOf(endpoint: Endpoint): Topology.Mode {
    if endpoint.broadcast then Topology.Broadcast
    else if endpoint.targetInstance then Topology.InSession
    else Topology.Competing
  }

  function HandlersFor(endpoint: Endpoint, events: seq<string>): set<Topology.Handler> {
    set j | 0 <= j < |events| :: Topology.Handler(events[j], ModeOf(endpoint))
  }

  function HandlersOf(endpoints: seq<Endpoint>, config: Tree): set<Topology.Handler> {
    if |endpoints| == 0 then {}
    else
      var last := endpoints[|endpoints| - 1];
      var events := EventTypes(last.spec, config);
      HandlersOf(endpoints[..|endpoints| - 1], config) + if events.Some? then HandlersFor(last, events.value) else {}
  }

  /** The service as routing sees it. */
  function InstanceOf(d: Service): Topology.Instance {
    Topology.Instance(d.consumer.serviceName, d.consumer.instanceId, HandlersOf(d.endpoints, d.config))
  }

  /** The attempts a handler was declared with, or else those of its service. */
  ghost predicate AllowedAttempts(endpoint: Endpoint, c: Consumer, attempts: int) {
    match endpoint.maxAttempts
    case Some(own) => attempts == own
    case None => attempts == c.maxAttempts
  }

  /**
    A task consumes the queue of its handler, bound with the key of its handler. Exactly a competing
    one is retried and retained, in the failed queue that the registry looks into, and the broker
    allows it as many deliveries as were declared.
   */
  ghost predicate ArmedAs(task: EventTask, endpoint: Endpoint, c: Consumer, a: Topology.Instance, h: Topology.Handler) {
    && task.event == h.event
    && task.queue == Topology.NameOf(Topology.QueueOf(a, h)) && task.key == Topology.BindingKey(a, h)
    && (task.requeue <==> h.mode.Competing?)
    && (h.mode.Competing? ==>
          && task.failedQueue == Some(Topology.NameOf(Topology.Failed(a.service, h.event)))
          && task.deliveryLimit.Some? && AllowedAttempts(endpoint, c, task.deliveryLimit.value + 1))
    && (!h.mode.Competing? ==> task.failedQueue.None? && task.deliveryLimit.None?)
  }

  lemma ArmedAsDeclared(c: Consumer, endpoint: Endpoint, event: string, a: Topology.Instance)
    requires Declarable(endpoint) && (OneOff(endpoint) || Effective(endpoint, c.maxAttempts) >= 1)
    requires a.service == c.serviceName && a.id == c.instanceId
    ensures ArmedAs(c.TaskFor(endpoint, event), endpoint, c, a, Topology.Handler(event, ModeOf(endpoint)))
  {
  }

  /** A task of the service that consumes the queue of that name, bound with the key. */
  ghost predicate Consumes(tasks: seq<EventTask>, name: string, key: string) {
    exists i :: 0 <= i < |tasks| && tasks[i].queue == name && tasks[i].key == key
  }

  /** A handler of the service whose queue has that name and that binding key. */
  ghost predicate Wants(a: Topology.Instance, handlers: set<Topology.Handler>, name: string, key: string) {
    exists h :: h in handlers && Topology.NameOf(Topology.QueueOf(a, h)) == name && Topology.BindingKey(a, h) == key
  }

  lemma ConsumesConcat(a: seq<EventTask>, b: seq<EventTask>, name: string, key: string)
    ensures Consumes(a + b, name, key) <==> Consumes(a, name, key) || Consumes(b, name, key)
  {
    if i :| 0 <= i < |a| && a[i].queue == name && a[i].key == key {
      assert (a + b)[i] == a[i];
    }
    if i :| 0 <= i < |b| && b[i].queue == name && b[i].key == key {
      assert (a + b)[|a| + i] == b[i];
    }
  }

  lemma EndpointConsumes(c: Consumer, endpoint: Endpoint, events: seq<string>, a: Topology.Instance,
                         name: string, key: string)
    requires Declarable(endpoint) && (OneOff(endpoint) || Effective(endpoint, c.maxAttempts) >= 1)
    requires a.service == c.serviceName && a.id == c.instanceId
    ensures Consumes(c.TasksFor(endpoint, events), name, key) <==> Wants(a, HandlersFor(endpoint, events), name, key)
  {
    hide Consumer.TaskFor, Topology.NameOf, Topology.QueueOf, Topology.BindingKey;
    var tasks := c.TasksFor(endpoint, events);
    forall i | 0 <= i < |events|
      ensures ArmedAs(tasks[i], endpoint, c, a, Topology.Handler(events[i], ModeOf(endpoint)))
    {
      ArmedAsDeclared(c, endpoint, events[i], a);
    }
    if i :| 0 <= i < |tasks| && tasks[i].queue == name && tasks[i].key == key {
      assert Topology.Handler(events[i], ModeOf(endpoint)) in HandlersFor(endpoint, events);
    }
    if h :| h in HandlersFor(endpoint, events)
            && Topology.NameOf(Topology.QueueOf(a, h)) == name && Topology.BindingKey(a, h) == key {
      var j :| 0 <= j < |events| && h == Topology.Handler(events[j], ModeOf(endpoint));
      assert tasks[j].queue == name && tasks[j].key == key;
    }
  }

  /** The tasks a service arms consume exactly the queues that its handlers want, with exactly their keys. */
  lemma {:induction false} TasksServeHandlers(c: Consumer, endpoints: seq<Endpoint>, config: Tree,
                                              a: Topology.Instance, name: string, key: string)
    requires forall i | 0 <= i < |endpoints| :: Declarable(endpoints[i]) && Armable(endpoints[i], config, c.maxAttempts)
    requires a.service == c.serviceName && a.id == c.instanceId
    ensures Consumes(c.TasksOf(endpoints, config), name, key) <==> Wants(a, HandlersOf(endpoints, config), name, key)
  {
    hide EventTypes, Consumer.TasksFor, HandlersFor, Consumes, Topology.NameOf, Topology.QueueOf, Topology.BindingKey;
    if |endpoints| == 0 {
      NothingConsumed(name, key);
    } else {
      var init, last := endpoints[..|endpoints| - 1], endpoints[|endpoints| - 1];
      TasksServeHandlers(c, init, config, a, name, key);
      var events := EventTypes(last.spec, config).value;
      EndpointConsumes(c, last, events, a, name, key);
      ConsumesConcat(c.TasksOf(init, config), c.TasksFor(last, events), name, key);
    }
  }

  lemma NothingConsumed(name: string, key: string)
    ensures !Consumes([], name, key)
  {
  }

  // ---------------------------------------------------------------------------------------------
  // The fleet
  // ---------------------------------------------------------------------------------------------

  ghost function Instances(fleet: set<Service>): set<Topology.Instance> {
    set d | d in fleet :: InstanceOf(d)
  }

  /** Some service of the fleet consumes the queue of that name, bound with the key. */
  ghost predicate Bound(fleet: set<Service>, name: string, key: string) {
    exists d :: d in fleet && Consumes(Tasks(d), name, key)
  }

  /** The queues that are really bound with a key are those that routing says receive it. */
  lemma BoundAsRouted(fleet: set<Service>, name: string, key: string)
    requires forall d | d in fleet :: Armed(d)
    ensures Bound(fleet, name, key) <==>
            exists q :: Topology.Receives(Instances(fleet), q, key) && Topology.NameOf(q) == name
  {
    hide Consumes, HandlersOf, Topology.NameOf, Topology.QueueOf, Topology.BindingKey, Consumer.TasksOf;
    forall d | d in fleet
      ensures Consumes(Tasks(d), name, key) <==> Wants(InstanceOf(d), InstanceOf(d).handlers, name, key)
    {
      TasksServeHandlers(d.consumer, d.endpoints, d.config, InstanceOf(d), name, key);
    }
    if Bound(fleet, name, key) {
      var d :| d in fleet && Consumes(Tasks(d), name, key);
      var a := InstanceOf(d);
      var h :| h in a.handlers && Topology.NameOf(Topology.QueueOf(a, h)) == name && Topology.BindingKey(a, h) == key;
      assert a in Instances(fleet) && Topology.Receives(Instances(fleet), Topology.QueueOf(a, h), key);
    }
    if q :| Topology.Receives(Instances(fleet), q, key) && Topology.NameOf(q) == name {
      var a, h :| a in Instances(fleet) && h in a.handlers
                  && Topology.QueueOf(a, h) == q && Topology.BindingKey(a, h) == key;
      var d :| d in fleet && InstanceOf(d) == a;
      assert Wants(a, a.handlers, name, key);
    }
  }

  ghost predicate WellDeployed(fleet: set<Service>, ids: set<string>, methods: set<string>) {
    && (forall d | d in fleet :: Armed(d))
    && Topology.WellFormedFleet(Instances(fleet), ids) && Topology.WellNamedFleet(Instances(fleet), ids, methods)
  }

  /**
    In a well-named fleet a publication of e reaches the queue of q by some armed task exactly when q
    is the work queue of a service that competes on e, or the queue of an instance that broadcasts e.
   */
  lemma PublicationReachesTasks(fleet: set<Service>, ids: set<string>, methods: set<string>, e: string,
                                q: Topology.Queue)
    requires WellDeployed(fleet, ids, methods) && !Topology.EndsInId(e, ids) && Topology.WellNamed(q, ids, methods)
    ensures Bound(fleet, Topology.NameOf(q), e) <==>
            match q
            case Work(s, event) => event == e && Topology.Competes(Instances(fleet), s, e)
            case OneOff(s, event, i) => event == e && Topology.Handles(Instances(fleet), s, i, e, Topology.Broadcast)
            case _ => false
  {
    hide *;
    hide Topology.NameOf;
    BoundAsRoutedIn(fleet, ids, methods, Topology.NameOf(q), e);
    Topology.PublishReachesName(Instances(fleet), ids, methods, e, q);
  }

  lemma BoundAsRoutedIn(fleet: set<Service>, ids: set<string>, methods: set<string>, name: string, key: string)
    requires WellDeployed(fleet, ids, methods)
    ensures Topology.WellFormedFleet(Instances(fleet), ids)
    ensures Topology.WellNamedFleet(Instances(fleet), ids, methods)
    ensures Bound(fleet, name, key) <==>
            exists q :: Topology.Receives(Instances(fleet), q, key) && Topology.NameOf(q) == name
  {
    hide Bound, Instances, Topology.WellFormedFleet, Topology.WellNamedFleet;
    BoundAsRouted(fleet, name, key);
  }

  /**
    What a session publishes to the instance id reaches exactly the armed tasks of session handlers of
    that event on that instance.
   */
  lemma SessionReachesTasks(fleet: set<Service>, ids: set<string>, methods: set<string>, e: string, id: string,
                            q: Topology.Queue)
    requires WellDeployed(fleet, ids, methods) && !Topology.EndsInId(e, ids) && Topology.WellNamed(q, ids, methods)
    requires id in ids && Topology.DotFree(id)
    ensures Bound(fleet, Topology.NameOf(q), Topology.SessionKey(e, id)) <==>
            && q.OneOff? && q.event == e && q.instance == id
            && Topology.Handles(Instances(fleet), q.service, id, e, Topology.InSession)
  {
    hide Bound, WellDeployed, Instances, Topology.NameOf, Topology.SessionKey, Topology.WellNamed, Topology.Handles;
    hide Topology.EndsInId;
    var key := Topology.SessionKey(e, id);
    BoundAsRoutedIn(fleet, ids, methods, Topology.NameOf(q), key);
    Topology.SessionReaches(Instances(fleet), ids, e, id, q);
    forall p | Topology.Receives(Instances(fleet), p, key) && Topology.NameOf(p) == Topology.NameOf(q) ensures p == q {
      var a, h :| a in Instances(fleet) && h in a.handlers
                  && Topology.QueueOf(a, h) == p && Topology.BindingKey(a, h) == key;
      Topology.NamesApart(p, q, ids, methods);
    }
  }

  // ---------------------------------------------------------------------------------------------
  // What the registry says about it
  // ---------------------------------------------------------------------------------------------

  /** The registration holds the event entries of the service and no other event entry. */
  ghost predicate Announces(registration: RegistryState.Registration, entries: seq<Entry>) {
    && registration.entrypoints.Some?
    && (forall e | e in registration.entrypoints.value && e.kind == "event" ::
          exists i :: 0 <= i < |entries| && e.name == entries[i].name && e.mode == Some(entries[i].mode))
    && (forall i | 0 <= i < |entries| ::
          RegistryState.Entrypoint("event", entries[i].name, Some(entries[i].mode)) in registration.entrypoints.value)
  }

  /** The service retains the failed deliveries of the event, in the failed queue of the service name. */
  ghost predicate Retains(tasks: seq<EventTask>, event: string) {
    exists i :: 0 <= i < |tasks| && tasks[i].event == event && tasks[i].failedQueue.Some?
  }

  lemma DeclaredIsRetained(d: Service, registration: RegistryState.Registration, event: string)
    requires Armed(d) && Announces(registration, EntriesOf(d.endpoints, d.config, d.consumer.maxAttempts))
    ensures RegistryServer.Declares(registration, event) <==> Retains(Tasks(d), event)
  {
    hide EntriesOf, Consumer.TasksOf, Armable;
    var entries, tasks := EntriesOf(d.endpoints, d.config, d.consumer.maxAttempts), Tasks(d);
    CatalogueDescribesTasks(d.consumer, d.endpoints, d.config);
    if RegistryServer.Declares(registration, event) {
      var e :| e in registration.entrypoints.value && RegistryServer.Competes(e, event);
      var i :| 0 <= i < |entries| && e.name == entries[i].name && e.mode == Some(entries[i].mode);
      assert Describes(entries[i], tasks[i]);
    }
    if i :| 0 <= i < |tasks| && tasks[i].event == event && tasks[i].failedQueue.Some? {
      assert Describes(entries[i], tasks[i]);
      assert RegistryServer.Competes(RegistryState.Entrypoint("event", entries[i].name, Some(entries[i].mode)), event);
    }
  }

  /**
    When every live instance of a service registered its own catalogue, the registry says that the
    service competes on an event exactly when some live instance of it retains failed deliveries of it.
   */
  lemma DeclaredMeansRetained(st: RegistryState.State, service: string, event: string, now: RegistryState.Time,
                              deployed: map<string, Service>)
    requires forall i | i in RegistryServer.Live(st, service, now) ::
               && i in deployed && Armed(deployed[i])
               && var d := deployed[i];
                  Announces(st.services[service][i], EntriesOf(d.endpoints, d.config, d.consumer.maxAttempts))
    ensures RegistryServer.DeclaresCompeting(st, service, event, now) <==>
            exists i :: i in RegistryServer.Live(st, service, now) && Retains(Tasks(deployed[i]), event)
  {
    hide Armed, Announces, EntriesOf, Retains, Tasks, RegistryServer.Competes;
    forall i | i in RegistryServer.Live(st, service, now)
      ensures RegistryServer.Declares(st.services[service][i], event) <==> Retains(Tasks(deployed[i]), event)
    {
      DeclaredIsRetained(deployed[i], st.services[service][i], event);
    }
    if i :| i in RegistryServer.Live(st, service, now) && Retains(Tasks(deployed[i]), event) {
      assert RegistryServer.Declares(st.services[service][i], event);
    }
  }
}
