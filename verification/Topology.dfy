/**
  Which queue gets which event: the names and bindings that kontiki/messaging/consumer/core.py
  declares and the routing keys that publishers use. Event types contain no wildcard words.
 */
module Topology {
  import opened Wrappers
  import Configuration

  predicate DotFree(s: string) {
    Configuration.DotFree(s)
  }

  // ---------------------------------------------------------------------------------------------
  // Queue names
  // ---------------------------------------------------------------------------------------------

  /** The queues a service declares: for events, failed events and RPC methods. */
  datatype Queue =
    | Work(service: string, event: string)
    | OneOff(service: string, event: string, instance: string)
    | Failed(service: string, event: string)
    | RpcShared(service: string, rpcMethod: string)
    | RpcPinned(service: string, rpcMethod: string, instance: string)

  function Middle(q: Queue): string {
    match q
    case Work(_, e) => e
    case OneOff(_, e, i) => e + "." + i
    case Failed(_, e) => e
    case RpcShared(_, m) => m
    case RpcPinned(_, m, i) => m + "." + i
  }

  function Suffix(q: Queue): string {
    if q.Failed? then ".failed" else ".queue"
  }

  function NameOf(q: Queue): string {
    q.service + "." + Middle(q) + Suffix(q)
  }

  /** The last segment of an event type is an instance id of the fleet. */
  ghost predicate EndsInId(event: string, ids: set<string>) {
    event in ids || exists p, i :: i in ids && event == p + "." + i
  }

  /** The names of a fleet with the instance ids ids and the RPC methods methods. */
  ghost predicate WellNamed(q: Queue, ids: set<string>, methods: set<string>) {
    && DotFree(q.service)
    && (forall i | i in ids :: DotFree(i) && i !in methods)
    && (forall m | m in methods :: DotFree(m))
    && (q.Work? || q.OneOff? || q.Failed? ==> !EndsInId(q.event, ids) && q.event !in methods)
    && (q.RpcShared? || q.RpcPinned? ==> q.rpcMethod in methods)
    && (q.OneOff? || q.RpcPinned? ==> q.instance in ids)
  }

  lemma FirstDot(a: string, x: string)
    requires DotFree(a)
    ensures var s := a + "." + x;
            |a| < |s| && s[|a|] == '.' && forall k | 0 <= k < |a| :: s[k] != '.'
  {
  }

  lemma LastDot(x: string, a: string)
    requires DotFree(a)
    ensures var s := x + "." + a;
            |x| < |s| && s[|x|] == '.' && forall k | |x| < k < |s| :: s[k] != '.'
  {
  }

  /** A dot-free prefix ends at the first dot. */
  lemma SplitFirst(a: string, b: string, x: string, y: string)
    requires DotFree(a) && DotFree(b) && a + "." + x == b + "." + y
    ensures a == b && x == y
  {
    var s := a + "." + x;
    FirstDot(a, x);
    FirstDot(b, y);
    assert |a| == |b|;
    assert a == s[..|a|] && b == s[..|b|];
    assert x == s[|a| + 1..] && y == s[|b| + 1..];
  }

  /** A dot-free suffix begins after the last dot. */
  lemma SplitLast(x: string, y: string, a: string, b: string)
    requires DotFree(a) && DotFree(b) && x + "." + a == y + "." + b
    ensures a == b && x == y
  {
    var s := x + "." + a;
    LastDot(x, a);
    LastDot(y, b);
    assert |x| == |y|;
    assert x == s[..|x|] && y == s[..|y|];
    assert a == s[|x| + 1..] && b == s[|y| + 1..];
  }

  lemma StripSuffix(x: string, y: string, p: Queue, q: Queue)
    requires x + Suffix(p) == y + Suffix(q)
    ensures x == y && (p.Failed? <==> q.Failed?)
  {
    var s := x + Suffix(p);
    assert s[|s| - 1] == (if p.Failed? then 'd' else 'e');
    assert s[|s| - 1] == (if q.Failed? then 'd' else 'e');
    assert x == s[..|x|] && y == s[..|y|];
  }

  /** Two queues of a well-named fleet have the same name only when they are the same queue. */
  lemma NamesApart(p: Queue, q: Queue, ids: set<string>, methods: set<string>)
    requires WellNamed(p, ids, methods) && WellNamed(q, ids, methods)
    requires NameOf(p) == NameOf(q)
    ensures p == q
  {
    hide WellNamed, EndsInId, Middle, Suffix;
    assert DotFree(p.service) && DotFree(q.service) by {
      ServiceDotFree(p, ids, methods);
      ServiceDotFree(q, ids, methods);
    }
    assert NameOf(p) == p.service + "." + (Middle(p) + Suffix(p));
    assert NameOf(q) == q.service + "." + (Middle(q) + Suffix(q));
    SplitFirst(p.service, q.service, Middle(p) + Suffix(p), Middle(q) + Suffix(q));
    StripSuffix(Middle(p), Middle(q), p, q);
    MiddlesApart(p, q, ids, methods);
  }

  lemma ServiceDotFree(q: Queue, ids: set<string>, methods: set<string>)
    requires WellNamed(q, ids, methods)
    ensures DotFree(q.service)
  {
  }

  lemma MiddlesApart(p: Queue, q: Queue, ids: set<string>, methods: set<string>)
    requires WellNamed(p, ids, methods) && WellNamed(q, ids, methods)
    requires p.service == q.service && Middle(p) == Middle(q) && (p.Failed? <==> q.Failed?)
    ensures p == q
  {
    if p.OneOff? && q.OneOff? {
      SplitLast(p.event, q.event, p.instance, q.instance);
    } else if p.RpcPinned? && q.RpcPinned? {
      SplitLast(p.rpcMethod, q.rpcMethod, p.instance, q.instance);
    } else if p.OneOff? && q.RpcPinned? {
      SplitLast(p.event, q.rpcMethod, p.instance, q.instance);
    } else if p.RpcPinned? && q.OneOff? {
      SplitLast(p.rpcMethod, q.event, p.instance, q.instance);
    } else if p.OneOff? || p.RpcPinned? {
      DottedMiddle(p, q, ids, methods);
    } else if q.OneOff? || q.RpcPinned? {
      DottedMiddle(q, p, ids, methods);
    }
  }

  /** A name with an instance id behind a dot is no plain event and no method. */
  lemma DottedMiddle(p: Queue, q: Queue, ids: set<string>, methods: set<string>)
    requires WellNamed(p, ids, methods) && WellNamed(q, ids, methods)
    requires (p.OneOff? || p.RpcPinned?) && !q.OneOff? && !q.RpcPinned?
    ensures Middle(p) != Middle(q)
  {
    var front := if p.OneOff? then p.event else p.rpcMethod;
    LastDot(front, p.instance);
    assert !DotFree(Middle(p));
    assert Middle(p) == front + "." + p.instance;
    assert EndsInId(Middle(p), ids);
  }

  // ---------------------------------------------------------------------------------------------
  // Routing
  // ---------------------------------------------------------------------------------------------

  datatype Mode = Competing | Broadcast | InSession

  datatype Handler = Handler(event: string, mode: Mode)

  datatype Instance = Instance(service: string, id: string, handlers: set<Handler>)

  function QueueOf(instance: Instance, h: Handler): Queue {
    if h.mode.Competing? then Work(instance.service, h.event)
    else OneOff(instance.service, h.event, instance.id)
  }

  function BindingKey(instance: Instance, h: Handler): string {
    if h.mode.InSession? then h.event + "." + instance.id else h.event
  }

  /** The key an event session publishes with. */
  function SessionKey(event: string, id: string): string {
    event + "." + id
  }

  ghost predicate WellFormedFleet(fleet: set<Instance>, ids: set<string>) {
    && (forall a, b | a in fleet && b in fleet && a.id == b.id :: a == b)
    && (forall a | a in fleet :: a.id in ids && DotFree(a.id) && DotFree(a.service))
    && (forall a, h | a in fleet && h in a.handlers :: !EndsInId(h.event, ids))
  }

  /** A queue gets one copy of a publication when it is bound with its key, however often. */
  ghost predicate Receives(fleet: set<Instance>, q: Queue, key: string) {
    exists a, h :: a in fleet && h in a.handlers && QueueOf(a, h) == q && BindingKey(a, h) == key
  }

  ghost predicate Handles(fleet: set<Instance>, service: string, id: string, event: string, mode: Mode) {
    exists a :: a in fleet && a.service == service && a.id == id && Handler(event, mode) in a.handlers
  }

  ghost predicate Competes(fleet: set<Instance>, service: string, event: string) {
    exists a :: a in fleet && a.service == service && Handler(event, Competing) in a.handlers
  }

  /** A key that does not end in an instance id is no session key. */
  lemma NoSessionKey(event: string, key: string, id: string, ids: set<string>)
    requires id in ids && !EndsInId(key, ids)
    ensures SessionKey(event, id) != key
  {
  }

  /**
    Publishing e puts one copy into the work queue of every service that competes on e and one into
    the own queue of every instance that broadcasts e, and into no other queue of the fleet.
   */
  lemma PublishReaches(fleet: set<Instance>, ids: set<string>, e: string, q: Queue)
    requires WellFormedFleet(fleet, ids) && !EndsInId(e, ids)
    ensures Receives(fleet, q, e) <==>
            match q
            case Work(s, event) => event == e && Competes(fleet, s, e)
            case OneOff(s, event, i) => event == e && Handles(fleet, s, i, e, Broadcast)
            case _ => false
  {
    if Receives(fleet, q, e) {
      var a, h :| a in fleet && h in a.handlers && QueueOf(a, h) == q && BindingKey(a, h) == e;
      if h.mode.InSession? {
        NoSessionKey(h.event, e, a.id, ids);
      }
      assert h == Handler(e, h.mode);
    }
    if q.Work? && q.event == e && Competes(fleet, q.service, e) {
      var a :| a in fleet && a.service == q.service && Handler(e, Competing) in a.handlers;
      assert QueueOf(a, Handler(e, Competing)) == q && BindingKey(a, Handler(e, Competing)) == e;
    }
    if q.OneOff? && q.event == e && Handles(fleet, q.service, q.instance, e, Broadcast) {
      var a :| a in fleet && a.service == q.service && a.id == q.instance && Handler(e, Broadcast) in a.handlers;
      assert QueueOf(a, Handler(e, Broadcast)) == q && BindingKey(a, Handler(e, Broadcast)) == e;
    }
  }

  /** Every handler's queue is well named. */
  ghost predicate WellNamedFleet(fleet: set<Instance>, ids: set<string>, methods: set<string>) {
    forall a, h | a in fleet && h in a.handlers :: WellNamed(QueueOf(a, h), ids, methods)
  }

  /**
    The same by name, as the broker sees it: a publication of e puts a copy under the name of q
    exactly when q is the work queue of a service that competes on e or the queue of an instance that
    broadcasts e; no other queue of the fleet goes by that name and takes a second copy.
   */
  lemma PublishReachesName(fleet: set<Instance>, ids: set<string>, methods: set<string>, e: string, q: Queue)
    requires WellFormedFleet(fleet, ids) && WellNamedFleet(fleet, ids, methods) && !EndsInId(e, ids)
    requires WellNamed(q, ids, methods)
    ensures (exists p :: Receives(fleet, p, e) && NameOf(p) == NameOf(q)) <==>
            match q
            case Work(s, event) => event == e && Competes(fleet, s, e)
            case OneOff(s, event, i) => event == e && Handles(fleet, s, i, e, Broadcast)
            case _ => false
    ensures forall p | Receives(fleet, p, e) && NameOf(p) == NameOf(q) :: p == q
  {
    hide WellNamed, NameOf, WellFormedFleet, Competes, Handles;
    PublishReaches(fleet, ids, e, q);
    forall p | Receives(fleet, p, e) && NameOf(p) == NameOf(q) ensures p == q {
      var a, h :| a in fleet && h in a.handlers && QueueOf(a, h) == p && BindingKey(a, h) == e;
      NamesApart(p, q, ids, methods);
    }
  }

  /**
    A publication of e reaches the queue of a session handler exactly when the same instance also
    broadcasts e, because both handlers then consume the one queue of that name.
   */
  lemma SessionQueueShared(fleet: set<Instance>, ids: set<string>, e: string, a: Instance, event: string)
    requires WellFormedFleet(fleet, ids) && !EndsInId(e, ids)
    requires a in fleet && Handler(event, InSession) in a.handlers
    ensures Receives(fleet, QueueOf(a, Handler(event, InSession)), e) <==>
            event == e && Handler(e, Broadcast) in a.handlers
  {
    PublishReaches(fleet, ids, e, QueueOf(a, Handler(event, InSession)));
  }

  /** A session publish reaches only the pinned instance, and there only the handlers of that session event. */
  lemma SessionReaches(fleet: set<Instance>, ids: set<string>, e: string, id: string, q: Queue)
    requires WellFormedFleet(fleet, ids) && id in ids && DotFree(id) && !EndsInId(e, ids)
    ensures Receives(fleet, q, SessionKey(e, id)) <==>
            q.OneOff? && q.event == e && q.instance == id && Handles(fleet, q.service, id, e, InSession)
  {
    var key := SessionKey(e, id);
    assert EndsInId(key, ids);
    if Receives(fleet, q, key) {
      var a, h :| a in fleet && h in a.handlers && QueueOf(a, h) == q && BindingKey(a, h) == key;
      assert h.mode.InSession?;
      SplitLast(h.event, e, a.id, id);
      assert h == Handler(e, InSession);
    }
    if q.OneOff? && q.event == e && q.instance == id && Handles(fleet, q.service, id, e, InSession) {
      var a :| a in fleet && a.service == q.service && a.id == id && Handler(e, InSession) in a.handlers;
      assert QueueOf(a, Handler(e, InSession)) == q && BindingKey(a, Handler(e, InSession)) == key;
    }
  }
}
