/**
 * The builtin manifests, and end-to-end scenarios over fresh bus and loader
 * instances: what a sequence of calls yields, proved from the operations'
 * contracts alone.
 */
module Scenarios {
  import opened Wrappers
  import opened OrderedSets
  import opened Events
  import opened Plugins

  /** Opaque references to the two view components of the builtin plugins. */
  const ChatView: ViewRef := 1
  const GraphView: ViewRef := 2

  const ChatManifest: Manifest :=
    Manifest("Chat", Some("1.0.0"), ["core"], ["message:received"], [], Some(Components(Some(ChatView), None)), false)

  const GraphManifest: Manifest :=
    Manifest("Graph", Some("1.0.0"), ["core"], [], [], Some(Components(Some(GraphView), None)), false)

  /** Thoughts declares no components and no `init`. */
  const ThoughtsManifest: Manifest :=
    Manifest("Thoughts", Some("1.0.0"), ["core"], ["thought:created"], ["ai:complete"], None, false)

  /**
   * Registering a manifest that passes validation and whose `init` resolves:
   * the state grows by exactly that plugin and the bus announces it.
   */
  method Load(loader: PluginLoader, m: Manifest) returns (r: Result<seq<Delivery<PluginLoaded>>, LoadError>)
    requires loader.Valid() && Admissible(m, loader.plugins)
    modifies loader
    ensures loader.Valid() && loader.plugins == old(loader.plugins)[m.name := Slot(m, true)]
    ensures r == Ok(Deliveries(loader.bus.Subscribers(PluginLoadedEvent), PluginLoaded(m.name)))
    ensures loader.GetAll() == old(loader.GetAll()) + [m]
    ensures loader.GetComponents() == old(loader.GetComponents()) + ViewsOf([m])
  {
    r := loader.Register(m, Resolves);
  }

  /**
   * `registerBuiltinPlugins`: registers the Chat manifest on a fresh loader.
   * Chat is loaded and offers its space view.
   */
  method RegisterBuiltinPlugins() returns (loader: PluginLoader)
    ensures fresh(loader) && loader.Valid()
    ensures loader.plugins == map["Chat" := Slot(ChatManifest, true)]
    ensures loader.GetAll() == [ChatManifest]
    ensures loader.GetComponents() == [PluginView("Chat", ChatView)]
  {
    var bus := new EventBus();
    loader := new PluginLoader(bus);
    assert ViewsOf([ChatManifest]) == [PluginView("Chat", ChatView)];
    var r := Load(loader, ChatManifest);
  }

  /** After `registerBuiltinPlugins`, Graph is registered as well. */
  method ChatAndGraph() returns (loader: PluginLoader)
    ensures fresh(loader) && loader.Valid()
    ensures loader.plugins == map["Chat" := Slot(ChatManifest, true), "Graph" := Slot(GraphManifest, true)]
    ensures loader.GetAll() == [ChatManifest, GraphManifest]
    ensures loader.GetComponents() == [PluginView("Chat", ChatView), PluginView("Graph", GraphView)]
  {
    loader := RegisterBuiltinPlugins();
    assert ViewsOf([GraphManifest]) == [PluginView("Graph", GraphView)];
    assert Admissible(GraphManifest, loader.plugins);
    var r := Load(loader, GraphManifest);
  }

  /**
   * Registering all three builtin manifests, Chat, Graph, then Thoughts,
   * succeeds for each; all three are loaded in that order, and only Chat and
   * Graph offer a space view.
   */
  method RegisterAllBuiltins() returns (all: seq<Manifest>, views: seq<PluginView>)
    ensures all == [ChatManifest, GraphManifest, ThoughtsManifest]
    ensures views == [PluginView("Chat", ChatView), PluginView("Graph", GraphView)]
  {
    var loader := ChatAndGraph();
    assert ViewsOf([ThoughtsManifest]) == [];
    assert Admissible(ThoughtsManifest, loader.plugins);
    var r3 := Load(loader, ThoughtsManifest);
    all := loader.GetAll();
    views := loader.GetComponents();
  }

  /**
   * Registering a name a second time fails as a duplicate, and `get` and
   * `getAll` answer afterwards exactly as they did after the first call.
   */
  method RegisterTwice(m: Manifest, init1: InitOutcome, init2: InitOutcome)
    returns (second: Result<seq<Delivery<PluginLoaded>>, LoadError>,
             getBefore: Option<Manifest>, allBefore: seq<Manifest>,
             getAfter: Option<Manifest>, allAfter: seq<Manifest>)
    requires m.name != "" && forall d :: d in m.depends ==> d == Core
    ensures second == Err(AlreadyRegistered(m.name))
    ensures getAfter == getBefore && allAfter == allBefore
  {
    var bus := new EventBus();
    var loader := new PluginLoader(bus);
    var first := loader.Register(m, init1);
    getBefore, allBefore := loader.Get(m.name), loader.GetAll();
    second := loader.Register(m, init2);
    getAfter, allAfter := loader.Get(m.name), loader.GetAll();
  }

  /**
   * A fresh loader on a bus where only `l` listens to `plugin:loaded`, after
   * registering `a`: `l` hears `a` announced once.
   */
  method LoadFirst(l: ListenerId, a: Manifest) returns (loader: PluginLoader, ra: Result<seq<Delivery<PluginLoaded>>, LoadError>)
    requires a.name != "" && a.depends == []
    ensures fresh(loader) && loader.Valid()
    ensures loader.bus.Subscribers(PluginLoadedEvent) == [l]
    ensures loader.plugins == map[a.name := Slot(a, true)] && loader.GetAll() == [a]
    ensures ra == Ok([Delivery(l, PluginLoaded(a.name))])
  {
    var bus := new EventBus();
    var sub := bus.On(PluginLoadedEvent, l);
    loader := new PluginLoader(bus);
    assert bus.Subscribers(PluginLoadedEvent) == [l];
    ra := Load(loader, a);
    assert ra.value == Deliveries([l], PluginLoaded(a.name));
    assert Deliveries([l], PluginLoaded(a.name)) == [Delivery(l, PluginLoaded(a.name))];
  }

  /**
   * After `a` is registered, `b`, which depends on `a`, loads and is announced
   * to `l`.
   */
  method LoadSecond(l: ListenerId, a: Manifest, b: Manifest)
    returns (loader: PluginLoader, ra: Result<seq<Delivery<PluginLoaded>>, LoadError>,
             rb: Result<seq<Delivery<PluginLoaded>>, LoadError>)
    requires a.name != "" && b.name != "" && a.name != b.name
    requires a.depends == [] && b.depends == [a.name]
    ensures fresh(loader) && loader.Valid()
    ensures loader.plugins == map[a.name := Slot(a, true), b.name := Slot(b, true)]
    ensures loader.GetAll() == [a, b]
    ensures ra == Ok([Delivery(l, PluginLoaded(a.name))])
    ensures rb == Ok([Delivery(l, PluginLoaded(b.name))])
  {
    loader, ra := LoadFirst(l, a);
    assert FirstMissing(b.depends, loader.plugins) == None;
    rb := Load(loader, b);
    assert loader.bus.Subscribers(PluginLoadedEvent) == [l];
    assert rb.value == Deliveries([l], PluginLoaded(b.name));
    assert Deliveries([l], PluginLoaded(b.name)) == [Delivery(l, PluginLoaded(b.name))];
  }

  /**
   * A listener `l` hears `a`, then `b` (which depends on `a`), announced once
   * each; `c`, which depends on a name `z` nobody registered, fails with
   * MissingDependency(z), and `getAll()` is still [a, b].
   */
  method DependencyChain(l: ListenerId, a: Manifest, b: Manifest, c: Manifest, z: string)
    returns (ra: Result<seq<Delivery<PluginLoaded>>, LoadError>,
             rb: Result<seq<Delivery<PluginLoaded>>, LoadError>,
             rc: Result<seq<Delivery<PluginLoaded>>, LoadError>,
             all: seq<Manifest>, got: Option<Manifest>)
    requires a.name != "" && b.name != "" && c.name != "" && z != Core
    requires a.name != b.name && c.name !in {a.name, b.name} && z !in {a.name, b.name}
    requires a.depends == [] && b.depends == [a.name] && c.depends == [z]
    ensures ra == Ok([Delivery(l, PluginLoaded(a.name))])
    ensures rb == Ok([Delivery(l, PluginLoaded(b.name))])
    ensures rc == Err(MissingDependency(z, c.name))
    ensures all == [a, b]
    ensures got == None
  {
    var loader;
    loader, ra, rb := LoadSecond(l, a, b);
    assert FirstMissing(c.depends, loader.plugins) == Some(z);
    rc := loader.Register(c, Resolves);
    all := loader.GetAll();
    got := loader.Get(c.name);
  }

  /**
   * A plugin whose `init` rejects keeps its slot: `get` still finds it, it is
   * never listed by `getAll` or `getComponents`, registering it again fails as
   * a duplicate, and a plugin that depends on it is admitted, since the check
   * only asks for a slot.
   */
  method FailedInit(m: Manifest, dependent: Manifest)
    returns (r: Result<seq<Delivery<PluginLoaded>>, LoadError>,
             retry: Result<seq<Delivery<PluginLoaded>>, LoadError>,
             rd: Result<seq<Delivery<PluginLoaded>>, LoadError>,
             got: Option<Manifest>, all: seq<Manifest>, views: seq<PluginView>)
    requires m.name != "" && m.depends == [] && m.hasInit
    requires dependent.name != "" && dependent.name != m.name && dependent.depends == [m.name]
    ensures r == Err(InitFailed(m.name)) && retry == Err(AlreadyRegistered(m.name))
    ensures got == Some(m)
    ensures rd.Ok? && all == [dependent]
    ensures forall v :: v in views ==> v.name != m.name
  {
    var bus := new EventBus();
    var loader := new PluginLoader(bus);
    r := loader.Register(m, Rejects);
    retry := loader.Register(m, Resolves);
    rd := loader.Register(dependent, Resolves);
    got := loader.Get(m.name);
    all := loader.GetAll();
    views := loader.GetComponents();
  }

  /** A fresh bus on which `l1`, `l2`, `l3` listen to `e`, `l1` subscribed twice. */
  method ThreeListeners(e: EventName, l1: ListenerId, l2: ListenerId, l3: ListenerId)
    returns (bus: EventBus, s2: Subscription)
    requires l1 != l2 && l2 != l3 && l1 != l3
    ensures fresh(bus) && bus.Valid()
    ensures bus.Subscribers(e) == [l1, l2, l3] && s2 == Subscription(e, l2)
  {
    bus := new EventBus();
    var s1 := bus.On(e, l1);
    assert bus.Subscribers(e) == [l1];
    s2 := bus.On(e, l2);
    assert bus.Subscribers(e) == [l1, l2];
    var s3 := bus.On(e, l3);
    assert bus.Subscribers(e) == [l1, l2, l3];
    var again := bus.On(e, l1);
  }

  /**
   * Three listeners hear an event in subscription order; after the second
   * unsubscribes only the first and third hear the next one. Subscribing the
   * first twice does not make it hear twice, and a repeated unsubscribe is a
   * no-op.
   */
  method EmitAfterUnsubscribe(e: EventName, l1: ListenerId, l2: ListenerId, l3: ListenerId, p: int, q: int)
    returns (first: seq<Delivery<int>>, second: seq<Delivery<int>>)
    requires l1 != l2 && l2 != l3 && l1 != l3
    ensures first == [Delivery(l1, p), Delivery(l2, p), Delivery(l3, p)]
    ensures second == [Delivery(l1, q), Delivery(l3, q)]
  {
    var bus, s2 := ThreeListeners(e, l1, l2, l3);
    first := bus.Emit(e, p);
    bus.Unsubscribe(s2);
    DeleteAt([l1, l2, l3], 1);
    assert bus.Subscribers(e) == [l1, l3];
    bus.Unsubscribe(s2);
    second := bus.Emit(e, q);
  }

  /** With no `handle` for `e`, a request fails with HandlerNotFound; emitting changes nothing. */
  method RequestWithoutHandler(e: EventName, l: ListenerId, p: int) returns (r: Result<Invocation<int>, BusError>)
    ensures r == Err(HandlerNotFound(e))
  {
    var bus := new EventBus();
    var sub := bus.On(e, l);
    var trace := bus.Emit(e, p);
    r := bus.Request(e, p);
  }

  /** A second `handle` for the same event fails, and requests still reach the first handler. */
  method HandleConflict(e: EventName, h1: HandlerId, h2: HandlerId, p: int)
    returns (r1: Result<Registration, BusError>, r2: Result<Registration, BusError>, reply: Result<Invocation<int>, BusError>)
    ensures r1 == Ok(Registration(e))
    ensures r2 == Err(HandlerConflict(e))
    ensures reply == Ok(Invocation(h1, p))
  {
    var bus := new EventBus();
    r1 := bus.Handle(e, h1);
    r2 := bus.Handle(e, h2);
    reply := bus.Request(e, p);
  }

  /**
   * After unregistering, the event can be handled again. Unregistering goes by
   * event name: running the first, stale unregister closure again removes the
   * second handler, and requests then fail.
   */
  method StaleUnregister(e: EventName, h1: HandlerId, h2: HandlerId, p: int)
    returns (rehandle: Result<Registration, BusError>, served: Result<Invocation<int>, BusError>,
             orphaned: Result<Invocation<int>, BusError>)
    ensures rehandle == Ok(Registration(e))
    ensures served == Ok(Invocation(h2, p))
    ensures orphaned == Err(HandlerNotFound(e))
  {
    var bus := new EventBus();
    var r1 := bus.Handle(e, h1);
    bus.Unregister(r1.value);
    rehandle := bus.Handle(e, h2);
    served := bus.Request(e, p);
    bus.Unregister(r1.value);
    orphaned := bus.Request(e, p);
  }
}
