/**
 * The plugin loader: admits manifests one at a time, gates each on its declared
 * dependencies, runs its initialiser, marks it loaded and announces it on the
 * event bus; and projects the loaded manifests and their views, in
 * registration order.
 */
module Plugins {
  import opened Wrappers
  import opened OrderedSets
  import Events

  /** An opaque reference to a view component. */
  type ViewRef = nat

  /** The `components` bag of a manifest. */
  datatype Components = Components(spaceView: Option<ViewRef>, tab: Option<ViewRef>)

  /**
   * `PluginManifest`. An absent name is the empty name, and absent
   * `depends`/`emits`/`handles` lists are empty lists. `hasInit` says whether
   * the manifest carries an `init` operation.
   */
  datatype Manifest = Manifest(
    name: string,
    version: Option<string>,
    depends: seq<string>,
    emits: seq<string>,
    handles: seq<string>,
    components: Option<Components>,
    hasInit: bool)

  /** `RegisteredPlugin`: a manifest and whether its activation completed. */
  datatype Slot = Slot(manifest: Manifest, loaded: bool)

  /** How the awaited `init` settles: it resolves, or it rejects. */
  datatype InitOutcome = Resolves | Rejects

  datatype LoadError =
    | InvalidManifest                                  // "Plugin manifest must have a name"
    | AlreadyRegistered(name: string)                  // "Plugin already registered: <name>"
    | MissingDependency(dep: string, plugin: string)   // "Missing dependency: <dep> for plugin <plugin>"
    | InitFailed(name: string)                         // the error `init` rejected with, passed through

  /** Payload `{ name }` of the `plugin:loaded` event. */
  datatype PluginLoaded = PluginLoaded(name: string)

  /** An entry of `getComponents()`: a plugin name and its space view. */
  datatype PluginView = PluginView(name: string, spaceView: ViewRef)

  /** The pseudo-dependency that is always satisfied. */
  const Core: string := "core"

  const PluginLoadedEvent: Events.EventName := "plugin:loaded"

  /** A dependency is satisfied by `core` or by any occupied slot, loaded or not. */
  predicate Satisfied(dep: string, slots: map<string, Slot>) {
    dep == Core || dep in slots
  }

  /** The first dependency, in declaration order, that is not satisfied. */
  function FirstMissing(deps: seq<string>, slots: map<string, Slot>): (r: Option<string>)
    ensures r.None? <==> forall d :: d in deps ==> Satisfied(d, slots)
    ensures r.Some? ==> r.value in deps && !Satisfied(r.value, slots)
  {
    if deps == [] then None
    else if !Satisfied(deps[0], slots) then Some(deps[0])
    else
      assert forall d :: d in deps ==> d == deps[0] || d in deps[1..];
      FirstMissing(deps[1..], slots)
  }

  /**
   * The reported dependency is the first unsatisfied one: an unsatisfied
   * dependency after a satisfied prefix is the one reported.
   */
  lemma {:induction false} FirstMissingAt(deps: seq<string>, slots: map<string, Slot>, i: nat)
    requires i < |deps| && !Satisfied(deps[i], slots)
    requires forall j :: 0 <= j < i ==> Satisfied(deps[j], slots)
    ensures FirstMissing(deps, slots) == Some(deps[i])
  {
    if i > 0 {
      assert forall j :: 0 <= j < i - 1 ==> deps[1..][j] == deps[j + 1];
      FirstMissingAt(deps[1..], slots, i - 1);
    }
  }

  /** Everything the loader checks before it inserts a slot for `m`. */
  predicate Admissible(m: Manifest, slots: map<string, Slot>) {
    m.name != "" && m.name !in slots && FirstMissing(m.depends, slots).None?
  }

  /** Whether activating `m` fails in `init`: only a present `init` can reject. */
  predicate InitRejects(m: Manifest, init: InitOutcome) {
    m.hasInit && init == Rejects
  }

  /** The manifests of the loaded slots, visiting the names in `order`. */
  function ActiveManifests(order: seq<string>, slots: map<string, Slot>): (r: seq<Manifest>)
    ensures |r| <= |order|
  {
    if order == [] then []
    else
      var n := order[0];
      (if n in slots && slots[n].loaded then [slots[n].manifest] else []) + ActiveManifests(order[1..], slots)
  }

  /** The projection lists exactly the manifests of the loaded slots named in `order`. */
  lemma {:induction false} ActiveMembers(order: seq<string>, slots: map<string, Slot>)
    ensures forall m :: m in ActiveManifests(order, slots) <==>
      exists n :: n in order && n in slots && slots[n].loaded && slots[n].manifest == m
  {
    if order != [] {
      ActiveMembers(order[1..], slots);
      assert forall x :: x in order <==> x == order[0] || x in order[1..];
    }
  }

  /** The names of a list of manifests, in the same order. */
  function NamesOf(ms: seq<Manifest>): (r: seq<string>)
    ensures |r| == |ms|
    ensures forall i :: 0 <= i < |ms| ==> r[i] == ms[i].name
  {
    if ms == [] then [] else [ms[0].name] + NamesOf(ms[1..])
  }

  /** Whether a manifest declares `components.SpaceView`. */
  predicate HasSpaceView(m: Manifest) {
    m.components.Some? && m.components.value.spaceView.Some?
  }

  function ViewOf(m: Manifest): PluginView
    requires HasSpaceView(m)
  {
    PluginView(m.name, m.components.value.spaceView.value)
  }

  /** The `(name, SpaceView)` pairs of the manifests that declare a space view, in order. */
  function ViewsOf(ms: seq<Manifest>): (r: seq<PluginView>)
    ensures |r| <= |ms|
  {
    if ms == [] then []
    else (if HasSpaceView(ms[0]) then [ViewOf(ms[0])] else []) + ViewsOf(ms[1..])
  }

  /** The view projection lists exactly the views of the manifests that declare one. */
  lemma {:induction false} ViewsMembers(ms: seq<Manifest>)
    ensures forall v :: v in ViewsOf(ms) <==> exists m :: m in ms && HasSpaceView(m) && v == ViewOf(m)
  {
    if ms != [] {
      ViewsMembers(ms[1..]);
      assert forall x :: x in ms <==> x == ms[0] || x in ms[1..];
    }
  }

  /** Registration order is kept: names appended later come after earlier ones. */
  lemma {:induction false} ActiveAppend(a: seq<string>, b: seq<string>, slots: map<string, Slot>)
    ensures ActiveManifests(a + b, slots) == ActiveManifests(a, slots) + ActiveManifests(b, slots)
  {
    if a == [] {
      assert a + b == b;
    } else {
      var head := if a[0] in slots && slots[a[0]].loaded then [slots[a[0]].manifest] else [];
      calc {
        ActiveManifests(a + b, slots);
      ==  { assert (a + b)[0] == a[0] && (a + b)[1..] == a[1..] + b; }
        head + ActiveManifests(a[1..] + b, slots);
      ==  { ActiveAppend(a[1..], b, slots); }
        head + (ActiveManifests(a[1..], slots) + ActiveManifests(b, slots));
      ==
        (head + ActiveManifests(a[1..], slots)) + ActiveManifests(b, slots);
      }
    }
  }

  /** Changing the slot of a name outside `order` does not change the projection. */
  lemma {:induction false} ActiveFrame(order: seq<string>, slots: map<string, Slot>, n: string, s: Slot)
    requires n !in order
    ensures ActiveManifests(order, slots[n := s]) == ActiveManifests(order, slots)
  {
    if order != [] {
      ActiveFrame(order[1..], slots, n, s);
    }
  }

  lemma {:induction false} NamesOfAppend(a: seq<Manifest>, b: seq<Manifest>)
    ensures NamesOf(a + b) == NamesOf(a) + NamesOf(b)
  {
    if a == [] {
      assert a + b == b;
    } else {
      calc {
        NamesOf(a + b);
      ==  { assert (a + b)[0] == a[0] && (a + b)[1..] == a[1..] + b; }
        [a[0].name] + NamesOf(a[1..] + b);
      ==  { NamesOfAppend(a[1..], b); }
        [a[0].name] + (NamesOf(a[1..]) + NamesOf(b));
      ==
        ([a[0].name] + NamesOf(a[1..])) + NamesOf(b);
      }
    }
  }

  /** The view projection keeps order: it distributes over concatenation. */
  lemma {:induction false} ViewsAppend(a: seq<Manifest>, b: seq<Manifest>)
    ensures ViewsOf(a + b) == ViewsOf(a) + ViewsOf(b)
  {
    if a == [] {
      assert a + b == b;
    } else {
      var head := if HasSpaceView(a[0]) then [ViewOf(a[0])] else [];
      calc {
        ViewsOf(a + b);
      ==  { assert (a + b)[0] == a[0] && (a + b)[1..] == a[1..] + b; }
        head + ViewsOf(a[1..] + b);
      ==  { ViewsAppend(a[1..], b); }
        head + (ViewsOf(a[1..]) + ViewsOf(b));
      ==
        (head + ViewsOf(a[1..])) + ViewsOf(b);
      }
    }
  }

  /**
   * Appending a fresh name whose slot holds `m` extends the loaded projection
   * by `m` exactly when the slot is loaded.
   */
  lemma ActiveInsert(order: seq<string>, slots: map<string, Slot>, m: Manifest, loaded: bool)
    requires m.name !in order
    ensures ActiveManifests(order + [m.name], slots[m.name := Slot(m, loaded)]) ==
            ActiveManifests(order, slots) + (if loaded then [m] else [])
  {
    var slots' := slots[m.name := Slot(m, loaded)];
    ActiveFrame(order, slots, m.name, Slot(m, loaded));
    ActiveAppend(order, [m.name], slots');
    assert ActiveManifests([m.name], slots') == (if loaded then [m] else []) by {
      assert [m.name][1..] == [];
    }
  }

  /** Every slot is stored under its manifest's (non-empty) name. */
  ghost predicate Keyed(slots: map<string, Slot>) {
    forall n :: n in slots ==> n != "" && slots[n].manifest.name == n
  }

  /**
   * When slots are stored under their names, the names of the loaded manifests
   * are exactly the loaded names of `order`, each once if `order` has no
   * repetition.
   */
  lemma {:induction false} ActiveNames(order: seq<string>, slots: map<string, Slot>)
    requires Keyed(slots)
    ensures forall x :: x in NamesOf(ActiveManifests(order, slots)) <==> x in order && x in slots && slots[x].loaded
    ensures NoDup(order) ==> NoDup(NamesOf(ActiveManifests(order, slots)))
  {
    if order != [] {
      var n := order[0];
      ActiveNames(order[1..], slots);
      var head := if n in slots && slots[n].loaded then [slots[n].manifest] else [];
      assert ActiveManifests(order, slots) == head + ActiveManifests(order[1..], slots);
      NamesOfAppend(head, ActiveManifests(order[1..], slots));
      assert forall x :: x in order <==> x == n || x in order[1..];
      if NoDup(order) {
        var rest := NamesOf(ActiveManifests(order[1..], slots));
        assert NoDup(rest);
        if head == [] {
          assert NamesOf(head) + rest == rest;
        } else {
          assert n !in rest;
          assert NamesOf(head) + rest == [n] + rest;
          assert ([n] + rest)[1..] == rest;
        }
      }
    }
  }

  /**
   * The loader's invariant on its state: `order` lists each slot name once;
   * slots are stored under their manifests' names; and `announced` holds the
   * names of the loaded plugins, in registration order.
   */
  ghost predicate Consistent(order: seq<string>, slots: map<string, Slot>, announced: seq<string>) {
    NoDup(order) &&
    (forall n :: n in slots <==> n in order) &&
    Keyed(slots) &&
    announced == NamesOf(ActiveManifests(order, slots))
  }

  /**
   * Inserting a slot for a fresh, non-empty name at the end of the order keeps
   * the invariant (announcing the name when the slot is loaded), and extends
   * the loaded projection by `m` exactly when the slot is loaded.
   */
  lemma Admit(order: seq<string>, slots: map<string, Slot>, announced: seq<string>, m: Manifest, loaded: bool)
    requires Consistent(order, slots, announced)
    requires m.name != "" && m.name !in slots
    ensures Consistent(order + [m.name], slots[m.name := Slot(m, loaded)], announced + if loaded then [m.name] else [])
    ensures ActiveManifests(order + [m.name], slots[m.name := Slot(m, loaded)]) ==
            ActiveManifests(order, slots) + if loaded then [m] else []
  {
    InsertNoDup(order, m.name);
    AdmitKeys(order, slots, m, loaded);
    AdmitKeyed(slots, m, loaded);
    AdmitAnnounced(order, slots, announced, m, loaded);
  }

  /*
   * AdmitKeys, AdmitKeyed and SlotOverwrite are single steps of `Admit` and
   * `Register`. Dafny proves each unaided; they are stated on their own,
   * over plain values, so that each fact is proved once in a small context
   * rather than inside the larger proofs that use it.
   */

  /** Inserting a fresh name into both the map and the order keeps them in step. */
  lemma AdmitKeys(order: seq<string>, slots: map<string, Slot>, m: Manifest, loaded: bool)
    requires forall n :: n in slots <==> n in order
    ensures forall n :: n in slots[m.name := Slot(m, loaded)] <==> n in order + [m.name]
  {
  }

  /** Inserting a slot under its manifest's non-empty name keeps every slot keyed by its name. */
  lemma AdmitKeyed(slots: map<string, Slot>, m: Manifest, loaded: bool)
    requires Keyed(slots) && m.name != ""
    ensures Keyed(slots[m.name := Slot(m, loaded)])
  {
  }

  /** Appending a slot appends its name to the announcement log exactly when it is loaded. */
  lemma AdmitAnnounced(order: seq<string>, slots: map<string, Slot>, announced: seq<string>, m: Manifest, loaded: bool)
    requires announced == NamesOf(ActiveManifests(order, slots))
    requires m.name !in order
    ensures ActiveManifests(order + [m.name], slots[m.name := Slot(m, loaded)]) ==
            ActiveManifests(order, slots) + if loaded then [m] else []
    ensures announced + (if loaded then [m.name] else []) ==
            NamesOf(ActiveManifests(order + [m.name], slots[m.name := Slot(m, loaded)]))
  {
    ActiveInsert(order, slots, m, loaded);
    NamesOfAppend(ActiveManifests(order, slots), if loaded then [m] else []);
    assert NamesOf([m]) == [m.name];
  }

  /** Writing a slot twice leaves only the second write. */
  lemma SlotOverwrite(slots: map<string, Slot>, n: string, first: Slot, second: Slot)
    ensures slots[n := first][n := second] == slots[n := second]
  {
  }

  class PluginLoader {
    /** Name to slot, as the source's `Map`. */
    var plugins: map<string, Slot>
    /** The names of `plugins` in insertion order, the iteration order of the source's `Map`. */
    var order: seq<string>
    /** The bus on which activations are announced. */
    const bus: Events.EventBus
    /** The names announced with `plugin:loaded`, in announcement order. */
    ghost var announced: seq<string>

    /** `plugin:loaded` has been announced exactly once for each loaded plugin, in registration order. */
    ghost predicate Valid()
      reads this, bus
    {
      bus.Valid() && Consistent(order, plugins, announced)
    }

    constructor (bus: Events.EventBus)
      requires bus.Valid()
      ensures Valid()
      ensures this.bus == bus && plugins == map[] && order == [] && announced == []
    {
      this.bus := bus;
      plugins := map[];
      order := [];
      announced := [];
    }

    /** `get`: the manifest of any occupied slot, loaded or not; nothing otherwise. */
    function Get(name: string): (r: Option<Manifest>)
      reads this, bus
      requires Valid()
      ensures r.Some? <==> name in plugins
      ensures r.Some? ==> r.value == plugins[name].manifest && r.value.name == name
    {
      if name in plugins then Some(plugins[name].manifest) else None
    }

    /** `getAll`: the manifests of the loaded slots, in registration order. */
    function GetAll(): (r: seq<Manifest>)
      reads this, bus
      requires Valid()
      ensures forall m :: m in r <==> exists n :: n in plugins && plugins[n].loaded && plugins[n].manifest == m
      ensures NamesOf(r) == announced
      ensures NoDup(NamesOf(r))
    {
      ActiveNames(order, plugins);
      ActiveMembers(order, plugins);
      ActiveManifests(order, plugins)
    }

    /**
     * `getComponents`: `(name, SpaceView)` for each loaded plugin that declares
     * a space view, in registration order. A plugin whose `init` failed never
     * appears.
     */
    function GetComponents(): (r: seq<PluginView>)
      reads this, bus
      requires Valid()
      ensures forall v :: v in r <==>
        exists n :: n in plugins && plugins[n].loaded && HasSpaceView(plugins[n].manifest) && v == ViewOf(plugins[n].manifest)
      ensures forall v :: v in r ==> v.name in plugins && plugins[v.name].loaded
    {
      ViewsMembers(GetAll());
      ViewsOf(GetAll())
    }

    /**
     * The dependency loop of `register`: the first dependency, in declaration
     * order, that is neither `core` nor the name of an occupied slot.
     */
    method CheckDependencies(deps: seq<string>) returns (missing: Option<string>)
      ensures missing == FirstMissing(deps, plugins)
    {
      var i := 0;
      while i < |deps|
        invariant i <= |deps|
        invariant forall k :: 0 <= k < i ==> Satisfied(deps[k], plugins)
      {
        var dep := deps[i];
        if dep != Core && dep !in plugins {
          FirstMissingAt(deps, plugins, i);
          return Some(dep);
        }
        i := i + 1;
      }
      return None;
    }

    /**
     * `register`: rejects an empty name, then an occupied name, then the first
     * dependency other than `core` that has no slot, each before any change.
     * Otherwise it inserts an unloaded slot and awaits `init`; if `init` rejects,
     * that slot stays, unloaded, and the error propagates. Otherwise it marks
     * the slot loaded and emits `plugin:loaded` with the name, returning the
     * calls that emit made.
     */
    method Register(m: Manifest, init: InitOutcome) returns (r: Result<seq<Events.Delivery<PluginLoaded>>, LoadError>)
      requires Valid()
      modifies this
      ensures Valid()
      ensures m.name == "" ==> r == Err(InvalidManifest)
      ensures m.name != "" && m.name in old(plugins) ==> r == Err(AlreadyRegistered(m.name))
      ensures m.name != "" && m.name !in old(plugins) && FirstMissing(m.depends, old(plugins)).Some? ==>
        r == Err(MissingDependency(FirstMissing(m.depends, old(plugins)).value, m.name))
      ensures !Admissible(m, old(plugins)) ==>
        plugins == old(plugins) && order == old(order) && announced == old(announced)
      ensures Admissible(m, old(plugins)) ==> order == old(order) + [m.name]
      ensures Admissible(m, old(plugins)) && InitRejects(m, init) ==>
        r == Err(InitFailed(m.name)) && plugins == old(plugins)[m.name := Slot(m, false)] &&
        announced == old(announced) && GetAll() == old(GetAll()) && GetComponents() == old(GetComponents())
      ensures Admissible(m, old(plugins)) && !InitRejects(m, init) ==>
        r.Ok? && plugins == old(plugins)[m.name := Slot(m, true)] &&
        announced == old(announced) + [m.name] &&
        r.value == Events.Deliveries(bus.Subscribers(PluginLoadedEvent), PluginLoaded(m.name)) &&
        GetAll() == old(GetAll()) + [m] && GetComponents() == old(GetComponents()) + ViewsOf([m])
    {
      if m.name == "" {
        return Err(InvalidManifest);
      }
      if m.name in plugins {
        return Err(AlreadyRegistered(m.name));
      }
      var missing := CheckDependencies(m.depends);
      if missing.Some? {
        return Err(MissingDependency(missing.value, m.name));
      }

      ghost var before := ActiveManifests(order, plugins);
      ghost var oldOrder, oldPlugins, oldAnnounced := order, plugins, announced;
      Admit(order, plugins, announced, m, false);
      Admit(order, plugins, announced, m, true);
      plugins := plugins[m.name := Slot(m, false)];
      order := order + [m.name];
      if InitRejects(m, init) {
        return Err(InitFailed(m.name));
      }

      SlotOverwrite(oldPlugins, m.name, Slot(m, false), Slot(m, true));
      plugins := plugins[m.name := plugins[m.name].(loaded := true)];
      ViewsAppend(before, [m]);
      announced := announced + [m.name];
      var trace := bus.Emit(PluginLoadedEvent, PluginLoaded(m.name));
      r := Ok(trace);
    }
  }
}
