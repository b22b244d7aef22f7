# Plugin coordination layer of ai-platform-core, modelled in Dafny

The platform coordinates independently written plugins inside one process.
Two small classes do the coordination:

- `EventBus` (`src/lib/events.ts`) has two parts:
  - Fire-and-forget events: `emit` and `on`. `on` returns an unsubscribe closure.
  - Request/response channels with at most one handler per event name: `request` and `handle`. `handle` returns an unregister closure.
- `PluginLoader` (`src/lib/plugins.ts`):
  - `register` validates a manifest, gates it on its declared dependencies and inserts an unloaded slot. It then awaits the manifest's `init`, marks the slot loaded and announces `plugin:loaded` on the bus.
  - `get`, `getAll` and `getComponents` are read-only projections of the slots, in registration order.

The model has five modules:

- `Wrappers`: `Option` and `Result`.
- `OrderedSets`: a JavaScript `Set` modelled as a duplicate-free sequence kept in insertion order. `Insert` is `add` and `Delete` is `delete`. The module proves that both keep the sequence free of repetition, that `delete` removes exactly one position, and that `delete` undoes `add`.
- `Events`: class `EventBus`.
  - The fields `listeners: map<EventName, seq<ListenerId>>` and `handlers: map<EventName, HandlerId>` are updated in place by `On`, `Unsubscribe`, `Handle` and `Unregister`.
  - Callbacks are opaque ids.
  - The closures returned by `on` and `handle` become the values `Subscription(event, listener)` and `Registration(event)`, applied by `Unsubscribe` and `Unregister`.
  - `Emit` loops over the listener set and returns the calls it makes as a trace of `Delivery` values. The trace is proved equal to `Deliveries`, the specification of "every listener once, in subscription order, with the same payload".
  - `Request` returns the one `Invocation` it makes, or `HandlerNotFound`.
- `Plugins`: class `PluginLoader`.
  - The source's insertion-ordered `Map` becomes the field `plugins: map<string, Slot>` plus the field `order: seq<string>` of names in insertion order.
  - A ghost field `announced` logs the names announced with `plugin:loaded`.
  - The loader holds its bus. `Register` returns the deliveries made by the bus's `Emit`.
  - How `init` settles is a parameter (`Resolves` or `Rejects`).
  - The class invariant `Valid()` states four things:
    - Names are unique in `order`.
    - `order` and the map hold the same names.
    - Every slot is stored under its manifest's non-empty name.
    - `announced` is exactly the names of the loaded plugins, in registration order. So `getAll()` lists each plugin that was announced, once, in the order it was announced.
- `Scenarios`: the builtin manifests and end-to-end call sequences on fresh bus and loader instances, proved from the operations' contracts alone.

Some points of the code's behaviour are worth stating explicitly:

- The dependency check asks only whether the dependency has a slot (`this.plugins.has(dep)`, `src/lib/plugins.ts:37`). It does not ask whether that plugin is loaded. So a plugin may depend on one whose `init` failed (`Scenarios.FailedInit`).
- A failed `init` leaves its slot occupied with `loaded = false`. Every later `register` of that name fails with `AlreadyRegistered`.
- "Registering the same manifest twice yields `AlreadyRegistered`" holds only when the first call passed validation. If the first call failed on an empty name or a missing dependency, the second call fails the same way. `Scenarios.RegisterTwice` therefore requires a non-empty name and dependencies that are all `core`.
- `registerBuiltinPlugins` registers only the Chat manifest (`src/lib/builtin-plugins/index.ts:4-6`). Registering all three builtin manifests is a separate scenario.

## Model

| member | source | states |
|---|---|---|
| OrderedSets.NoDupDistinct | src/lib/events.ts:5 | A listener set holds each callback once: the recursive `NoDup` is equivalent to pairwise distinctness of positions. |
| OrderedSets.Insert | src/lib/events.ts:21 | `Set.add`: the element is present afterwards, the old members keep their positions as a prefix, at most one element is added, and adding a present element changes nothing. |
| OrderedSets.InsertNoDup | src/lib/events.ts:21 | `add` keeps a duplicate-free set duplicate-free. |
| OrderedSets.Delete | src/lib/events.ts:25 | `Set.delete`: the element is absent afterwards, the set does not grow, and deleting an absent element changes nothing. |
| OrderedSets.DeleteMembers | src/lib/events.ts:25 | After `delete(x)`, the members are exactly the old members other than `x`. |
| OrderedSets.DeleteNoDup | src/lib/events.ts:25 | `delete` keeps a duplicate-free set duplicate-free. |
| OrderedSets.DeleteAt | src/lib/events.ts:25 | In a duplicate-free set, deleting the member at position `i` removes exactly that position and keeps the order of the others. |
| OrderedSets.DeleteUndoesInsert | src/lib/events.ts:21-25 | Unsubscribing a listener that was not subscribed before `on` restores the set `on` started from. |
| Events.Deliveries | src/lib/events.ts:11-12 | The delivery trace for a listener set has one call per listener, positionally equal to `listener(payload)` for the same payload. |
| Events.DeliveriesOnce | src/lib/events.ts:12 | Delivering to a listener set calls no listener twice. |
| Events.EventBus.constructor | src/lib/events.ts:5-6 | A new bus has no listeners and no handlers. |
| Events.EventBus.Emit | src/lib/events.ts:9-14 | The loop over the listener set returns exactly `Deliveries(Subscribers(e), p)`: every current listener once, in subscription order, with the same payload. With no set for `e` it makes no call. It modifies neither map. |
| Events.EventBus.On | src/lib/events.ts:17-21 | Only the set of `e` changes, and it becomes `Insert(old set or empty, h)`. Subscribing twice changes nothing. Handlers are unchanged, and the returned closure captures `(e, h)`. |
| Events.EventBus.Unsubscribe | src/lib/events.ts:24-26 | If `e` has a set, only that set changes, and `h` is deleted from it. If `e` has no set, nothing changes. Either way `h` no longer listens to `e`, and handlers are unchanged. |
| Events.EventBus.Request | src/lib/events.ts:30-36 | Fails with `HandlerNotFound(e)` exactly when `e` has no handler. Otherwise it invokes exactly `handlers[e]` with the payload. It modifies nothing. |
| Events.EventBus.Handle | src/lib/events.ts:39-43 | Fails with `HandlerConflict(e)` exactly when `e` already has a handler, and then leaves `handlers` unchanged. Otherwise it sets `handlers[e] := h` and returns the unregister closure for `e`. Listeners are unchanged. |
| Events.EventBus.Unregister | src/lib/events.ts:46-48 | Removes the entry of `e`, whichever handler it holds. Nothing else changes. |
| Plugins.FirstMissing | src/lib/plugins.ts:36-40 | `None` exactly when every dependency is `core` or has a slot. Otherwise it returns an unsatisfied dependency. |
| Plugins.FirstMissingAt | src/lib/plugins.ts:36-40 | The reported dependency is the first unsatisfied one in declaration order. |
| Plugins.ActiveManifests | src/lib/plugins.ts:58-62 | The loaded projection is no longer than the name order. |
| Plugins.ActiveMembers | src/lib/plugins.ts:58-62 | The projection contains exactly the manifests of loaded slots named in the order. |
| Plugins.ActiveAppend | src/lib/plugins.ts:58-62 | The projection follows insertion order: it distributes over concatenation of the name order. |
| Plugins.ActiveFrame | src/lib/plugins.ts:58-62 | Changing the slot of a name outside the order does not change the projection. |
| Plugins.ActiveInsert | src/lib/plugins.ts:58-62 | Appending a fresh name with slot `m` extends the projection by `m` exactly when the slot is loaded. |
| Plugins.ActiveNames | src/lib/plugins.ts:58-62 | The projected names are exactly the loaded names of the order. If names are unique, each is listed once. |
| Plugins.NamesOf | src/lib/plugins.ts:51 | The list of names has the same length as the manifests, with the name of each at the same position. |
| Plugins.NamesOfAppend | src/lib/plugins.ts:51 | Taking names distributes over concatenation. |
| Plugins.ViewsOf | src/lib/plugins.ts:64-68 | The view projection is no longer than its input. |
| Plugins.ViewsMembers | src/lib/plugins.ts:64-68 | The view projection contains exactly `(name, SpaceView)` of the manifests that declare a space view. |
| Plugins.ViewsAppend | src/lib/plugins.ts:64-68 | The view projection keeps order: it distributes over concatenation. |
| Plugins.Admit | src/lib/plugins.ts:43-50 | Inserting a slot for a fresh, non-empty name keeps the loader invariant: it appends the name to the log when the slot is loaded. The loaded projection grows by `m` exactly when loaded. |
| Plugins.AdmitAnnounced | src/lib/plugins.ts:50-51 | Appending a slot appends its name to the announcement log exactly when it is loaded. The log stays equal to the names of the loaded projection. |
| Plugins.PluginLoader.constructor | src/lib/plugins.ts:23 | A new loader has no slots and has announced nothing. |
| Plugins.PluginLoader.Get | src/lib/plugins.ts:54-56 | Returns a manifest exactly when the name has a slot, loaded or not. That manifest is the slot's, and it carries that name. |
| Plugins.PluginLoader.GetAll | src/lib/plugins.ts:58-62 | Contains exactly the manifests of loaded slots. Its names are the announcement log, in announcement order, and each appears once. |
| Plugins.PluginLoader.GetComponents | src/lib/plugins.ts:64-68 | Contains exactly `(name, SpaceView)` for loaded manifests that declare a space view. Every entry names a loaded slot, so a plugin whose `init` failed never appears. |
| Plugins.PluginLoader.CheckDependencies | src/lib/plugins.ts:36-40 | The dependency loop returns the first dependency that is neither `core` nor an occupied slot, which is `FirstMissing`. |
| Plugins.PluginLoader.Register | src/lib/plugins.ts:25-52 | Each error is checked in the source's order: empty name, occupied name, then first missing dependency. Each leaves the slots, the order and the log unchanged. Otherwise the name is appended to the order. If `init` rejects, it fails with `InitFailed` and leaves an unloaded slot, with `getAll` and `getComponents` unchanged. If `init` resolves, the slot becomes loaded, the name is announced once and the result is the bus's deliveries of `plugin:loaded {name}`. `getAll` then gains `m` at the end, and `getComponents` gains its view, if any, at the end. |
| Scenarios.Load | src/lib/plugins.ts:43-51 | An admissible manifest whose `init` resolves is inserted loaded, is announced to the current `plugin:loaded` listeners, and is appended to `getAll` and `getComponents`. |
| Scenarios.RegisterBuiltinPlugins | src/lib/builtin-plugins/index.ts:4-6 | After `registerBuiltinPlugins`, Chat is the only plugin. It is loaded, and Chat's space view is the only component. |
| Scenarios.ChatAndGraph | src/lib/builtin-plugins/graph.ts:4-15 | Registering Graph after Chat lists both in that order, with both space views. |
| Scenarios.RegisterAllBuiltins | src/lib/builtin-plugins/thoughts.ts:4-12 | Registering Chat, Graph and Thoughts loads all three in order. Only Chat and Graph contribute a component. |
| Scenarios.RegisterTwice | src/lib/plugins.ts:31-33 | After a first `register` that passed validation, a second one fails with `AlreadyRegistered`, and `get` and `getAll` answer as before, whichever way either `init` settled. |
| Scenarios.LoadFirst | src/lib/plugins.ts:50-51 | With one `plugin:loaded` listener, registering `a` delivers `{name: a}` to it exactly once. |
| Scenarios.LoadSecond | src/lib/plugins.ts:36-40 | `b`, which depends on `a`, is admitted after `a`, and is announced once. `getAll` is `[a, b]`. |
| Scenarios.DependencyChain | src/lib/plugins.ts:36-40 | A manifest depending on a never-registered name fails with `MissingDependency(z, c)`. `getAll` is still `[a, b]` and `get(c)` finds nothing. |
| Scenarios.FailedInit | src/lib/plugins.ts:43-50 | A rejected `init` leaves the manifest retrievable by `get` but blocks re-registration. The manifest is absent from `getAll` and `getComponents`. It still satisfies a dependent's dependency. |
| Scenarios.ThreeListeners | src/lib/events.ts:17-21 | Subscribing `l1`, `l2`, `l3` and then `l1` again leaves the set `[l1, l2, l3]`. |
| Scenarios.EmitAfterUnsubscribe | src/lib/events.ts:9-26 | `emit` delivers to `l1`, `l2`, `l3` once each in order. After `l2` unsubscribes, twice, it delivers to `l1`, `l3` only. |
| Scenarios.RequestWithoutHandler | src/lib/events.ts:30-36 | With listeners but no handler, `request` fails with `HandlerNotFound`. |
| Scenarios.HandleConflict | src/lib/events.ts:39-43 | A second `handle` fails, and requests still reach the first handler. |
| Scenarios.StaleUnregister | src/lib/events.ts:46-48 | After unregistering, `handle` succeeds again. Running the first, stale unregister closure removes the new handler, and requests fail. |

## Left out

- Asynchrony: `init` and `request` are awaited in the source. The model takes `init`'s outcome as a parameter, and does not model concurrent `register` calls interleaving at the `await`.
- Callback side effects: listeners and handlers are not run. `Emit` records the calls as `Delivery` values and `Request` as an `Invocation`, and the handler's reply is not modelled. Exceptions thrown by listeners or handlers, and listeners that change the bus during `emit` (the live `Set.forEach`), are not modelled. `Emit` delivers to the set as it is when called.
- Effects of `init` on the bus (a plugin subscribing from its `init`) are not modelled: `init` is only a resolve/reject outcome.
- The stored entry that `register` flips (`loaded = true` on the object held by the map) is modelled as replacing the map entry. No other reference to that entry exists in the source.
- The module-level singletons `events` and `plugins` are explicit instances. The loader is given its bus.
- The manifest fields `optional` and `listens` appear only in the builtin manifests, not in `PluginManifest`, and are left out. The `Tab` component is kept in the manifest but no projection reads it. `version`, `emits` and `handles` are carried but never checked, as in the source.
- An absent manifest name is modelled as the empty name. Both are rejected by the same check.
- View components are opaque references (`ViewRef`). Their React rendering is outside this model.
- Plugins.PluginLoader.GetAll: states membership, order (through `Register`) and uniqueness rather than the literal `filter`/`map` pipeline.
