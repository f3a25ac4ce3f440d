# Static event manager, modelled in Dafny

This project models `Zend\EventManager\StaticEventManager`, the process-wide
registry of Zend Framework's event manager. The registry maps identifier strings
(usually class names) to one per-identifier event manager each, called the
delegate here. It forwards five operations to those delegates: `attach`,
`detach`, `getEvents`, `getHandlers` and `clearHandlers`. Delegates are created
lazily. A delegate is removed when `clearHandlers` is called without an event.
The registry itself is a lazily created singleton that `resetInstance` discards.

The model is functional:

- A registry is a `map<Id, Delegate>` (`StaticEventManager.Registry`).
- Each operation is a pure function. It returns the registry after the call and the call's result (`Outcome`).
- `Option.None` stands for PHP's `false` where the source uses `false` to mean "unknown identifier" (`getEvents`, `getHandlers`). `detach` and `clearHandlers` already return a boolean, and the model keeps that.
- The `string|array` first argument of `attach` is `IdArg = Single(id) | Many(ids)`. `Normalize` turns it into the list that the `(array)` cast would give.
- The internals of a delegate are not modelled. A delegate (`Delegates.Delegate`) is an identity stamp (`serial`) plus the record of the calls the registry forwarded to it. The stamp stands for object identity.
- A freshly constructed `EventManager` is `Fresh(n)`, with an empty record. The registry counts the delegates it has constructed (`created`) and stamps each new one with that count. So within one registry, two delegates built at different times are always distinct, even when they have received the same calls.
- `Registry.Valid` states the resulting invariant: every stored delegate was constructed by this registry, and no two identifiers share one. `Traces.ReachableValid` proves it holds in every reachable state.
- A `Behaviour` value, passed as a parameter, supplies what a delegate answers: its detach result, its clear result, its event names and its handlers. The registry passes those answers on unchanged.
- The singleton is an explicit slot of type `Option<Registry>` (module `Singleton`). Callers thread that slot and the registry values through their calls. There is no static mutable state.
- Module `Traces` runs sequences of calls. It proves which identifiers are keys after any sequence.

Files: `wrappers.dfy` (Option), `delegate.dfy` (delegate, calls, behaviour),
`registry.dfy` (the registry operations), `singleton.dfy`,
`lemmas.dfy` (properties across operations), `traces.dfy`.

## Model

| member | source | states |
|---|---|---|
| StaticEventManager.AttachOne | src/lib/Zend/EventManager/StaticEventManager.php:114-117 | One loop step adds `id` to the keys. That delegate gains exactly the forwarded call, and it starts from no calls when the key was absent. No other delegate changes. |
| StaticEventManager.AttachAll | src/lib/Zend/EventManager/StaticEventManager.php:113-118 | The keys afterwards are the old keys plus every listed id. Each delegate's calls are its old calls followed by one forwarded attach per occurrence of its key in the list. Existing delegates keep their identity. Delegates created for absent keys get identities the registry had not used before. Unlisted keys are untouched, and validity is preserved. |
| StaticEventManager.Attach | src/lib/Zend/EventManager/StaticEventManager.php:110-119 | Every normalised id is a key afterwards. The key set is the old set plus those ids. The delegates under unlisted keys are unchanged. Each delegate received one `(event, callback, priority)` attach per occurrence of its id. Existing delegates keep their identity, new ones get unused identities, and validity is preserved. |
| StaticEventManager.AttachDefault | src/lib/Zend/EventManager/StaticEventManager.php:110 | Omitting the priority is exactly `attach` at priority 1000. |
| StaticEventManager.Detach | src/lib/Zend/EventManager/StaticEventManager.php:128-134 | An unknown id gives false with the registry unchanged. A known id gives its delegate's own detach answer, and the detach is forwarded to that delegate only, which keeps its identity. The key set, the other delegates and validity are preserved. |
| StaticEventManager.GetEvents | src/lib/Zend/EventManager/StaticEventManager.php:142-148 | The result is absent exactly when the id is not a key. Otherwise it is the delegate's event names. The registry is unchanged. |
| StaticEventManager.GetHandlers | src/lib/Zend/EventManager/StaticEventManager.php:157-163 | The result is absent exactly when the id is not a key. Otherwise it is the delegate's handlers for the event. The registry is unchanged. |
| StaticEventManager.ClearHandlers | src/lib/Zend/EventManager/StaticEventManager.php:172-184 | An unknown id gives false with the registry unchanged. A known id with no event gives true and removes exactly that key. A known id with an event gives the delegate's clear answer, keeps every key and forwards the clear to the same delegate. Other keys keep their delegates in every case, and validity is preserved. |
| Singleton.GetInstance | src/lib/Zend/EventManager/StaticEventManager.php:63-69 | The slot afterwards holds the registry handed out. A filled slot hands out what it holds. An empty slot hands out a registry with no identifiers. |
| Singleton.GetInstanceIdempotent | src/lib/Zend/EventManager/StaticEventManager.php:63-69 | Repeating `getInstance` with no reset in between gives the same registry and the same slot. |
| Singleton.ResetThenGetIsEmpty | src/lib/Zend/EventManager/StaticEventManager.php:76-79 | After a reset, `getInstance` yields a registry with an empty identifier map. |
| RegistryLemmas.SingleIsOneElementList | src/lib/Zend/EventManager/StaticEventManager.php:112-118 | Attaching under the string `id` gives the same registry as attaching under the list `[id]`. |
| RegistryLemmas.AttachKeepsExistingDelegate | src/lib/Zend/EventManager/StaticEventManager.php:114-117 | An id that was already a key keeps its delegate: its identity is unchanged, its old calls are a proper prefix of the new ones, and the next call is the forwarded attach. |
| RegistryLemmas.AttachCreatesFreshDelegate | src/lib/Zend/EventManager/StaticEventManager.php:114-117 | An id that was absent gets a newly constructed delegate, with an identity the registry had not used before. Its only calls are the forwarded attaches. |
| RegistryLemmas.AttachThenQueriesPresent | src/lib/Zend/EventManager/StaticEventManager.php:113-118 | After attaching under an id, `getEvents` and `getHandlers` on that id, for any event, do not report absence. |
| RegistryLemmas.AttachKeepsDelegatesDistinct | src/lib/Zend/EventManager/StaticEventManager.php:113-117 | In a valid registry, attaching under a list gives any two distinct listed ids different delegates, so their answers need not coincide. |
| RegistryLemmas.ClearAllRemovesOnlyId | src/lib/Zend/EventManager/StaticEventManager.php:178-181 | Clearing a known id with no event returns true. Afterwards `getEvents` and `getHandlers` on it are absent for every event. Every other id answers both queries as before. |
| RegistryLemmas.ClearAllThenAttachStartsFresh | src/lib/Zend/EventManager/StaticEventManager.php:179 | In a valid registry, an id cleared with no event and then attached to again gets a newly constructed delegate. Its identity differs from the dropped delegate's and from every other stored delegate's, and it has received only the new attach. |
| RegistryLemmas.ClearEventKeepsId | src/lib/Zend/EventManager/StaticEventManager.php:183 | Clearing one event of a known id returns the delegate's answer. The id stays a key, and its events come from the same delegate after the clear. |
| RegistryLemmas.UnknownIdIsInert | src/lib/Zend/EventManager/StaticEventManager.php:128-184 | On an unknown id, detach and clearHandlers return false, and getEvents and getHandlers are absent. The registry is unchanged in all four cases. |
| Traces.KeyIffLive | src/lib/Zend/EventManager/StaticEventManager.php:110-184 | Starting from an empty registry, after any sequence of calls, an id is a key exactly when some attach listed it and no later call cleared it with no event. |
| Traces.ReachableValid | src/lib/Zend/EventManager/StaticEventManager.php:110-184 | Every registry reachable from an empty one by any sequence of calls is valid. Each stored delegate was constructed by that registry, and no two ids share a delegate. |
| Traces.QueriesAreInert | src/lib/Zend/EventManager/StaticEventManager.php:142-163 | Adding a `getEvents` or `getHandlers` call to any sequence of calls leaves the resulting registry unchanged. |

## Left out

- The delegate's internals are not modelled: event storage, priority-queue ordering, handler execution and the `CallbackHandler` type. Their source is not part of this model. So "after attaching `ev`, `getEvents` lists `ev`" cannot be stated. The model states instead that the delegate received the attach for `ev`.
- The handle that the delegate's `attach` returns is not modelled, because the registry discards it.
- Queries on a delegate are modelled as not changing it. Only the attach, detach and clear calls are recorded on the delegate.
- PHP array-key coercion is not modelled: numeric-string ids become integer keys in PHP. Ids are plain strings here.
- The `(array)` cast of a value that is neither a string nor an array is not modelled. PHP's array keys of a list argument are also not modelled, because only the values are iterated.
- Static mutable state and references are not modelled. The singleton is a value that callers thread through their calls. Changes made through the instance that `getInstance` returns are therefore not written back to the slot automatically.
- Dispatching events and invoking callbacks are left out, because the registry does neither.
- Every call forwarded to a delegate is assumed to return normally. In the source, line 115 stores a new delegate before line 117 forwards the attach. If that attach threw, the id would remain a key whose delegate received nothing, and the later ids in the list would be skipped. `StaticEventManager.AttachOne` treats the two steps as one, and `Traces.KeyIffLive` relies on that.
- On the key invariant: an identifier stays a key after `detach` or `clearHandlers(id, event)`, even when its delegate is left with no handlers. The code removes a key only through `clearHandlers(id)` with no event. `Traces.KeyIffLive` states the invariant as the code behaves.
- Singleton.ResetInstance: delegate identity stamps are counted per registry and restart at 0 in the registry built after a reset. A delegate built after a reset can therefore carry the same stamp as one from before it. In the source, both are distinct `EventManager` objects. Identity is distinct only within one registry, which is the scope of `Registry.Valid`, `Traces.ReachableValid` and `RegistryLemmas.ClearAllThenAttachStartsFresh`.
