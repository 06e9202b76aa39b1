# mst-async-store, modelled in Dafny

mst-async-store is a keyed cache of remotely fetched items, built on mobx-state-tree. It
has two parts:

- **The async container** (`createAsyncContainer`) is one cache slot. It holds an
  optional value, an optional error, the flags `isReady` and `isPending`, the liveness
  of its tree node, and two timestamps (`lastModified`, `expiresAt`). Two time-to-live
  settings govern it: `ttl` for values and `failstateTtl` for failures. Three views
  (`hasExpired`, `inFailstate`, `shouldFetch`) decide whether it wants fetching. Reading
  its `value` may schedule a refetch for after the current turn.
- **The async store** (`createAsyncStore`) keeps a map of containers by id and a fetch
  queue of ids. The queue may also hold the sentinel `"*"`, meaning "fetch everything".
  The read views `getOne`, `getMany` and `getAll` schedule the enqueue actions
  `fetchOne`, `fetchMany` and `fetchAll`. A reaction drains the queue whenever the store
  is idle: `"*"` first, otherwise up to 40 ids in FIFO order. The three generator flows
  `_fetchAll`, `_fetchMany` and `_fetchOne` call the injected client and write what it
  returns (or the error) back into the containers.

How the model is laid out:

- `wrappers.dfy` holds `Option`, `Result` and `Outcome`.
- `container.dfy` (module `AsyncContainer`):
  - the container's fields as the record `Snapshot`;
  - the views and each action's effect, as functions on `Snapshot`;
  - the class `Container`, whose methods assign the fields and are specified by those
    functions.
- `container_properties.dfy` states what the actions promise about the views (TTL
  behaviour, gating, idempotence).
- `fetch_queue.dfy` (module `FetchQueue`):
  - the JavaScript array operations the store relies on, with their exact semantics,
    including `splice` with a negative start;
  - the enqueue rules;
  - the drain rule.
- `reconcile.dfy` (module `Reconcile`) gives reference definitions, over maps of
  snapshots, of what the flows write into the containers.
- `store.dfy` (module `AsyncStore`):
  - the class `Store`, with `containers` as a `map` field and `fetchQueue` as a `seq`
    field;
  - each flow split at its `yield` into a Begin and a Complete method;
  - the reaction as the method `Drain`, guarded by `!isPending && |fetchQueue| > 0`;
  - the read views, which return the action they schedule instead of calling `asap`.
- `scenarios.dfy` chains these methods into the documented end-to-end uses: get one,
  many or all, then the scheduled enqueue, the drain and the settled fetch. Each
  scenario states what the caller then observes.

Time is an explicit `now: nat` argument. It stands for both `Date.now()` and the
mobx-utils `now()` clock. The injected client is reduced to which of
`fetchOne`/`fetchMany`/`fetchAll` it provides (`Client`) and how each call settled
(`Settled`: resolved with items, or rejected with an error).

## Model

| member | source | states |
|---|---|---|
| AsyncContainer.Snapshot.HasExpired | src/createAsyncContainer.ts:75-79 | defines `hasExpired`: a positive `expiresAt` that the clock has reached |
| AsyncContainer.Snapshot.InFailstate | src/createAsyncContainer.ts:118-124 | defines `inFailstate`: an error is held and, when failstateTtl > 0, it has not expired |
| AsyncContainer.Snapshot.ShouldFetch | src/createAsyncContainer.ts:127-134 | defines `shouldFetch`: not pending, not ready or expired, not in failstate, and alive |
| AsyncContainer.Snapshot.Ready | src/createAsyncContainer.ts:82-85 | defines the state `setReady` leaves: not pending, ready, all else kept |
| AsyncContainer.Snapshot.Pending | src/createAsyncContainer.ts:86-89 | defines the state `setPending` leaves: no error, pending, all else kept |
| AsyncContainer.Snapshot.Failed | src/createAsyncContainer.ts:90-97 | defines the state `setFailstate(e)` leaves: its five field writes, with the failstateTtl expiry |
| AsyncContainer.Snapshot.Cleared | src/createAsyncContainer.ts:98-101 | defines the state `clearFailstate` leaves: no error, `expiresAt` = now - 1 |
| AsyncContainer.Snapshot.Valued | src/createAsyncContainer.ts:108-114 | defines the state a successful `setValue(v)` leaves: its six field writes, with the ttl expiry |
| AsyncContainer.Initial | src/createAsyncContainer.ts:64-70 | defines the volatile state of a new container, with no value and alive |
| AsyncContainer.Container.constructor | src/createAsyncContainer.ts:64-70 | a new container has the given id and options: not ready, not pending, no error, no value, `lastModified` = now, `expiresAt` = 0, alive |
| AsyncContainer.Container.SetReady | src/createAsyncContainer.ts:82-85 | clears `isPending`, sets `isReady`; every other field unchanged |
| AsyncContainer.Container.SetPending | src/createAsyncContainer.ts:86-89 | clears the error, sets `isPending`; every other field unchanged |
| AsyncContainer.Container.SetFailstate | src/createAsyncContainer.ts:90-97 | not pending, ready, error = e, `lastModified` = now, `expiresAt` = now + failstateTtl when failstateTtl > 0, else 0; not guarded by liveness |
| AsyncContainer.Container.ClearFailstate | src/createAsyncContainer.ts:98-101 | clears the error and sets `expiresAt` to now - 1; nothing else changes |
| AsyncContainer.Container.SetValue | src/createAsyncContainer.ts:104-115 | alive: succeeds with no error, not pending, ready, value = v, `lastModified` = now, `expiresAt` = now + ttl when ttl > 0, else 0; dead: fails with "Trying to set value on a dead container" and changes no field |
| AsyncContainer.Container.Destroy | src/createAsyncContainer.ts:105-107 | the tree node dies (what `isAlive` reads) and no other field changes |
| AsyncContainer.Container.GetValue | src/createAsyncContainer.ts:137-160 | returns the held value and changes nothing; it schedules a refetch exactly when shouldFetch holds |
| AsyncContainer.Container.RunScheduledFetch | src/createAsyncContainer.ts:140-157 | the deferred step of a store-less container checks shouldFetch again, and calls the injected fetch exactly when that holds and a fetch was injected |
| ContainerProperties.FreshContainer | src/createAsyncContainer.ts:64-70 | a new container is not ready, not pending, has no error and no value, has not expired, is not in failstate, and shouldFetch holds at every time |
| ContainerProperties.ShouldFetchGate | src/createAsyncContainer.ts:127-134 | a failstate, a pending fetch or a dead node each close shouldFetch; an open shouldFetch means not ready or expired |
| ContainerProperties.ZeroExpiryNeverExpires | src/createAsyncContainer.ts:75-79 | `expiresAt` = 0 never counts as expired |
| ContainerProperties.ValueSet | src/createAsyncContainer.ts:104-115 | after setValue the container is ready, not pending, error-free and not in failstate; it holds v, stamped with now; expiry follows ttl; liveness is kept |
| ContainerProperties.ValueWithoutTtlNeverExpires | src/createAsyncContainer.ts:114 | with ttl 0, a set value never expires and shouldFetch stays false at every later time |
| ContainerProperties.ValueWithTtlExpires | src/createAsyncContainer.ts:114 | with ttl T > 0, a value set at t is fresh (no fetch) before t + T; from t + T on it has expired, and shouldFetch holds exactly when the node is alive |
| ContainerProperties.FailstateSet | src/createAsyncContainer.ts:90-97 | after setFailstate the container is ready, not pending, holds e with its value kept, is stamped with now, and is in failstate with shouldFetch false at once |
| ContainerProperties.FailstateWithoutTtlIsPermanent | src/createAsyncContainer.ts:118-124 | with failstateTtl 0, a failure is a failstate at every later time, and shouldFetch stays false |
| ContainerProperties.FailstateWithTtlExpires | src/createAsyncContainer.ts:118-134 | with failstateTtl T > 0, a failure at t blocks fetching before t + T; from t + T on there is no failstate, and shouldFetch holds exactly when the node is alive |
| ContainerProperties.PendingIsIdempotent | src/createAsyncContainer.ts:86-89 | setPending clears the error, blocks fetching, and a second call changes nothing |
| ContainerProperties.ClearedHasExpired | src/createAsyncContainer.ts:98-101 | clearFailstate at t > 1 clears the error and makes the container expired at every time from t on; shouldFetch then holds exactly when it is not pending and alive |
| ContainerProperties.ClearedEarlyNeverExpires | src/createAsyncContainer.ts:98-101 | clearFailstate at t <= 1 writes an `expiresAt` that never counts as expired |
| ContainerProperties.FailedIsIdempotent | src/createAsyncContainer.ts:90-97 | recording the same failure twice at the same time equals recording it once |
| ContainerProperties.ValuedOverwrites | src/createAsyncContainer.ts:104-115 | a second setValue overwrites everything the first one wrote |
| FetchQueue.IndexOf | src/createAsyncStore.ts:151 | `indexOf`: -1 exactly when x is absent; otherwise the first position holding x |
| FetchQueue.Splice | src/createAsyncStore.ts:77-79 | defines `Array.prototype.splice(start, deleteCount)` without insertions: what it removes and what it leaves, for negative and out-of-range arguments too |
| FetchQueue.SpliceStart | src/createAsyncStore.ts:77-79 | the start position of `splice` always lies within the array |
| FetchQueue.SpliceOneAt | src/createAsyncStore.ts:153 | `splice(i, 1)` at a valid i removes exactly the element at i and keeps the order of the rest |
| FetchQueue.SpliceMinusOne | src/createAsyncStore.ts:91-92 | `splice(-1, 1)` removes the last element of a non-empty array, and nothing from an empty one |
| FetchQueue.SplicePrefix | src/createAsyncStore.ts:157 | `splice(0, n)` removes the first min(n, length) elements in order and leaves the suffix |
| FetchQueue.SpliceOnlyRemoves | src/createAsyncStore.ts:77-79 | splice never adds an element: the removed part plus the rest is, as a multiset, the old array |
| FetchQueue.Enqueue | src/createAsyncStore.ts:181-183 | defines fetchOne's push: append the id unless it is queued |
| FetchQueue.EnqueueAll | src/createAsyncStore.ts:196-198 | defines fetchAll's push: append `"*"` unless it is queued |
| FetchQueue.EnqueueQueuesOnce | src/createAsyncStore.ts:181-183 | fetchOne's push leaves the id queued, once if it was queued at most once; it changes no other id's count, and it keeps a duplicate-free queue duplicate-free |
| FetchQueue.EnqueueAllOnce | src/createAsyncStore.ts:195-199 | repeated fetchAll calls leave the queue as the first one did, with `"*"` queued once; no other entry changes |
| FetchQueue.Registered | src/createAsyncStore.ts:193 | the filter keeps every registered id as often as it occurs, keeps no other id, and adds nothing |
| FetchQueue.FetchManyCanDuplicate | src/createAsyncStore.ts:193 | fetchMany does not dedupe: an id that fetchOne queued can end up queued twice |
| FetchQueue.Drain | src/createAsyncStore.ts:147-163 | a queued `"*"` wins, and only its first occurrence leaves. Otherwise the first min(40, n) ids leave in order, with the suffix kept; exactly one id is a fetch-one plan, more are a fetch-many plan |
| FetchQueue.DrainIsFifo | src/createAsyncStore.ts:157-162 | without `"*"`, the dispatched batch followed by the rest is the old queue, and a fetch-many batch has between 2 and 40 ids |
| FetchQueue.DrainSingle | src/createAsyncStore.ts:158-159 | a queue of one id other than `"*"` drains into a fetch-one of that id and leaves nothing |
| FetchQueue.DrainBatch | src/createAsyncStore.ts:160-161 | a queue of 2 to 40 ids, none of them `"*"`, drains into one fetch-many of all of them and leaves nothing |
| FetchQueue.AfterArrival | src/createAsyncStore.ts:91-92 | defines one returned id's queue update, `splice(indexOf(id), 1)` |
| FetchQueue.ArrivalOfQueuedId | src/createAsyncStore.ts:91-92 | a returned id that is queued leaves the queue at its first position |
| FetchQueue.ArrivalOfUnqueuedIdDropsLast | src/createAsyncStore.ts:91-92 | a returned id that is not queued makes `indexOf` return -1, so the last queued id is dropped |
| FetchQueue.AfterArrivals | src/createAsyncStore.ts:86-96 | processing the returned ids never brings in an id that was not queued |
| FetchQueue.AfterArrivalsOnlyRemoves | src/createAsyncStore.ts:86-96 | processing the returned ids only takes entries off the queue: the result is a sub-multiset of the old queue |
| FetchQueue.AfterArrivalsFromEmpty | src/createAsyncStore.ts:86-96 | with nothing queued, processing any returned ids leaves the queue empty |
| FetchQueue.AfterArrivalsStep | src/createAsyncStore.ts:87-95 | one more returned id updates the queue by one more `splice(indexOf(id), 1)` |
| Reconcile.FirstMissingIsMissing | src/createAsyncStore.ts:111-114 | every id before the first missing position has a container, and the id at it (if any) does not |
| Reconcile.FirstMissingAt | src/createAsyncStore.ts:104-114 | a position with only registered ids before it, and an unregistered id (or the end) at it, is the first missing position |
| Reconcile.LastWith | src/createAsyncStore.ts:86-96 | the last item with a given id, when there is one, is one of the items and has that id; none means no item has it |
| Reconcile.Absorb | src/createAsyncStore.ts:87-95 | defines the writes of the forEach: in order, each item's container (registered, or new at now) gets setValue |
| Reconcile.AbsorbKeys | src/createAsyncStore.ts:86-96 | writing the items keeps every container and adds one container for each returned id |
| Reconcile.AbsorbStep | src/createAsyncStore.ts:87-95 | writing one more item changes only that item's container: the registered one, or a new one, gets setValue |
| Reconcile.AbsorbHoldsLastItem | src/createAsyncStore.ts:86-96 | after the writes, a container with no returned item is untouched, and one with returned items holds the last of them on top of its old (or new) state |
| Reconcile.MarkPending | src/createAsyncStore.ts:104-108 | marking a batch pending registers and drops no container |
| Reconcile.MarkPendingStep | src/createAsyncStore.ts:104-108 | marking one more registered id pending changes only that container |
| Reconcile.MarkPendingBlocksFetch | src/createAsyncStore.ts:104-108 | every batch container is left pending with no error and shouldFetch false; every other container is untouched |
| AsyncStore.Wanting | src/createAsyncStore.ts:219 | the filter keeps exactly the containers whose shouldFetch holds, and it is non-empty exactly when one of them does |
| AsyncStore.Adopt | src/createAsyncStore.ts:186-192 | defines fetchMany's registration loop: in order, a wanting container whose id is unregistered is registered under it |
| AsyncStore.AdoptRegistersWanting | src/createAsyncStore.ts:186-192 | registration keeps every registered container and registers only wanting containers under their own ids; every wanting container's id ends up registered |
| AsyncStore.FailEach | src/createAsyncStore.ts:116-118 | every batch container gets setFailstate(e) |
| AsyncStore.Store.constructor | src/createAsyncStore.ts:41-49 | a new store has no containers, an empty queue, and is neither pending nor ready |
| AsyncStore.Store.SetReady | src/createAsyncStore.ts:51-54 | not pending, ready |
| AsyncStore.Store.SetPending | src/createAsyncStore.ts:55-57 | pending |
| AsyncStore.Store.SpliceFetchQueue | src/createAsyncStore.ts:77-79 | returns what `splice` removes; the queue becomes what it leaves |
| AsyncStore.Store.SetValueAt | src/createAsyncStore.ts:112-113 | only the container registered under the item's id changes, and it gets setValue |
| AsyncStore.Store.SetPendingAt | src/createAsyncStore.ts:105-106 | only the container registered under the id changes, and it gets setPending |
| AsyncStore.Store.DequeueArrival | src/createAsyncStore.ts:91-92 | the queue becomes `splice(indexOf(id), 1)`'s rest |
| AsyncStore.Store.WriteArrival | src/createAsyncStore.ts:88-94 | the item's container (the registered one, else a new one created at now) gets the item; registered containers stay the same objects |
| AsyncStore.Store.Arrive | src/createAsyncStore.ts:87-95 | one turn of the forEach: the id leaves the queue, then the item is written |
| AsyncStore.Store.ReceiveItem | src/createAsyncStore.ts:87-95 | turn i of the forEach moves the queue and the containers one item further along AfterArrivals and Absorb |
| AsyncStore.Store.ReceiveAll | src/createAsyncStore.ts:86-96 | the queue becomes AfterArrivals of the returned ids; the containers become Absorb of the items; old containers stay the same objects and added ones are new |
| AsyncStore.Store.BeginFetchAll | src/createAsyncStore.ts:80-85 | without the capability it fails with "Store doesn't support fetchAll" and leaves `isPending` as it was; otherwise it sets pending |
| AsyncStore.Store.CompleteFetchAll | src/createAsyncStore.ts:85-98 | a rejection propagates and changes nothing. A resolution writes every item as ReceiveAll does, then the store ends ready and not pending |
| AsyncStore.Store.BeginFetchMany | src/createAsyncStore.ts:99-108 | without the capability it fails with "Store doesn't support fetchMany" and changes nothing. Otherwise the store is pending and the batch is marked pending up to the first unregistered id, which raises. With no unregistered id, the captured containers are the registered ones, in order |
| AsyncStore.Store.MarkPendingAt | src/createAsyncStore.ts:104-108 | turn i of the map marks one more batch container pending |
| AsyncStore.Store.MarkBatchPending | src/createAsyncStore.ts:104-108 | marks the batch pending up to the first unregistered id, which raises; otherwise it returns every batch container in order |
| AsyncStore.Store.WriteItemAt | src/createAsyncStore.ts:111-114 | turn i of the forEach writes one more item into its registered container |
| AsyncStore.Store.WriteItems | src/createAsyncStore.ts:109-114 | writes the items in order up to the first unregistered id, and returns the error raised there, if any |
| AsyncStore.Store.CompleteFetchMany | src/createAsyncStore.ts:109-120 | a rejection puts its error into every captured container. A resolution writes the items, and an id without a container puts the raised error into every captured container. Either way no other container changes and the store ends ready and not pending |
| AsyncStore.Store.WriteBatch | src/createAsyncStore.ts:109-119 | the try/catch for a resolved fetch: the items before the first unregistered id are written; if there is such an id, its error then goes into every captured container |
| AsyncStore.Store.FailBatch | src/createAsyncStore.ts:115-119 | the catch block: every captured container gets setFailstate(e), and no other registered container changes |
| AsyncStore.Store.BeginFetchOne | src/createAsyncStore.ts:122-127 | without the capability it fails with "Store doesn't support fetchOne" and leaves `isPending` as it was; otherwise it sets pending and captures the registered container |
| AsyncStore.Store.CompleteFetchOne | src/createAsyncStore.ts:128-134 | the captured container gets the item, or the rejection, or the dead-container error from setValue. The store then ends ready and not pending. With no captured container the flow fails and the store flags stay as they were |
| AsyncStore.Store.Drain | src/createAsyncStore.ts:147-163 | fires only when the store is not pending and the queue is not empty. It dispatches what FetchQueue.Drain plans, leaves its rest queued, and reports each Begin step's result. Every dispatched id is registered |
| AsyncStore.Store.DispatchBatch | src/createAsyncStore.ts:157-162 | one id goes to `_fetchOne`; any other batch goes to `_fetchMany`, and all its containers are marked pending and captured in order |
| AsyncStore.Store.FetchOne | src/createAsyncStore.ts:175-184 | registers the given container, else the registered one, else a new one. It changes no other registration and no other container. A registered container that a different given one replaces is destroyed. It queues the id only when shouldFetch holds, and never twice |
| AsyncStore.Store.FetchMany | src/createAsyncStore.ts:185-194 | registers the wanting, unregistered containers (Adopt), then appends every registered id, duplicates included |
| AsyncStore.Store.FetchAll | src/createAsyncStore.ts:195-199 | queues `"*"` unless it is queued already |
| AsyncStore.Store.GetOne | src/createAsyncStore.ts:203-213 | returns the registered container, or a new one. Only for a new one does it schedule fetchOne(id, ct), and it changes nothing |
| AsyncStore.Store.GetMany | src/createAsyncStore.ts:214-227 | one container per id, in order: the registered one or a new one. It schedules fetchMany(ids, wanting) exactly when some container wants fetching, and changes nothing |
| AsyncStore.Store.GetAll | src/createAsyncStore.ts:228-236 | returns every registered container; schedules fetchAll exactly while the store is not ready; changes nothing |
| AsyncStore.Store.RunScheduled | src/createAsyncStore.ts:203-236 | running a scheduled action is the fetchOne, fetchMany or fetchAll it names, including fetchOne destroying a registered container it replaces |
| AsyncStore.Store.RunContainerRefetch | src/createAsyncContainer.ts:140-150 | a registered container's deferred refetch checks shouldFetch again and only then calls the store's fetchOne; the registrations stay as they were |
| Scenarios.GetOneQueues | src/__tests__/createAsyncStore.spec.ts:26-27 | getOne on a new store, then the scheduled fetchOne: the returned container is registered under the id, and only that id is queued |
| Scenarios.FetchOneThroughGetOne | src/__tests__/createAsyncStore.spec.ts:19-32 | after the fetch resolves, the container getOne returned is the only one registered; it is ready, not pending, error-free and holds the item. The store is ready with an empty queue |
| Scenarios.FailOneThroughGetOne | src/__tests__/createAsyncStore.spec.ts:67-79 | after the fetch rejects, one container is registered. It is ready, in failstate and holds the rejection's error; the store is ready with an empty queue |
| Scenarios.GetOneTwiceReplaces | src/createAsyncStore.ts:175-213 | two getOne calls for one id in one turn: the second container replaces the first, which is destroyed and never wants fetching again; the id is queued once |
| Scenarios.GetAllQueues | src/__tests__/createAsyncStore.spec.ts:58-59 | getAll on a new store, then the scheduled fetchAll, queues exactly `"*"` |
| Scenarios.FetchAllThroughGetAll | src/__tests__/createAsyncStore.spec.ts:50-65 | after fetchAll resolves, there is one container per returned id holding what Absorb says, and the store is ready with an empty queue |
| Scenarios.WantingBoth | src/createAsyncStore.ts:219 | two wanting containers both pass getMany's filter, in order |
| Scenarios.AdoptBoth | src/createAsyncStore.ts:186-192 | an empty store registers two wanting containers with different ids |
| Scenarios.RegisteredBoth | src/createAsyncStore.ts:193 | two registered ids both pass fetchMany's filter, in order |
| Scenarios.AbsorbBoth | src/createAsyncStore.ts:111-114 | two items with different registered ids are each written into their own container |
| Scenarios.GetManyOnFresh | src/__tests__/createAsyncStore.spec.ts:42-43 | getMany of two ids on a new store returns two new containers and schedules one fetchMany of both |
| Scenarios.GetManyQueues | src/__tests__/createAsyncStore.spec.ts:42-43 | after the scheduled fetchMany, both containers are registered and both ids are queued, in order |
| Scenarios.DrainQueuedPair | src/createAsyncStore.ts:157-161 | the drain sends both ids to `_fetchMany` as one batch, which marks both containers pending and captures them in order |
| Scenarios.ResolveQueuedPair | src/createAsyncStore.ts:109-120 | the batch fetch of the pending pair resolves with a and b: each container holds setValue of its own item on top of its pending state, and the store is ready with an empty queue |
| Scenarios.FetchManyThroughGetMany | src/__tests__/createAsyncStore.spec.ts:34-48 | after the batch fetch resolves, each container getMany returned is ready, not pending and holds its own item; the store is ready with an empty queue |
| Scenarios.FailManyThroughGetMany | src/__tests__/createAsyncStore.spec.ts:81-95 | after the batch fetch rejects, both containers stay registered. Both are ready, in failstate and hold the rejection's error |

## Left out

- `hotReload` (src/createAsyncStore.ts:58-72) depends on `module.hot` and snapshot persistence, which lie outside the cache logic.
- The mobx `reaction` machinery, its 200 ms throttle and `fireImmediately` are runtime scheduling. `Store.Drain` is the guarded step the reaction runs, and a caller decides when to run it.
- `asap` and `nextTick` are not modelled as a run loop. The read views return the action they scheduled (`Scheduled`, or a flag for the container getter), and `RunScheduled`, `RunContainerRefetch` and `RunScheduledFetch` run it later.
- The mobx-utils `now()` sampling resolution is left out; every step takes the current time as an argument.
- The MST parent walk `hasParent`/`getParent(self, 2)` is left out. `RunContainerRefetch` models an owning store, which provides `fetchOne`, so the `fetchMany` fallback of the container getter is never taken there. `RunScheduledFetch` models a container without a store, whose injected fetch promise is external I/O.
- The injected fetch functions are external I/O. Only how each call settled is modelled (`Settled`).
- `_fetchOne` resolving with `undefined` (allowed by the client's type) is not modelled; a resolution always carries an item.
- Items are reduced to an id and an opaque body; the item model's other fields are not part of this model.
- Promises and concurrent flows are not modelled: between a Begin and its Complete, the caller decides what else runs.
- Each step uses a single `now`, read for `Date.now()` in the actions and for the `now()` clock in `hasExpired` alike.
- MST node destruction is modelled for a single container (`Container.Destroy`) and for the container that `fetchOne` replaces in the map. Other ways a registered node dies (removal from the tree from outside the store) are not modelled: `Valid()` keeps every registered container alive, so the dead-container error of `setValue` is not reachable from `_fetchAll` or `_fetchMany` in the model.
- AsyncStore.Store.GetAll: returns the set of registered containers, not an array in insertion order.
- AsyncStore.Store.FetchMany: the optional `cts` argument is always passed; an absent one is the empty sequence.
- `createAsyncContainer(id)` (src/createAsyncStore.ts:140-142) is the container constructor, `AsyncContainer.Container.constructor`.
- scripts/build.js, jest.config.js, lint-staged.config.js and release.config.js are build and release tooling; they are not part of this model.

### Modelled as the code does it

- `fetchMany` does not deduplicate (`FetchQueue.FetchManyCanDuplicate`). "No duplicates in the queue" is therefore not an invariant of the store.
- A returned item whose id is not queued makes `_fetchAll` drop the last queued id. That is what `splice(-1, 1)` does (`FetchQueue.ArrivalOfUnqueuedIdDropsLast`).
- A rejected `_fetchAll` has no catch block, so the store stays pending (`Store.CompleteFetchAll`).
- `setFailstate` does not check liveness; only `setValue` does.
- A single queued id always goes to `_fetchOne`; there is no fallback to `_fetchMany`. The batch size is fixed at 40.
- A container whose id is `"*"` collides with the fetch-all sentinel. Queueing it dispatches `_fetchAll` (`FetchQueue.Drain`).
