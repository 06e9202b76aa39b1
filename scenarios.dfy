/**
 * End-to-end runs of a fresh store, one per documented use of the library: a read view
 * schedules a fetch, the scheduled action queues it, the reaction drains the queue, and
 * the injected fetch settles. Each method states what the caller then observes.
 */
module Scenarios {
  import opened Wrappers
  import opened AsyncContainer
  import FetchQueue
  import opened AsyncStore

  /**
   * `getOne(id)` on a fresh store, and the `fetchOne(id, ct)` it schedules: the returned
   * container, still new, is registered under id and id is queued.
   */
  method GetOneQueues(client: Client, id: string, now: nat) returns (store: Store, ct: Container)
    ensures fresh(store) && fresh(ct)
    ensures store.Valid() && store.client == client && store.options == DefaultOptions
    ensures store.containers == map[id := ct] && ct.State() == Initial(now)
    ensures store.fetchQueue == [id] && !store.isPending && !store.isReady
  {
    store := new Store(client, DefaultOptions);
    var scheduled;
    ct, scheduled := store.GetOne(id, now);
    store.RunScheduled(scheduled.value, now);
  }

  /**
   * `getOne(id)` on a store whose client can fetch one item: once the fetch resolved, the
   * very container getOne returned is registered, ready and holds the item.
   */
  method FetchOneThroughGetOne(item: Item, now: nat) returns (store: Store, ct: Container)
    requires item.id != FetchQueue.All
    ensures store.containers == map[item.id := ct]
    ensures ct.State().isReady && !ct.State().isPending && ct.State().value == Some(item)
    ensures ct.State().error == None
    ensures store.isReady && !store.isPending && store.fetchQueue == []
  {
    store, ct := GetOneQueues(Client(true, false, false), item.id, now);
    FetchQueue.DrainSingle(item.id);
    var d := store.Drain();
    var _ := store.CompleteFetchOne(item.id, Some(ct), Resolved(item), now);
  }

  /**
   * The same with a fetch that rejects: the container is registered, ready and in its
   * failstate with the rejection's error.
   */
  method FailOneThroughGetOne(id: string, e: Error, now: nat) returns (store: Store, ct: Container)
    requires id != FetchQueue.All
    ensures store.containers == map[id := ct]
    ensures ct.State().isReady && ct.State().error == Some(e) && ct.State().value == None
    ensures ct.State().InFailstate(DefaultOptions, now)
    ensures store.isReady && !store.isPending && store.fetchQueue == []
  {
    store, ct := GetOneQueues(Client(true, false, false), id, now);
    FetchQueue.DrainSingle(id);
    var d := store.Drain();
    var _ := store.CompleteFetchOne(id, Some(ct), Rejected(e), now);
  }

  /**
   * `getOne(id)` twice in one turn on a fresh store: each call returns a new container and
   * schedules its own `fetchOne`. The second registration replaces the first container,
   * which is destroyed and so never wants fetching again; id is queued once.
   */
  method GetOneTwiceReplaces(client: Client, id: string, now: nat) returns (store: Store, ct1: Container, ct2: Container)
    ensures store.containers == map[id := ct2] && ct1 != ct2
    ensures !ct1.alive && !ct1.State().ShouldFetch(DefaultOptions, now)
    ensures ct2.State() == Initial(now) && store.fetchQueue == [id]
  {
    store := new Store(client, DefaultOptions);
    var first, second;
    ct1, first := store.GetOne(id, now);
    ct2, second := store.GetOne(id, now);
    store.RunScheduled(first.value, now);
    store.RunScheduled(second.value, now);
  }

  /** `getAll()` on a fresh store, and the `fetchAll()` it schedules: "*" is queued. */
  method GetAllQueues(client: Client) returns (store: Store)
    ensures fresh(store)
    ensures store.Valid() && store.client == client && store.options == DefaultOptions
    ensures store.containers == map[] && store.fetchQueue == [FetchQueue.All]
    ensures !store.isPending && !store.isReady
  {
    store := new Store(client, DefaultOptions);
    var cts, scheduled := store.GetAll();
    store.RunScheduled(scheduled.value, 0);
  }

  /**
   * `getAll()` on a store whose client can fetch everything: once the fetch resolved, there
   * is one container per returned id, each holding what the items say, and the store is ready.
   */
  method FetchAllThroughGetAll(items: seq<Item>, now: nat) returns (store: Store)
    ensures store.containers.Keys == set i | i in items :: i.id
    ensures store.View() == Reconcile.Absorb(map[], items, DefaultOptions, now)
    ensures store.isReady && !store.isPending && store.fetchQueue == []
  {
    store := GetAllQueues(Client(false, false, true));
    assert store.View() == map[];
    var d := store.Drain();
    assert store.fetchQueue == [];
    FetchQueue.AfterArrivalsFromEmpty(Reconcile.Ids(items));
    var _ := store.CompleteFetchAll(Resolved(items), now);
    Reconcile.AbsorbKeys(map[], items, DefaultOptions, now);
  }

  /** Two containers that both want fetching are both wanting, in order. */
  lemma WantingBoth(c0: Container, c1: Container, now: nat)
    requires c0.State().ShouldFetch(c0.options, now) && c1.State().ShouldFetch(c1.options, now)
    ensures Wanting([c0, c1], now) == [c0, c1]
  {
    assert [c0, c1][1..] == [c1];
    assert [c1][1..] == [];
  }

  /** Two wanting containers with different ids are both registered by an empty store. */
  lemma AdoptBoth(c0: Container, c1: Container, now: nat)
    requires c0.id != c1.id
    requires c0.State().ShouldFetch(c0.options, now) && c1.State().ShouldFetch(c1.options, now)
    ensures Adopt(map[], [c0, c1], now) == map[c0.id := c0, c1.id := c1]
  {
    assert [c0, c1][..1] == [c0];
    assert [c0][..0] == [];
    assert Adopt(map[], [c0], now) == map[c0.id := c0];
  }

  /** Two registered ids are both kept by the filter of `fetchMany`. */
  lemma RegisteredBoth(a: string, b: string, keys: set<string>)
    requires a in keys && b in keys
    ensures FetchQueue.Registered([a, b], keys) == [a, b]
  {
    assert [a, b][1..] == [b];
    assert [b][1..] == [];
    assert FetchQueue.Registered([b], keys) == [b];
  }

  /** Absorbing two items with registered, different ids writes each into its own container. */
  lemma AbsorbBoth(m: map<string, Snapshot>, a: Item, b: Item, opts: Options, now: nat)
    requires a.id != b.id && a.id in m && b.id in m
    ensures Reconcile.Absorb(m, [a, b], opts, now) == m[a.id := m[a.id].Valued(a, opts, now)][b.id := m[b.id].Valued(b, opts, now)]
  {
    assert [a, b][..1] == [a];
    assert [a][..0] == [];
    var first := m[a.id := m[a.id].Valued(a, opts, now)];
    assert Reconcile.Absorb(m, [a], opts, now) == first;
    assert b.id in first && first[b.id] == m[b.id];
  }

  /**
   * `getMany([a, b])` on a fresh store: two new containers, both wanting fetching, so a
   * single `fetchMany([a, b], both)` is scheduled.
   */
  method GetManyOnFresh(client: Client, a: string, b: string, now: nat)
    returns (store: Store, cts: seq<Container>, scheduled: Option<Scheduled>)
    ensures fresh(store) && |cts| == 2 && fresh(cts[0]) && fresh(cts[1])
    ensures store.Valid() && store.client == client && store.options == DefaultOptions
    ensures store.containers == map[] && store.fetchQueue == [] && !store.isPending && !store.isReady
    ensures cts[0].id == a && cts[1].id == b
    ensures cts[0].options == DefaultOptions && cts[1].options == DefaultOptions
    ensures cts[0].State() == Initial(now) && cts[1].State() == Initial(now)
    ensures scheduled == Some(ScheduledFetchMany([a, b], cts))
  {
    store := new Store(client, DefaultOptions);
    cts, scheduled := store.GetMany([a, b], now);
    assert cts == [cts[0], cts[1]];
    assert cts[0].State().ShouldFetch(DefaultOptions, now);
    WantingBoth(cts[0], cts[1], now);
  }

  /**
   * `getMany([a, b])` on a fresh store, and the `fetchMany` it schedules: both new containers
   * are registered and both ids are queued, in order.
   */
  method GetManyQueues(client: Client, a: string, b: string, now: nat) returns (store: Store, cts: seq<Container>)
    requires a != b
    ensures fresh(store) && |cts| == 2 && fresh(cts[0]) && fresh(cts[1])
    ensures store.Valid() && store.client == client && store.options == DefaultOptions
    ensures store.containers == map[a := cts[0], b := cts[1]]
    ensures cts[0].State() == Initial(now) && cts[1].State() == Initial(now)
    ensures store.fetchQueue == [a, b] && !store.isPending && !store.isReady
  {
    var scheduled;
    store, cts, scheduled := GetManyOnFresh(client, a, b, now);
    assert cts == [cts[0], cts[1]];
    AdoptBoth(cts[0], cts[1], now);
    // the scheduled action, run as the fetchMany it names
    store.FetchMany([a, b], cts, now);
    RegisteredBoth(a, b, store.containers.Keys);
  }

  /**
   * The reaction on the queue GetManyQueues left: both ids leave the queue as one batch and
   * `_fetchMany` marks both containers pending, capturing them in order.
   */
  method DrainQueuedPair(a: string, b: string, now: nat) returns (store: Store, cts: seq<Container>, begun: seq<Container>)
    requires a != b && a != FetchQueue.All && b != FetchQueue.All
    ensures fresh(store) && |cts| == 2 && fresh(cts[0]) && fresh(cts[1])
    ensures store.Valid() && store.client.fetchMany && store.options == DefaultOptions
    ensures store.containers == map[a := cts[0], b := cts[1]]
    ensures cts[0].State() == Initial(now).Pending() && cts[1].State() == Initial(now).Pending()
    ensures store.fetchQueue == [] && store.isPending && !store.isReady
    ensures |begun| == 2 && begun[0] == cts[0] && begun[1] == cts[1]
  {
    store, cts := GetManyQueues(Client(false, true, false), a, b, now);
    FetchQueue.DrainBatch([a, b]);
    ghost var queued := store.View();
    assert queued[a] == Initial(now) && queued[b] == Initial(now);
    ghost var pending := Reconcile.MarkPending(queued, [a, b]);
    assert pending[a] == Initial(now).Pending() && pending[b] == Initial(now).Pending();
    var d := store.Drain();
    assert store.View() == pending;
    begun := d.begunMany.value;
    assert begun[0] == store.containers[a] && begun[1] == store.containers[b];
  }

  /**
   * The batch fetch of the pair DrainQueuedPair left pending resolves with a and b: each
   * container is written with its own item.
   */
  method ResolveQueuedPair(a: Item, b: Item, now: nat) returns (store: Store, cts: seq<Container>)
    requires a.id != b.id && a.id != FetchQueue.All && b.id != FetchQueue.All
    ensures |cts| == 2 && store.containers == map[a.id := cts[0], b.id := cts[1]]
    ensures store.View() == map[a.id := Initial(now).Pending().Valued(a, DefaultOptions, now),
                                b.id := Initial(now).Pending().Valued(b, DefaultOptions, now)]
    ensures store.isReady && !store.isPending && store.fetchQueue == []
  {
    var begun;
    store, cts, begun := DrainQueuedPair(a.id, b.id, now);
    ghost var pending := store.View();
    assert Reconcile.Ids([a, b]) == [a.id, b.id];
    Reconcile.FirstMissingAt([a.id, b.id], store.containers.Keys, 2);
    assert [a, b][..2] == [a, b];
    AbsorbBoth(pending, a, b, DefaultOptions, now);
    ghost var written := Reconcile.Absorb(pending, [a, b], DefaultOptions, now);
    assert written == map[a.id := Initial(now).Pending().Valued(a, DefaultOptions, now),
                          b.id := Initial(now).Pending().Valued(b, DefaultOptions, now)];
    store.CompleteFetchMany(begun, Resolved([a, b]), now);
    assert store.View() == written;
  }

  /**
   * `getMany([a.id, b.id])` on a store whose client can fetch many items: once the batch
   * fetch resolved with a and b, each container getMany returned holds its item and is ready.
   */
  method FetchManyThroughGetMany(a: Item, b: Item, now: nat) returns (store: Store, cts: seq<Container>)
    requires a.id != b.id && a.id != FetchQueue.All && b.id != FetchQueue.All
    ensures |cts| == 2 && store.containers == map[a.id := cts[0], b.id := cts[1]]
    ensures cts[0].State().isReady && !cts[0].State().isPending && cts[0].State().value == Some(a)
    ensures cts[1].State().isReady && !cts[1].State().isPending && cts[1].State().value == Some(b)
    ensures store.isReady && !store.isPending && store.fetchQueue == []
  {
    store, cts := ResolveQueuedPair(a, b, now);
    assert cts[0].State() == store.View()[a.id] && cts[1].State() == store.View()[b.id];
  }

  /**
   * The same with a batch fetch that rejects: both containers getMany returned stay
   * registered, and both are ready and in their failstate with the rejection's error.
   */
  method FailManyThroughGetMany(a: string, b: string, e: Error, now: nat) returns (store: Store, cts: seq<Container>)
    requires a != b && a != FetchQueue.All && b != FetchQueue.All
    ensures |cts| == 2 && store.containers == map[a := cts[0], b := cts[1]]
    ensures cts[0].State().isReady && cts[0].State().error == Some(e) && cts[0].State().InFailstate(DefaultOptions, now)
    ensures cts[1].State().isReady && cts[1].State().error == Some(e) && cts[1].State().InFailstate(DefaultOptions, now)
    ensures store.isReady && !store.isPending && store.fetchQueue == []
  {
    var begun;
    store, cts, begun := DrainQueuedPair(a, b, now);
    store.CompleteFetchMany(begun, Rejected(e), now);
    assert cts[0] in begun && cts[1] in begun;
  }
}
