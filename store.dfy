/**
 * The async store of createAsyncStore: a map of async containers keyed by id, a fetch
 * queue of ids (plus the "*" sentinel) and the store-wide `isPending`/`isReady` flags.
 *
 * Each generator flow (`_fetchAll`, `_fetchMany`, `_fetchOne`) is split at its `yield`
 * into a Begin step (capability check, pending flags) and a Complete step that takes how
 * the injected fetch settled. The reaction that drains the queue is the guarded method
 * Drain. The read views return containers and, instead of calling `asap`, return the
 * action they scheduled; RunScheduled runs it later.
 */
module AsyncStore {
  import opened Wrappers
  import opened AsyncContainer
  import FetchQueue
  import Reconcile

  /** Which of the optional fetch capabilities the injected client provides. */
  datatype Client = Client(fetchOne: bool, fetchMany: bool, fetchAll: bool)

  /** How the injected fetch settled. */
  datatype Settled<T> = Resolved(payload: T) | Rejected(reason: Error)

  /** The error a flow raises when the client lacks the capability it needs. */
  function Unsupported(operation: string): Error {
    Error("Store doesn't support " + operation)
  }

  /** An action a read view deferred to after the current turn. */
  datatype Scheduled =
    | ScheduledFetchOne(id: string, ct: Container)
    | ScheduledFetchMany(ids: seq<string>, cts: seq<Container>)
    | ScheduledFetchAll

  /** What one drain step dispatched, with the Begin step's result. */
  datatype Dispatch =
    | NotFired
    | FiredAll(begun: Outcome<Error>)
    | FiredOne(id: string, begunOne: Result<Option<Container>, Error>)
    | FiredMany(ids: seq<string>, begunMany: Result<seq<Container>, Error>)

  /** The containers among cts whose shouldFetch holds, in order (the filter of `getMany`). */
  function Wanting(cts: seq<Container>, now: int): (r: seq<Container>)
    reads set c | c in cts
    ensures forall i :: 0 <= i < |r| ==> r[i] in cts && r[i].State().ShouldFetch(r[i].options, now)
    ensures forall j :: 0 <= j < |cts| && cts[j].State().ShouldFetch(cts[j].options, now) ==> cts[j] in r
    ensures |r| > 0 <==> exists j :: 0 <= j < |cts| && cts[j].State().ShouldFetch(cts[j].options, now)
  {
    if |cts| == 0 then []
    else
      var rest := Wanting(cts[1..], now);
      assert forall j :: 0 < j < |cts| ==> cts[j] == cts[1..][j - 1];
      if cts[0].State().ShouldFetch(cts[0].options, now) then [cts[0]] + rest else rest
  }

  /**
   * The registration loop of `fetchMany`: in order, each container whose shouldFetch
   * holds and whose id is not registered yet is registered under its id.
   */
  function Adopt(m: map<string, Container>, cts: seq<Container>, now: int): (r: map<string, Container>)
    reads set c | c in cts
  {
    if |cts| == 0 then m
    else
      var before := Adopt(m, cts[..|cts| - 1], now);
      var c := cts[|cts| - 1];
      if c.State().ShouldFetch(c.options, now) && c.id !in before then before[c.id := c] else before
  }

  /**
   * Adopt keeps every registered container, registers only wanting containers of cts under
   * their own ids, and leaves no wanting container's id unregistered.
   */
  lemma {:induction false} AdoptRegistersWanting(m: map<string, Container>, cts: seq<Container>, now: int)
    ensures forall k :: k in m ==> k in Adopt(m, cts, now) && Adopt(m, cts, now)[k] == m[k]
    ensures forall k :: k in Adopt(m, cts, now) && k !in m ==>
      exists j :: 0 <= j < |cts| && cts[j] == Adopt(m, cts, now)[k] && cts[j].id == k
        && cts[j].State().ShouldFetch(cts[j].options, now)
    ensures forall j :: 0 <= j < |cts| && cts[j].State().ShouldFetch(cts[j].options, now) ==>
      cts[j].id in Adopt(m, cts, now)
  {
    if |cts| > 0 {
      var p := cts[..|cts| - 1];
      AdoptRegistersWanting(m, p, now);
      forall j | 0 <= j < |p| ensures p[j] == cts[j] { }
    }
  }

  /** `cts.forEach((ct) => ct.setFailstate(e))`. */
  method FailEach(cts: seq<Container>, e: Error, now: nat)
    modifies set c | c in cts
    ensures forall c :: c in cts ==> c.State() == old(c.State()).Failed(e, c.options, now)
  {
    var i := 0;
    while i < |cts|
      invariant 0 <= i <= |cts|
      invariant forall c :: c in cts[..i] ==> c.State() == old(c.State()).Failed(e, c.options, now)
      invariant forall c :: c in cts[i..] && c !in cts[..i] ==> c.State() == old(c.State())
    {
      assert cts[..i + 1] == cts[..i] + [cts[i]];
      assert forall c :: c in cts[i + 1..] ==> c in cts[i..];
      cts[i].SetFailstate(e, now);
      i := i + 1;
    }
    assert cts[..i] == cts;
  }

  class Store {
    const client: Client
    const options: Options
    var containers: map<string, Container>
    var fetchQueue: seq<string>
    var isPending: bool
    var isReady: bool

    /**
     * Every container is registered under its own id, is alive and is of this store's
     * container model; every queued id other than "*" has a container.
     */
    ghost predicate Valid()
      reads this`containers, this`fetchQueue, containers.Values
    {
      && (forall k :: k in containers ==>
            containers[k].id == k && containers[k].alive && containers[k].options == options)
      && (forall id :: id in fetchQueue && id != FetchQueue.All ==> id in containers)
    }

    /** The state of every registered container, by id. */
    ghost function View(): (v: map<string, Snapshot>)
      reads this`containers, containers.Values
      ensures v.Keys == containers.Keys
    {
      map k | k in containers :: containers[k].State()
    }

    constructor (client: Client, options: Options)
      ensures Valid() && this.client == client && this.options == options
      ensures containers == map[] && fetchQueue == [] && !isPending && !isReady
    {
      this.client := client;
      this.options := options;
      containers := map[];
      fetchQueue := [];
      isPending := false;
      isReady := false;
    }

    method SetReady()
      modifies this`isPending, this`isReady
      ensures !isPending && isReady
    {
      isPending := false;
      isReady := true;
    }

    method SetPending()
      modifies this`isPending
      ensures isPending
    {
      isPending := true;
    }

    /** `fetchQueue.splice(start, deleteCount)`, returning the removed ids. */
    method SpliceFetchQueue(start: int, deleteCount: int) returns (removed: seq<string>)
      requires Valid()
      modifies this`fetchQueue
      ensures Valid()
      ensures removed == FetchQueue.Splice(old(fetchQueue), start, deleteCount).removed
      ensures fetchQueue == FetchQueue.Splice(old(fetchQueue), start, deleteCount).rest
    {
      FetchQueue.SpliceOnlyRemoves(fetchQueue, start, deleteCount);
      var spliced := FetchQueue.Splice(fetchQueue, start, deleteCount);
      fetchQueue := spliced.rest;
      removed := spliced.removed;
    }

    /** `containers.get(item.id)!.setValue(item)` for a registered id: only that container changes. */
    method SetValueAt(item: Item, now: nat)
      requires Valid() && item.id in containers
      modifies containers[item.id]
      ensures Valid()
      ensures View() == old(View())[item.id := old(View())[item.id].Valued(item, options, now)]
    {
      var ct := containers[item.id];
      ghost var before := View();
      var _ := ct.SetValue(item, now);
      forall k | k in containers
        ensures containers[k].State() == before[item.id := before[item.id].Valued(item, options, now)][k]
      {
        if k != item.id {
          assert containers[k].id != ct.id;
        }
      }
    }

    /** `containers.get(id)!.setPending()` for a registered id: only that container changes. */
    method SetPendingAt(id: string)
      requires Valid() && id in containers
      modifies containers[id]
      ensures Valid()
      ensures View() == old(View())[id := old(View())[id].Pending()]
    {
      var ct := containers[id];
      ghost var before := View();
      ct.SetPending();
      forall k | k in containers
        ensures containers[k].State() == before[id := before[id].Pending()][k]
      {
        if k != id {
          assert containers[k].id != ct.id;
        }
      }
    }

    /** `fetchQueue.splice(fetchQueue.indexOf(id), 1)`. */
    method DequeueArrival(id: string)
      requires Valid()
      modifies this`fetchQueue
      ensures Valid()
      ensures fetchQueue == FetchQueue.AfterArrival(old(fetchQueue), id)
    {
      var idx := FetchQueue.IndexOf(fetchQueue, id);
      var _ := SpliceFetchQueue(idx, 1);
    }

    /**
     * `(containers.get(item.id) ?? new container).setValue(item)` followed by
     * `containers.put(...)`: the item's container, created at `now` if absent, gets the item.
     */
    method WriteArrival(item: Item, now: nat)
      requires Valid()
      modifies this`containers, containers.Values
      ensures Valid()
      ensures View() == old(View())[item.id :=
        (if item.id in old(View()) then old(View())[item.id] else Initial(now)).Valued(item, options, now)]
      ensures forall k :: k in old(containers) ==> k in containers && containers[k] == old(containers[k])
      ensures forall k :: k in containers && k !in old(containers) ==> fresh(containers[k])
    {
      if item.id in containers {
        SetValueAt(item, now);
      } else {
        ghost var before := View();
        var ct := new Container(item.id, options, now);
        var _ := ct.SetValue(item, now);
        containers := containers[item.id := ct];
        forall k | k in containers
          ensures containers[k].State() == before[item.id := Initial(now).Valued(item, options, now)][k]
        {
        }
      }
    }

    /** The body of the `forEach` of `_fetchAll`: the item's id leaves the queue, then the item is written. */
    method Arrive(item: Item, now: nat)
      requires Valid()
      modifies this`containers, this`fetchQueue, containers.Values
      ensures Valid()
      ensures fetchQueue == FetchQueue.AfterArrival(old(fetchQueue), item.id)
      ensures View() == old(View())[item.id :=
        (if item.id in old(View()) then old(View())[item.id] else Initial(now)).Valued(item, options, now)]
      ensures forall k :: k in old(containers) ==> k in containers && containers[k] == old(containers[k])
      ensures forall k :: k in containers && k !in old(containers) ==> fresh(containers[k])
    {
      DequeueArrival(item.id);
      WriteArrival(item, now);
    }

    /**
     * Turn i of the `forEach` of `_fetchAll`: items[i]'s id leaves the queue, then the item
     * is written, so queue and containers move one item further from where the loop began.
     */
    method ReceiveItem(ghost q0: seq<string>, ghost v0: map<string, Snapshot>, items: seq<Item>, i: nat, now: nat)
      requires Valid() && i < |items|
      requires fetchQueue == FetchQueue.AfterArrivals(q0, Reconcile.Ids(items)[..i])
      requires View() == Reconcile.Absorb(v0, items[..i], options, now)
      modifies this`containers, this`fetchQueue, containers.Values
      ensures Valid()
      ensures fetchQueue == FetchQueue.AfterArrivals(q0, Reconcile.Ids(items)[..i + 1])
      ensures View() == Reconcile.Absorb(v0, items[..i + 1], options, now)
      ensures forall k :: k in old(containers) ==> k in containers && containers[k] == old(containers[k])
      ensures forall k :: k in containers && k !in old(containers) ==> fresh(containers[k])
    {
      Arrive(items[i], now);
      Reconcile.AbsorbStep(v0, items, i, options, now);
      FetchQueue.AfterArrivalsStep(q0, Reconcile.Ids(items), i);
    }

    /**
     * The `forEach` of `_fetchAll`: each returned item, in order, leaves the queue by
     * `splice(indexOf(id), 1)` and goes into its container, created if absent.
     */
    method ReceiveAll(items: seq<Item>, now: nat)
      requires Valid()
      modifies this`containers, this`fetchQueue, containers.Values
      ensures Valid()
      ensures fetchQueue == FetchQueue.AfterArrivals(old(fetchQueue), Reconcile.Ids(items))
      ensures View() == Reconcile.Absorb(old(View()), items, options, now)
      ensures forall k :: k in old(containers) ==> k in containers && containers[k] == old(containers[k])
      ensures forall k :: k in containers && k !in old(containers) ==> fresh(containers[k])
    {
      ghost var q0, v0, c0, ids := fetchQueue, View(), containers, Reconcile.Ids(items);
      var i := 0;
      while i < |items|
        invariant 0 <= i <= |items|
        invariant Valid()
        invariant fetchQueue == FetchQueue.AfterArrivals(q0, ids[..i])
        invariant View() == Reconcile.Absorb(v0, items[..i], options, now)
        invariant forall k :: k in c0 ==> k in containers && containers[k] == c0[k]
        invariant forall k :: k in containers && k !in c0 ==> fresh(containers[k])
      {
        ReceiveItem(q0, v0, items, i, now);
        i := i + 1;
      }
      assert items[..i] == items;
      assert ids[..i] == ids;
    }

    /** `_fetchAll` up to its `yield`. */
    method BeginFetchAll() returns (r: Outcome<Error>)
      modifies this`isPending
      ensures !client.fetchAll ==> r == Fail(Unsupported("fetchAll")) && isPending == old(isPending)
      ensures client.fetchAll ==> r == Pass && isPending
    {
      if !client.fetchAll {
        return Fail(Unsupported("fetchAll"));
      }
      SetPending();
      r := Pass;
    }

    /**
     * `_fetchAll` after its `yield`. Each returned item goes into its container (created
     * if absent) and its id leaves the queue by `splice(indexOf(id), 1)`. There is no
     * catch: a rejection propagates and leaves the store pending.
     */
    method CompleteFetchAll(outcome: Settled<seq<Item>>, now: nat) returns (r: Outcome<Error>)
      requires Valid()
      modifies this`containers, this`fetchQueue, this`isPending, this`isReady, containers.Values
      ensures Valid()
      ensures outcome.Rejected? ==>
        r == Fail(outcome.reason) && isPending == old(isPending) && isReady == old(isReady)
        && containers == old(containers) && fetchQueue == old(fetchQueue) && View() == old(View())
      ensures outcome.Resolved? ==>
        r == Pass && !isPending && isReady
        && fetchQueue == FetchQueue.AfterArrivals(old(fetchQueue), Reconcile.Ids(outcome.payload))
        && View() == Reconcile.Absorb(old(View()), outcome.payload, options, now)
        && (forall k :: k in old(containers) ==> k in containers && containers[k] == old(containers[k]))
        && (forall k :: k in containers && k !in old(containers) ==> fresh(containers[k]))
    {
      if outcome.Rejected? {
        return Fail(outcome.reason);
      }
      ReceiveAll(outcome.payload, now);
      SetReady();
      r := Pass;
    }

    /**
     * `_fetchMany` up to its `yield`: marks the store pending and then every batch
     * container pending, in order. An id without a container makes `containers.get(id)!`
     * yield `undefined` and the call on it raises, which aborts the flow there.
     */
    method BeginFetchMany(ids: seq<string>) returns (r: Result<seq<Container>, Error>)
      requires Valid()
      modifies this`isPending, containers.Values
      ensures Valid()
      ensures !client.fetchMany ==>
        r == Err(Unsupported("fetchMany")) && isPending == old(isPending) && View() == old(View())
      ensures client.fetchMany ==> (isPending &&
        var f := Reconcile.FirstMissing(ids, containers.Keys);
        View() == Reconcile.MarkPending(old(View()), ids[..f])
        && (f < |ids| ==> r == Err(UndefinedContainer(ids[f])))
        && (f == |ids| ==> r.Ok? && |r.value| == |ids| && forall j :: 0 <= j < |ids| ==> ids[j] in containers && r.value[j] == containers[ids[j]]))
    {
      if !client.fetchMany {
        return Err(Unsupported("fetchMany"));
      }
      SetPending();
      r := MarkBatchPending(ids);
    }

    /** Turn i of the loop of `_fetchMany` before its `yield`: the container of ids[i] is marked pending. */
    method MarkPendingAt(ghost v0: map<string, Snapshot>, ids: seq<string>, i: nat)
      requires Valid() && i < |ids| && ids[i] in containers && ids[i] in v0
      requires View() == Reconcile.MarkPending(v0, ids[..i])
      modifies containers[ids[i]]
      ensures Valid()
      ensures View() == Reconcile.MarkPending(v0, ids[..i + 1])
    {
      Reconcile.MarkPendingStep(v0, ids, i);
      SetPendingAt(ids[i]);
    }

    /**
     * The loop of `_fetchMany` before its `yield`: each batch container, in order, is marked
     * pending and collected; the first id with no container raises.
     */
    method MarkBatchPending(ids: seq<string>) returns (r: Result<seq<Container>, Error>)
      requires Valid()
      modifies containers.Values
      ensures Valid()
      ensures var f := Reconcile.FirstMissing(ids, containers.Keys);
        View() == Reconcile.MarkPending(old(View()), ids[..f])
        && (f < |ids| ==> r == Err(UndefinedContainer(ids[f])))
        && (f == |ids| ==> r.Ok? && |r.value| == |ids| && forall j :: 0 <= j < |ids| ==> ids[j] in containers && r.value[j] == containers[ids[j]])
    {
      ghost var v0, c0 := View(), containers;
      var cts: seq<Container> := [];
      var i := 0;
      while i < |ids| && ids[i] in containers
        invariant 0 <= i <= |ids|
        invariant Valid() && containers == c0
        invariant forall j :: 0 <= j < i ==> ids[j] in c0
        invariant |cts| == i && forall j :: 0 <= j < i ==> cts[j] == c0[ids[j]]
        invariant View() == Reconcile.MarkPending(v0, ids[..i])
      {
        var ct := containers[ids[i]];
        MarkPendingAt(v0, ids, i);
        cts := cts + [ct];
        i := i + 1;
      }
      Reconcile.FirstMissingAt(ids, containers.Keys, i);
      if i < |ids| {
        return Err(UndefinedContainer(ids[i]));
      }
      assert ids[..i] == ids;
      r := Ok(cts);
    }

    /** Turn i of the try block of `_fetchMany`: items[i] goes into the container registered under its id. */
    method WriteItemAt(ghost v0: map<string, Snapshot>, items: seq<Item>, i: nat, now: nat)
      requires Valid() && i < |items| && items[i].id in containers
      requires View() == Reconcile.Absorb(v0, items[..i], options, now)
      modifies containers[items[i].id]
      ensures Valid()
      ensures View() == Reconcile.Absorb(v0, items[..i + 1], options, now)
    {
      Reconcile.AbsorbStep(v0, items, i, options, now);
      SetValueAt(items[i], now);
    }

    /**
     * The try block of `_fetchMany` for a resolved fetch: each item, in order, goes into
     * the container registered under its id; the first id with no container raises.
     */
    method WriteItems(items: seq<Item>, now: nat) returns (thrown: Option<Error>)
      requires Valid()
      modifies containers.Values
      ensures Valid()
      ensures var f := Reconcile.FirstMissing(Reconcile.Ids(items), containers.Keys);
        View() == Reconcile.Absorb(old(View()), items[..f], options, now)
        && thrown == (if f < |items| then Some(UndefinedContainer(items[f].id)) else None)
    {
      ghost var ids, v0 := Reconcile.Ids(items), View();
      var i := 0;
      while i < |items| && items[i].id in containers
        invariant 0 <= i <= |items|
        invariant Valid()
        invariant forall j :: 0 <= j < i ==> ids[j] in containers
        invariant View() == Reconcile.Absorb(v0, items[..i], options, now)
      {
        WriteItemAt(v0, items, i, now);
        i := i + 1;
      }
      Reconcile.FirstMissingAt(ids, containers.Keys, i);
      if i < |items| {
        return Some(UndefinedContainer(items[i].id));
      }
      assert items[..i] == items;
      thrown := None;
    }

    /**
     * `_fetchMany` after its `yield`: a resolved fetch writes the items; a rejection, or an
     * error raised while writing, puts that error into every batch container captured by
     * BeginFetchMany. Either way the store ends ready and not pending.
     */
    method CompleteFetchMany(cts: seq<Container>, outcome: Settled<seq<Item>>, now: nat)
      requires Valid()
      modifies this`isPending, this`isReady, containers.Values, set c | c in cts
      ensures Valid() && !isPending && isReady
      ensures outcome.Rejected? ==>
        (forall c :: c in cts ==> c.State() == old(c.State()).Failed(outcome.reason, c.options, now))
        && forall k :: k in containers && containers[k] !in cts ==> View()[k] == old(View())[k]
      ensures outcome.Resolved? ==> BatchWritten(cts, outcome.payload, now)
    {
      match outcome {
        case Rejected(e) =>
          FailBatch(cts, e, now);
        case Resolved(items) =>
          WriteBatch(cts, items, now);
      }
      SetReady();
    }

    /**
     * What the try/catch of `_fetchMany` leaves for a resolved fetch of items. With f the
     * first item whose id has no container, the items before f are written as Absorb says;
     * if there is such an item, the error its `containers.get(id)!` raised then goes into
     * every batch container, on top of what the writing left in it.
     */
    twostate predicate BatchWritten(cts: seq<Container>, items: seq<Item>, now: nat)
      reads this`containers, containers.Values, set c | c in cts
    {
      var f := Reconcile.FirstMissing(Reconcile.Ids(items), containers.Keys);
      var written := Reconcile.Absorb(old(View()), items[..f], options, now);
      written.Keys == containers.Keys
      && (f == |items| ==>
            && View() == written
            && forall c :: c in cts && !(c.id in containers && containers[c.id] == c) ==> c.State() == old(c.State()))
      && (f < |items| ==>
            (forall k :: k in containers && containers[k] !in cts ==> View()[k] == written[k])
            && forall c :: c in cts ==> (c.State() ==
                 (if c.id in containers && containers[c.id] == c then written[c.id] else old(c.State()))
                   .Failed(UndefinedContainer(items[f].id), c.options, now)))
    }

    /**
     * The try/catch of `_fetchMany` for a resolved fetch: the items are written (WriteItems),
     * and if that raised, the error goes into every batch container.
     */
    method WriteBatch(cts: seq<Container>, items: seq<Item>, now: nat)
      requires Valid()
      modifies containers.Values, set c | c in cts
      ensures Valid()
      ensures BatchWritten(cts, items, now)
    {
      ghost var before := View();
      var thrown := WriteItems(items, now);
      ghost var f := Reconcile.FirstMissing(Reconcile.Ids(items), containers.Keys);
      Reconcile.AbsorbKeys(before, items[..f], options, now);
      assert forall it :: it in items[..f] ==> it.id in containers;
      if thrown.Some? {
        assert forall c :: c in cts && !(c.id in containers && containers[c.id] == c) ==> c !in containers.Values;
        FailBatch(cts, thrown.value, now);
      }
    }

    /** `cts.forEach((ct) => ct.setFailstate(e))` on the batch; no other container changes. */
    method FailBatch(cts: seq<Container>, e: Error, now: nat)
      requires Valid()
      modifies set c | c in cts
      ensures Valid()
      ensures forall c :: c in cts ==> c.State() == old(c.State()).Failed(e, c.options, now)
      ensures forall k :: k in containers && containers[k] !in cts ==> View()[k] == old(View())[k]
    {
      FailEach(cts, e, now);
    }

    /** `_fetchOne` up to its `yield`; it captures the container registered under id, if any. */
    method BeginFetchOne(id: string) returns (r: Result<Option<Container>, Error>)
      modifies this`isPending
      ensures !client.fetchOne ==> r == Err(Unsupported("fetchOne")) && isPending == old(isPending)
      ensures client.fetchOne ==> isPending && r == Ok(if id in containers then Some(containers[id]) else None)
    {
      if !client.fetchOne {
        return Err(Unsupported("fetchOne"));
      }
      SetPending();
      r := Ok(if id in containers then Some(containers[id]) else None);
    }

    /**
     * `_fetchOne` after its `yield`: the captured container gets the item, or the error
     * (the rejection, or the one setValue raised). With no captured container the call on
     * `undefined` raises in the catch block too, so the flow fails and the store stays pending.
     */
    method CompleteFetchOne(id: string, ct: Option<Container>, outcome: Settled<Item>, now: nat)
      returns (r: Outcome<Error>)
      requires Valid()
      modifies this`isPending, this`isReady, if ct.Some? then {ct.value} else {}
      ensures Valid()
      ensures ct.None? ==>
        r == Fail(UndefinedContainer(id)) && isPending == old(isPending) && isReady == old(isReady)
      ensures ct.Some? ==> (r == Pass && !isPending && isReady &&
        ct.value.State() == match outcome {
          case Resolved(item) =>
            if old(ct.value.alive) then old(ct.value.State()).Valued(item, ct.value.options, now)
            else old(ct.value.State()).Failed(Error(DeadContainerMessage), ct.value.options, now)
          case Rejected(e) => old(ct.value.State()).Failed(e, ct.value.options, now)
        })
    {
      if ct.None? {
        return Fail(UndefinedContainer(id));
      }
      var c := ct.value;
      match outcome {
        case Resolved(item) =>
          var written := c.SetValue(item, now);
          if written.Fail? {
            c.SetFailstate(written.error, now);
          }
        case Rejected(e) =>
          c.SetFailstate(e, now);
      }
      SetReady();
      r := Pass;
    }

    /**
     * One run of the store's reaction. It fires only when the store is not pending and the
     * queue is not empty; then it dispatches what FetchQueue.Drain plans and leaves its rest
     * queued. Queued ids are registered, so a dispatched batch never meets a missing container.
     */
    method Drain() returns (d: Dispatch)
      requires Valid()
      modifies this`fetchQueue, this`isPending, containers.Values
      ensures Valid()
      ensures old(isPending) || |old(fetchQueue)| == 0 ==>
        d == NotFired && fetchQueue == old(fetchQueue) && isPending == old(isPending) && View() == old(View())
      ensures !old(isPending) && |old(fetchQueue)| > 0 ==>
        var drained := FetchQueue.Drain(old(fetchQueue));
        fetchQueue == drained.rest &&
        match drained.plan {
          case FetchAllPlan =>
            d == FiredAll(if client.fetchAll then Pass else Fail(Unsupported("fetchAll")))
            && isPending == client.fetchAll && View() == old(View())
          case FetchOnePlan(id) =>
            id in containers
            && d == FiredOne(id, if client.fetchOne then Ok(Some(containers[id])) else Err(Unsupported("fetchOne")))
            && isPending == client.fetchOne && View() == old(View())
          case FetchManyPlan(ids) =>
            (forall j :: 0 <= j < |ids| ==> ids[j] in containers)
            && d.FiredMany? && d.ids == ids && isPending == client.fetchMany
            && (!client.fetchMany ==> d.begunMany == Err(Unsupported("fetchMany")) && View() == old(View()))
            && (client.fetchMany ==>
                  View() == Reconcile.MarkPending(old(View()), ids)
                  && d.begunMany.Ok? && |d.begunMany.value| == |ids|
                  && forall j :: 0 <= j < |ids| ==> d.begunMany.value[j] == containers[ids[j]])
        }
    {
      if isPending || |fetchQueue| == 0 {
        return NotFired;
      }
      var allIndex := FetchQueue.IndexOf(fetchQueue, FetchQueue.All);
      if allIndex != -1 {
        var _ := SpliceFetchQueue(allIndex, 1);
        var begun := BeginFetchAll();
        d := FiredAll(begun);
      } else {
        ghost var q := fetchQueue;
        FetchQueue.SplicePrefix(q, FetchQueue.BatchSize);
        var idsToFetch := SpliceFetchQueue(0, FetchQueue.BatchSize);
        assert forall j :: 0 <= j < |idsToFetch| ==> idsToFetch[j] in q;
        d := DispatchBatch(idsToFetch);
      }
    }

    /**
     * The batch branch of the reaction once the ids left the queue: `_fetchOne` for a single
     * id, `_fetchMany` otherwise. Every id of the batch was queued, so it is registered.
     */
    method DispatchBatch(ids: seq<string>) returns (d: Dispatch)
      requires Valid() && !isPending
      requires forall j :: 0 <= j < |ids| ==> ids[j] in containers
      modifies this`isPending, containers.Values
      ensures Valid()
      ensures |ids| == 1 ==>
        d == FiredOne(ids[0], if client.fetchOne then Ok(Some(containers[ids[0]])) else Err(Unsupported("fetchOne")))
        && isPending == client.fetchOne && View() == old(View())
      ensures |ids| != 1 ==>
        d.FiredMany? && d.ids == ids && isPending == client.fetchMany
        && (!client.fetchMany ==> d.begunMany == Err(Unsupported("fetchMany")) && View() == old(View()))
        && (client.fetchMany ==>
              View() == Reconcile.MarkPending(old(View()), ids)
              && d.begunMany.Ok? && |d.begunMany.value| == |ids|
              && forall j :: 0 <= j < |ids| ==> d.begunMany.value[j] == containers[ids[j]])
    {
      if |ids| == 1 {
        var begun := BeginFetchOne(ids[0]);
        d := FiredOne(ids[0], begun);
      } else {
        Reconcile.FirstMissingAt(ids, containers.Keys, |ids|);
        assert ids[..|ids|] == ids;
        var begun := BeginFetchMany(ids);
        d := FiredMany(ids, begun);
      }
    }

    /**
     * `fetchOne(id, ct)`: registers the given container, else the registered one, else a new
     * one; queues id only if that container's shouldFetch holds and id is not queued yet.
     * A registered container that the given one replaces is destroyed, as a tree map does
     * with an entry `set` overwrites by another instance.
     */
    method FetchOne(id: string, ct: Option<Container>, now: nat)
      requires Valid()
      requires ct.Some? ==> ct.value.id == id && ct.value.alive && ct.value.options == options
      modifies this`containers, this`fetchQueue
      modifies if ct.Some? && id in containers && containers[id] != ct.value then {containers[id]} else {}
      ensures Valid()
      ensures id in containers && containers == old(containers)[id := containers[id]]
      ensures ct.Some? ==> containers[id] == ct.value
      ensures ct.Some? && id in old(containers) && old(containers)[id] != ct.value ==>
        old(containers)[id].State() == old(containers[id].State()).(alive := false)
      ensures forall k :: k in old(containers) && k != id ==> containers[k].State() == old(containers[k].State())
      ensures ct.Some? ==> ct.value.State() == old(ct.value.State())
      ensures ct.None? && id in old(containers) ==> containers[id].State() == old(containers[id].State())
      ensures ct.None? && id in old(containers) ==> containers[id] == old(containers)[id]
      ensures ct.None? && id !in old(containers) ==>
        fresh(containers[id]) && containers[id].State() == Initial(now)
      ensures fetchQueue ==
        if containers[id].State().ShouldFetch(options, now) then FetchQueue.Enqueue(old(fetchQueue), id)
        else old(fetchQueue)
    {
      var c: Container;
      if ct.Some? {
        c := ct.value;
        if id in containers && containers[id] != c {
          containers[id].Destroy();
        }
      } else if id in containers {
        c := containers[id];
      } else {
        c := new Container(id, options, now);
      }
      containers := containers[id := c];
      if c.State().ShouldFetch(c.options, now) && id !in fetchQueue {
        fetchQueue := fetchQueue + [id];
      }
    }

    /**
     * `fetchMany(ids, cts)`: registers the wanting, unregistered containers of cts (Adopt),
     * then queues every id that has a container, duplicates included.
     */
    method FetchMany(ids: seq<string>, cts: seq<Container>, now: nat)
      requires Valid()
      requires forall c :: c in cts ==> c.options == options
      modifies this`containers, this`fetchQueue
      ensures Valid()
      ensures containers == Adopt(old(containers), cts, now)
      ensures fetchQueue == old(fetchQueue) + FetchQueue.Registered(ids, containers.Keys)
    {
      var i := 0;
      while i < |cts|
        invariant 0 <= i <= |cts|
        invariant Valid()
        invariant fetchQueue == old(fetchQueue)
        invariant containers == Adopt(old(containers), cts[..i], now)
      {
        var c := cts[i];
        assert cts[..i + 1][..i] == cts[..i];
        if c.State().ShouldFetch(c.options, now) && c.id !in containers {
          containers := containers[c.id := c];
        }
        i := i + 1;
      }
      assert cts[..i] == cts;
      fetchQueue := fetchQueue + FetchQueue.Registered(ids, containers.Keys);
    }

    /** `fetchAll()`: queues "*" unless it is queued already. */
    method FetchAll()
      requires Valid()
      modifies this`fetchQueue
      ensures Valid()
      ensures fetchQueue == FetchQueue.EnqueueAll(old(fetchQueue))
    {
      if FetchQueue.All !in fetchQueue {
        fetchQueue := fetchQueue + [FetchQueue.All];
      }
    }

    /**
     * `getOne(id)`: the registered container, or a new unregistered one. Only for the new one
     * (whose shouldFetch always holds) does it schedule `fetchOne(id, ct)`.
     */
    method GetOne(id: string, now: nat) returns (ct: Container, scheduled: Option<Scheduled>)
      requires Valid()
      ensures id in containers ==> ct == containers[id] && scheduled == None
      ensures id !in containers ==>
        fresh(ct) && ct.id == id && ct.options == options && ct.State() == Initial(now)
        && scheduled == Some(ScheduledFetchOne(id, ct))
    {
      if id in containers {
        ct := containers[id];
      } else {
        ct := new Container(id, options, now);
      }
      scheduled := None;
      if ct.State().ShouldFetch(ct.options, now) && id !in containers {
        scheduled := Some(ScheduledFetchOne(id, ct));
      }
    }

    /**
     * `getMany(ids)`: one container per id (the registered one or a new one), and a single
     * scheduled `fetchMany(ids, wanting)` when some of them want fetching.
     */
    method GetMany(ids: seq<string>, now: nat) returns (cts: seq<Container>, scheduled: Option<Scheduled>)
      requires Valid()
      ensures |cts| == |ids|
      ensures forall j :: 0 <= j < |ids| ==> cts[j].id == ids[j] && cts[j].options == options
      ensures forall j :: 0 <= j < |ids| && ids[j] in containers ==> cts[j] == containers[ids[j]]
      ensures forall j :: 0 <= j < |ids| && ids[j] !in containers ==>
        fresh(cts[j]) && cts[j].State() == Initial(now)
      ensures (exists j :: 0 <= j < |cts| && cts[j].State().ShouldFetch(options, now)) ==>
        scheduled == Some(ScheduledFetchMany(ids, Wanting(cts, now)))
      ensures (forall j :: 0 <= j < |cts| ==> !cts[j].State().ShouldFetch(options, now)) ==>
        scheduled == None
    {
      cts := [];
      var i := 0;
      while i < |ids|
        invariant 0 <= i <= |ids|
        invariant |cts| == i
        invariant forall j :: 0 <= j < i ==> cts[j].id == ids[j] && cts[j].options == options
        invariant forall j :: 0 <= j < i && ids[j] in containers ==> cts[j] == containers[ids[j]]
        invariant forall j :: 0 <= j < i && ids[j] !in containers ==>
          fresh(cts[j]) && cts[j].State() == Initial(now)
      {
        var ct: Container;
        if ids[i] in containers {
          ct := containers[ids[i]];
        } else {
          ct := new Container(ids[i], options, now);
        }
        cts := cts + [ct];
        i := i + 1;
      }
      var toFetch := Wanting(cts, now);
      scheduled := None;
      if |toFetch| > 0 {
        scheduled := Some(ScheduledFetchMany(ids, toFetch));
      }
    }

    /** `getAll()`: every container; `fetchAll()` is scheduled while the store is not ready. */
    method GetAll() returns (cts: set<Container>, scheduled: Option<Scheduled>)
      ensures cts == containers.Values
      ensures scheduled == if isReady then None else Some(ScheduledFetchAll)
    {
      cts := containers.Values;
      scheduled := if isReady then None else Some(ScheduledFetchAll);
    }

    /** Runs an action a read view scheduled. */
    method RunScheduled(s: Scheduled, now: nat)
      requires Valid()
      requires s.ScheduledFetchOne? ==> s.ct.id == s.id && s.ct.alive && s.ct.options == options
      requires s.ScheduledFetchMany? ==> forall c :: c in s.cts ==> c.options == options
      modifies this`containers, this`fetchQueue
      modifies if s.ScheduledFetchOne? && s.id in containers && containers[s.id] != s.ct then {containers[s.id]} else {}
      ensures Valid()
      ensures s.ScheduledFetchOne? && s.id in old(containers) && old(containers)[s.id] != s.ct ==>
        old(containers)[s.id].State() == old(containers[s.id].State()).(alive := false)
      ensures s.ScheduledFetchOne? ==>
        containers == old(containers)[s.id := s.ct]
        && fetchQueue == if s.ct.State().ShouldFetch(options, now) then FetchQueue.Enqueue(old(fetchQueue), s.id)
                         else old(fetchQueue)
      ensures s.ScheduledFetchMany? ==>
        containers == Adopt(old(containers), s.cts, now)
        && fetchQueue == old(fetchQueue) + FetchQueue.Registered(s.ids, containers.Keys)
      ensures s.ScheduledFetchAll? ==>
        containers == old(containers) && fetchQueue == FetchQueue.EnqueueAll(old(fetchQueue))
    {
      match s {
        case ScheduledFetchOne(id, ct) => FetchOne(id, Some(ct), now);
        case ScheduledFetchMany(ids, cts) => FetchMany(ids, cts, now);
        case ScheduledFetchAll => FetchAll();
      }
    }

    /**
     * The step the `value` getter of a registered container schedules: shouldFetch is
     * checked again when it runs, and only then is the owning store's fetchOne called.
     */
    method RunContainerRefetch(c: Container, now: nat)
      requires Valid() && c.id in containers && containers[c.id] == c
      modifies this`containers, this`fetchQueue
      ensures Valid() && containers == old(containers)
      ensures fetchQueue ==
        if c.State().ShouldFetch(options, now) then FetchQueue.Enqueue(old(fetchQueue), c.id)
        else old(fetchQueue)
    {
      if c.State().ShouldFetch(c.options, now) {
        FetchOne(c.id, None, now);
      }
    }
  }
}
