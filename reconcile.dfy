/**
 * Reference definitions, over plain values, of what the store's fetch flows write back
 * into its containers. `map<string, Snapshot>` is the state of every registered container,
 * keyed by id; the store's methods are proved to change that map as these functions say.
 */
module Reconcile {
  import opened Wrappers
  import opened AsyncContainer

  /** The ids of the items, in order. */
  function Ids(items: seq<Item>): (r: seq<string>)
    ensures |r| == |items| && forall i :: 0 <= i < |items| ==> r[i] == items[i].id
  {
    seq(|items|, i requires 0 <= i < |items| => items[i].id)
  }

  /** The position of the first id that is not a key, or |ids| when all are. */
  function FirstMissing(ids: seq<string>, keys: set<string>): (f: nat)
    ensures f <= |ids|
  {
    if |ids| == 0 then 0
    else if ids[0] !in keys then 0
    else 1 + FirstMissing(ids[1..], keys)
  }

  /** Every id before FirstMissing is a key, and the id at FirstMissing (if any) is not. */
  lemma {:induction false} FirstMissingIsMissing(ids: seq<string>, keys: set<string>)
    ensures forall j :: 0 <= j < FirstMissing(ids, keys) ==> ids[j] in keys
    ensures FirstMissing(ids, keys) < |ids| ==> ids[FirstMissing(ids, keys)] !in keys
  {
    if |ids| > 0 && ids[0] in keys {
      FirstMissingIsMissing(ids[1..], keys);
    }
  }

  /** A position with only keys before it and a missing id (or the end) at it is FirstMissing. */
  lemma {:induction false} FirstMissingAt(ids: seq<string>, keys: set<string>, i: nat)
    requires i <= |ids|
    requires forall j :: 0 <= j < i ==> ids[j] in keys
    requires i < |ids| ==> ids[i] !in keys
    ensures FirstMissing(ids, keys) == i
  {
    if i > 0 {
      FirstMissingAt(ids[1..], keys, i - 1);
    }
  }

  /** The last item with identifier k, if any. */
  function LastWith(items: seq<Item>, k: string): (r: Option<Item>)
    ensures r.Some? ==> r.value in items && r.value.id == k
    ensures r.None? ==> forall i :: 0 <= i < |items| ==> items[i].id != k
  {
    if |items| == 0 then None
    else if items[|items| - 1].id == k then Some(items[|items| - 1])
    else LastWith(items[..|items| - 1], k)
  }

  /**
   * Writing items in order, as the `forEach` of `_fetchAll` does: each item's container
   * (the registered one, or a new one created at `now`) gets `setValue(item)`.
   */
  function Absorb(m: map<string, Snapshot>, items: seq<Item>, opts: Options, now: int): (r: map<string, Snapshot>)
  {
    if |items| == 0 then m
    else
      var p := items[..|items| - 1];
      var it := items[|items| - 1];
      var before := Absorb(m, p, opts, now);
      before[it.id := (if it.id in before then before[it.id] else Initial(now)).Valued(it, opts, now)]
  }

  /** Absorb keeps every key and adds the id of every item. */
  lemma {:induction false} AbsorbKeys(m: map<string, Snapshot>, items: seq<Item>, opts: Options, now: int)
    ensures Absorb(m, items, opts, now).Keys == m.Keys + (set i | i in items :: i.id)
  {
    if |items| > 0 {
      var p := items[..|items| - 1];
      var it := items[|items| - 1];
      AbsorbKeys(m, p, opts, now);
      assert (set i | i in items :: i.id) == (set i | i in p :: i.id) + {it.id} by {
        assert items == p + [it];
        assert forall i :: i in items <==> i in p || i == it;
      }
    }
  }

  /** Absorbing one more item updates only that item's container. */
  lemma AbsorbStep(m: map<string, Snapshot>, items: seq<Item>, i: nat, opts: Options, now: int)
    requires i < |items|
    ensures var before := Absorb(m, items[..i], opts, now);
      Absorb(m, items[..i + 1], opts, now) == before[items[i].id :=
        (if items[i].id in before then before[items[i].id] else Initial(now)).Valued(items[i], opts, now)]
  {
    assert items[..i + 1][..i] == items[..i];
  }

  /**
   * After Absorb, the containers are the old ones plus one per new id; a container with
   * no returned item is untouched, and one with returned items holds the last of them.
   */
  lemma {:induction false} AbsorbHoldsLastItem(m: map<string, Snapshot>, items: seq<Item>, opts: Options, now: int)
    ensures forall k :: k in m ==> k in Absorb(m, items, opts, now)
    ensures forall k :: k in m && LastWith(items, k).None? ==> Absorb(m, items, opts, now)[k] == m[k]
    ensures forall k :: LastWith(items, k).Some? ==>
      k in Absorb(m, items, opts, now) &&
      Absorb(m, items, opts, now)[k] == (if k in m then m[k] else Initial(now)).Valued(LastWith(items, k).value, opts, now)
  {
    if |items| > 0 {
      var p := items[..|items| - 1];
      var it := items[|items| - 1];
      AbsorbHoldsLastItem(m, p, opts, now);
      AbsorbKeys(m, p, opts, now);
    }
  }

  /** Every container of the batch marked pending, as `_fetchMany` does before it fetches. */
  function MarkPending(m: map<string, Snapshot>, batch: seq<string>): (r: map<string, Snapshot>)
    ensures r.Keys == m.Keys
  {
    map k | k in m :: if k in batch then m[k].Pending() else m[k]
  }

  /** Marking one more registered id pends only that container (again, if it was already). */
  lemma MarkPendingStep(m: map<string, Snapshot>, batch: seq<string>, i: nat)
    requires i < |batch| && batch[i] in m
    ensures var before := MarkPending(m, batch[..i]);
      MarkPending(m, batch[..i + 1]) == before[batch[i] := before[batch[i]].Pending()]
  {
    var before := MarkPending(m, batch[..i]);
    assert batch[..i + 1] == batch[..i] + [batch[i]];
    forall k | k in m
      ensures MarkPending(m, batch[..i + 1])[k] == before[batch[i] := before[batch[i]].Pending()][k]
    {
      if k == batch[i] {
        assert before[k].Pending() == m[k].Pending();
      }
    }
  }

  /** Every container of the batch is left pending with no error, and the rest untouched. */
  lemma MarkPendingBlocksFetch(m: map<string, Snapshot>, batch: seq<string>, opts: Options, now: int)
    ensures forall k :: k in m && k in batch ==>
      MarkPending(m, batch)[k].isPending && MarkPending(m, batch)[k].error == None
      && !MarkPending(m, batch)[k].ShouldFetch(opts, now)
    ensures forall k :: k in m && k !in batch ==> MarkPending(m, batch)[k] == m[k]
  {
  }
}
