/**
 * The store's fetch queue: an array of container ids plus the "*" sentinel that asks for
 * the whole collection. The JavaScript array operations the store uses (indexOf, splice,
 * includes, filter, push) are written out here with their exact semantics, and the drain
 * rule of the store's reaction is stated on top of them.
 */
module FetchQueue {

  /** The queue entry that stands for "fetch everything". */
  const All := "*"

  /** How many ids one drain takes at most. */
  const BatchSize := 40

  /** `Array.prototype.indexOf`: the first position of x, or -1. */
  function IndexOf<T(==)>(s: seq<T>, x: T): (i: int)
    ensures -1 <= i < |s|
    ensures i == -1 <==> x !in s
    ensures 0 <= i ==> s[i] == x && x !in s[..i]
  {
    if |s| == 0 then -1
    else if s[0] == x then 0
    else
      var j := IndexOf(s[1..], x);
      if j == -1 then -1 else j + 1
  }

  /** Where `splice(start, …)` starts: a negative start counts from the end. */
  function SpliceStart(len: nat, start: int): (k: nat)
    ensures k <= len
  {
    if start < 0 then (if len + start < 0 then 0 else len + start)
    else if start > len then len
    else start
  }

  /** What `splice` returns (`removed`) and what it leaves in the array (`rest`). */
  datatype Spliced<T> = Spliced(removed: seq<T>, rest: seq<T>)

  /** `Array.prototype.splice(start, deleteCount)` without inserted elements. */
  function Splice<T>(s: seq<T>, start: int, deleteCount: int): Spliced<T>
  {
    var k := SpliceStart(|s|, start);
    var n := if deleteCount < 0 then 0 else if deleteCount > |s| - k then |s| - k else deleteCount;
    Spliced(s[k..k + n], s[..k] + s[k + n..])
  }

  /** Splicing one element at a valid position removes exactly that element. */
  lemma SpliceOneAt<T>(s: seq<T>, i: nat)
    requires i < |s|
    ensures Splice(s, i, 1) == Spliced([s[i]], s[..i] + s[i + 1..])
  {
  }

  /** `splice(-1, 1)` removes the last element (and nothing from an empty array). */
  lemma SpliceMinusOne<T>(s: seq<T>)
    ensures |s| > 0 ==> Splice(s, -1, 1) == Spliced([s[|s| - 1]], s[..|s| - 1])
    ensures |s| == 0 ==> Splice(s, -1, 1) == Spliced([], [])
  {
  }

  /** `splice(0, n)` takes the first min(n, |s|) elements, in order. */
  lemma SplicePrefix<T>(s: seq<T>, n: nat)
    ensures var m := if n < |s| then n else |s|; Splice(s, 0, n) == Spliced(s[..m], s[m..])
  {
  }

  /** Cutting a sequence into three pieces loses no element. */
  lemma ThreePieces<T>(before: seq<T>, removed: seq<T>, after: seq<T>)
    ensures forall x :: x in before + after ==> x in before + removed + after
    ensures multiset(removed) + multiset(before + after) == multiset(before + removed + after)
  {
    assert before + removed + after == before + (removed + after);
  }

  /** Splicing never adds an element, and what it removes plus what it leaves is what was there. */
  lemma SpliceOnlyRemoves<T>(s: seq<T>, start: int, deleteCount: int)
    ensures forall x :: x in Splice(s, start, deleteCount).rest ==> x in s
    ensures multiset(Splice(s, start, deleteCount).removed) + multiset(Splice(s, start, deleteCount).rest) == multiset(s)
  {
    var k := SpliceStart(|s|, start);
    var n := if deleteCount < 0 then 0 else if deleteCount > |s| - k then |s| - k else deleteCount;
    var before, removed, after := s[..k], s[k..k + n], s[k + n..];
    assert s == before + removed + after;
    assert Splice(s, start, deleteCount) == Spliced(removed, before + after);
    ThreePieces(before, removed, after);
  }

  /** How often x occurs in s. */
  function Count<T(==)>(s: seq<T>, x: T): nat
  {
    if |s| == 0 then 0 else (if s[0] == x then 1 else 0) + Count(s[1..], x)
  }

  lemma {:induction false} CountAppend<T>(s: seq<T>, t: seq<T>, x: T)
    ensures Count(s + t, x) == Count(s, x) + Count(t, x)
  {
    if |s| == 0 {
      assert s + t == t;
    } else {
      assert (s + t)[1..] == s[1..] + t;
      CountAppend(s[1..], t, x);
    }
  }

  lemma {:induction false} CountZero<T>(s: seq<T>, x: T)
    ensures Count(s, x) == 0 <==> x !in s
  {
    if |s| > 0 {
      CountZero(s[1..], x);
      assert s == [s[0]] + s[1..];
    }
  }

  /** No entry occurs twice. */
  predicate NoDuplicates<T(==)>(s: seq<T>) {
    forall i, j :: 0 <= i < j < |s| ==> s[i] != s[j]
  }

  /** The push rule of `fetchOne`: append the id unless it is already queued. */
  function Enqueue(q: seq<string>, id: string): seq<string> {
    if id in q then q else q + [id]
  }

  /** The push rule of `fetchAll`: append "*" unless it is already queued. */
  function EnqueueAll(q: seq<string>): seq<string> {
    if All in q then q else q + [All]
  }

  /** Enqueue never queues an id twice: afterwards it is queued, once if it was at most once. */
  lemma EnqueueQueuesOnce(q: seq<string>, id: string)
    ensures id in Enqueue(q, id)
    ensures Count(q, id) <= 1 ==> Count(Enqueue(q, id), id) == 1
    ensures forall x :: x != id ==> Count(Enqueue(q, id), x) == Count(q, x)
    ensures NoDuplicates(q) ==> NoDuplicates(Enqueue(q, id))
  {
    CountZero(q, id);
    forall x | true ensures Count(q + [id], x) == Count(q, x) + (if x == id then 1 else 0) {
      CountAppend(q, [id], x);
      assert [id][1..] == [];
    }
    if id in q && Count(q, id) <= 1 {
      assert Count(q, id) != 0;
    }
  }

  /** Repeated fetchAll calls leave the queue as the first one did, with "*" queued once. */
  lemma EnqueueAllOnce(q: seq<string>)
    ensures EnqueueAll(EnqueueAll(q)) == EnqueueAll(q)
    ensures Count(q, All) <= 1 ==> Count(EnqueueAll(q), All) == 1
    ensures forall x :: x != All ==> Count(EnqueueAll(q), x) == Count(q, x)
  {
    EnqueueQueuesOnce(q, All);
  }

  /** `ids.filter((id) => containers.has(id))`. */
  function Registered(ids: seq<string>, keys: set<string>): (r: seq<string>)
    ensures forall x :: Count(r, x) == if x in keys then Count(ids, x) else 0
    ensures forall x :: x in r ==> x in keys && x in ids
  {
    if |ids| == 0 then []
    else
      var tail := Registered(ids[1..], keys);
      var r := if ids[0] in keys then [ids[0]] + tail else tail;
      assert forall x :: x in r ==> x in ids by {
        assert forall x :: x in tail ==> x in ids[1..];
      }
      assert ids[0] in keys ==> r[1..] == tail;
      r
  }

  /** fetchMany does not dedupe: an id queued by fetchOne can be queued again. */
  lemma FetchManyCanDuplicate(id: string)
    ensures Count(Enqueue([], id) + Registered([id], {id}), id) == 2
  {
    assert Enqueue([], id) + Registered([id], {id}) == [id, id];
  }

  /** What one drain dispatches. */
  datatype Plan = FetchAllPlan | FetchOnePlan(id: string) | FetchManyPlan(ids: seq<string>)

  /** The dispatched plan and the queue left behind. */
  datatype Drained = Drained(plan: Plan, rest: seq<string>)

  /**
   * The drain rule of the store's reaction (run once the store is idle and the queue is
   * non-empty): "*" wins and only that entry leaves the queue; otherwise the oldest
   * BatchSize ids leave it, one id going to fetch-one and more to fetch-many.
   */
  function Drain(q: seq<string>): (d: Drained)
    ensures All in q ==> (d.plan == FetchAllPlan
      && exists i :: 0 <= i < |q| && q[i] == All && All !in q[..i] && d.rest == q[..i] + q[i + 1..])
    ensures All !in q ==> (
      var n := if |q| < BatchSize then |q| else BatchSize;
      d.rest == q[n..]
      && (n == 1 ==> d.plan == FetchOnePlan(q[0]))
      && (n != 1 ==> d.plan == FetchManyPlan(q[..n])))
  {
    var i := IndexOf(q, All);
    if i != -1 then
      SpliceOneAt(q, i);
      Drained(FetchAllPlan, Splice(q, i, 1).rest)
    else
      var batch := Splice(q, 0, BatchSize);
      SplicePrefix(q, BatchSize);
      if |batch.removed| == 1 then Drained(FetchOnePlan(batch.removed[0]), batch.rest)
      else Drained(FetchManyPlan(batch.removed), batch.rest)
  }

  /** A drain loses nothing: the batch it takes followed by what it leaves is the old queue. */
  lemma DrainIsFifo(q: seq<string>)
    requires All !in q && |q| > 0
    ensures Drain(q).plan.FetchOnePlan? ==> [Drain(q).plan.id] + Drain(q).rest == q
    ensures Drain(q).plan.FetchManyPlan? ==> Drain(q).plan.ids + Drain(q).rest == q && 1 < |Drain(q).plan.ids| <= BatchSize
  {
    var n := if |q| < BatchSize then |q| else BatchSize;
    assert q == q[..n] + q[n..];
    if n == 1 {
      assert q[..1] == [q[0]];
    }
  }

  /** A queue holding one id (other than "*") is drained into a fetch-one of that id. */
  lemma DrainSingle(id: string)
    requires id != All
    ensures Drain([id]) == Drained(FetchOnePlan(id), [])
  {
    assert IndexOf([id], All) == -1;
  }

  /** A queue holding ids (none of them "*") of at least two but at most BatchSize entries is drained into one fetch-many. */
  lemma DrainBatch(q: seq<string>)
    requires All !in q && 1 < |q| <= BatchSize
    ensures Drain(q) == Drained(FetchManyPlan(q), [])
  {
    assert q[..|q|] == q;
  }

  /**
   * The queue update of `_fetchAll` per returned item:
   * `fetchQueue.splice(fetchQueue.indexOf(id), 1)`.
   */
  function AfterArrival(q: seq<string>, id: string): seq<string> {
    Splice(q, IndexOf(q, id), 1).rest
  }

  /** A queued id leaves the queue at its first position. */
  lemma ArrivalOfQueuedId(q: seq<string>, id: string)
    requires id in q
    ensures var i := IndexOf(q, id); AfterArrival(q, id) == q[..i] + q[i + 1..]
  {
    SpliceOneAt(q, IndexOf(q, id));
  }

  /** An id that is not queued makes indexOf return -1, and splice(-1, 1) drops the LAST entry. */
  lemma ArrivalOfUnqueuedIdDropsLast(q: seq<string>, id: string)
    requires id !in q && |q| > 0
    ensures AfterArrival(q, id) == q[..|q| - 1]
  {
    SpliceMinusOne(q);
  }

  /** The queue after `_fetchAll` processed the returned ids in order. */
  function AfterArrivals(q: seq<string>, ids: seq<string>): (r: seq<string>)
    ensures forall x :: x in r ==> x in q
  {
    if |ids| == 0 then q
    else
      var before := AfterArrivals(q, ids[..|ids| - 1]);
      SpliceOnlyRemoves(before, IndexOf(before, ids[|ids| - 1]), 1);
      AfterArrival(before, ids[|ids| - 1])
  }

  /** Processing returned ids only takes entries off the queue, duplicates counted. */
  lemma {:induction false} AfterArrivalsOnlyRemoves(q: seq<string>, ids: seq<string>)
    ensures multiset(AfterArrivals(q, ids)) <= multiset(q)
  {
    if |ids| > 0 {
      var before := AfterArrivals(q, ids[..|ids| - 1]);
      AfterArrivalsOnlyRemoves(q, ids[..|ids| - 1]);
      SpliceOnlyRemoves(before, IndexOf(before, ids[|ids| - 1]), 1);
    }
  }

  /** With nothing queued, the returned ids leave the queue empty. */
  lemma {:induction false} AfterArrivalsFromEmpty(ids: seq<string>)
    ensures AfterArrivals([], ids) == []
  {
    if |ids| > 0 {
      AfterArrivalsFromEmpty(ids[..|ids| - 1]);
    }
  }

  /** Processing one more returned id applies one more arrival. */
  lemma AfterArrivalsStep(q: seq<string>, ids: seq<string>, i: nat)
    requires i < |ids|
    ensures AfterArrivals(q, ids[..i + 1]) == AfterArrival(AfterArrivals(q, ids[..i]), ids[i])
  {
    assert ids[..i + 1][..i] == ids[..i];
  }
}
