/**
 * What the container's actions promise, stated over the Snapshot transitions that
 * specify the Container methods.
 */
module ContainerProperties {
  import opened Wrappers
  import opened AsyncContainer

  /** A new container is not ready, not pending, holds nothing and wants fetching at any time. */
  lemma FreshContainer(opts: Options, created: int, now: int)
    ensures var s := Initial(created);
      !s.isReady && !s.isPending && s.error == None && s.value == None && s.alive
      && !s.HasExpired(now) && !s.InFailstate(opts, now) && s.ShouldFetch(opts, now)
  {
  }

  /** shouldFetch is closed by a failstate, by a pending fetch and by destruction. */
  lemma ShouldFetchGate(s: Snapshot, opts: Options, now: int)
    ensures s.InFailstate(opts, now) ==> !s.ShouldFetch(opts, now)
    ensures s.isPending ==> !s.ShouldFetch(opts, now)
    ensures !s.alive ==> !s.ShouldFetch(opts, now)
    ensures s.ShouldFetch(opts, now) ==> !s.isReady || s.HasExpired(now)
  {
  }

  /** Nothing with `expiresAt` 0 ever expires. */
  lemma ZeroExpiryNeverExpires(s: Snapshot, now: int)
    requires s.expiresAt == 0
    ensures !s.HasExpired(now)
  {
  }

  /** After setValue: ready, not pending, no error, the value held, stamped with `now`. */
  lemma ValueSet(s: Snapshot, v: Item, opts: Options, now: int)
    ensures var t := s.Valued(v, opts, now);
      t.isReady && !t.isPending && t.error == None && t.value == Some(v)
      && t.lastModified == now && t.expiresAt == (if opts.ttl > 0 then now + opts.ttl else 0)
      && t.alive == s.alive
      && !t.InFailstate(opts, now)
  {
  }

  /** With ttl 0 a set value never expires, so the container never asks for a refetch. */
  lemma ValueWithoutTtlNeverExpires(s: Snapshot, v: Item, opts: Options, now: int, later: int)
    requires opts.ttl == 0
    ensures !s.Valued(v, opts, now).HasExpired(later)
    ensures !s.Valued(v, opts, now).ShouldFetch(opts, later)
  {
  }

  /** With ttl T > 0 a value set at `now` is fresh before now + T and stale from then on. */
  lemma ValueWithTtlExpires(s: Snapshot, v: Item, opts: Options, now: nat, later: int)
    requires opts.ttl > 0
    ensures var t := s.Valued(v, opts, now);
      (later < now + opts.ttl ==> !t.HasExpired(later) && !t.ShouldFetch(opts, later))
      && (later >= now + opts.ttl ==> t.HasExpired(later) && (t.ShouldFetch(opts, later) <==> s.alive))
  {
  }

  /** After setFailstate: ready, not pending, the error held, in failstate at once. */
  lemma FailstateSet(s: Snapshot, e: Error, opts: Options, now: nat)
    ensures var t := s.Failed(e, opts, now);
      t.isReady && !t.isPending && t.error == Some(e) && t.value == s.value
      && t.lastModified == now && t.alive == s.alive
      && t.InFailstate(opts, now) && !t.ShouldFetch(opts, now)
  {
  }

  /** With failstateTtl 0 a failure never expires: no later time lets a fetch through. */
  lemma FailstateWithoutTtlIsPermanent(s: Snapshot, e: Error, opts: Options, now: int, later: int)
    requires opts.failstateTtl == 0
    ensures s.Failed(e, opts, now).InFailstate(opts, later)
    ensures !s.Failed(e, opts, now).ShouldFetch(opts, later)
  {
  }

  /**
   * With failstateTtl T > 0 a failure recorded at `now` blocks fetching before now + T;
   * from then on it is over and a live container asks for a refetch.
   */
  lemma FailstateWithTtlExpires(s: Snapshot, e: Error, opts: Options, now: nat, later: int)
    requires opts.failstateTtl > 0
    ensures var t := s.Failed(e, opts, now);
      (later < now + opts.failstateTtl ==> t.InFailstate(opts, later) && !t.ShouldFetch(opts, later))
      && (later >= now + opts.failstateTtl ==> !t.InFailstate(opts, later) && (t.ShouldFetch(opts, later) <==> s.alive))
  {
  }

  /** setPending clears the error, blocks fetching, and a second call changes nothing. */
  lemma PendingIsIdempotent(s: Snapshot, opts: Options, now: int)
    ensures s.Pending().isPending && s.Pending().error == None
    ensures s.Pending().Pending() == s.Pending()
    ensures !s.Pending().InFailstate(opts, now) && !s.Pending().ShouldFetch(opts, now)
  {
  }

  /** clearFailstate at a time after 1 clears the error and expires the container from then on. */
  lemma ClearedHasExpired(s: Snapshot, opts: Options, now: int, later: int)
    requires now > 1 && later >= now
    ensures s.Cleared(now).error == None
    ensures s.Cleared(now).HasExpired(later)
    ensures !s.Cleared(now).InFailstate(opts, later)
    ensures s.Cleared(now).ShouldFetch(opts, later) <==> !s.isPending && s.alive
  {
  }

  /** clearFailstate at time 1 or earlier writes an `expiresAt` that counts as "never expires". */
  lemma ClearedEarlyNeverExpires(s: Snapshot, now: int, later: int)
    requires now <= 1
    ensures !s.Cleared(now).HasExpired(later)
  {
  }

  /** Recording the same failure twice at the same time is the same as recording it once. */
  lemma FailedIsIdempotent(s: Snapshot, e: Error, opts: Options, now: int)
    ensures s.Failed(e, opts, now).Failed(e, opts, now) == s.Failed(e, opts, now)
  {
  }

  /** A second setValue overwrites everything the first one wrote. */
  lemma ValuedOverwrites(s: Snapshot, v: Item, w: Item, opts: Options, now: int)
    ensures s.Valued(v, opts, now).Valued(w, opts, now) == s.Valued(w, opts, now)
  {
  }
}
