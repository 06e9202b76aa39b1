/**
 * The per-key async container of createAsyncContainer: one cache slot holding an optional
 * value, an optional error, the readiness flags and two timestamps, governed by two
 * independent time-to-live settings (one for values, one for failures).
 *
 * The observable state of a container is captured by the `Snapshot` record. The derived
 * views (hasExpired, inFailstate, shouldFetch) are defined once, on `Snapshot`; the actions
 * are methods of the class `Container`, each specified by a `Snapshot` transition.
 * Time is an explicit argument standing for the host clock.
 */
module AsyncContainer {
  import opened Wrappers

  /** An instance of the cached item model; the cache only ever looks at its identifier. */
  datatype Item = Item(id: string, body: string)

  /** What a failed operation raises. */
  datatype Error =
    | Error(message: string)          // an `Error` object with this message
    | UndefinedContainer(id: string)  // the TypeError of calling an action on the `undefined`
                                      // that `containers.get(id)!` yields for an unknown id

  const DeadContainerMessage := "Trying to set value on a dead container"

  /** The container options. `hasFetch` says whether a standalone fetch function was injected. */
  datatype Options = Options(ttl: nat, failstateTtl: nat, hasFetch: bool)

  /** The defaults: values never expire, failures expire after 10000 time units. */
  const DefaultOptions := Options(0, 10000, false)

  /** The fields of a container: `_value`, its volatile state and whether it is alive. */
  datatype Snapshot = Snapshot(
    value: Option<Item>,
    isReady: bool,
    isPending: bool,
    error: Option<Error>,
    lastModified: int,
    expiresAt: int,
    alive: bool)
  {
    /** A set expiry (a positive `expiresAt`) has been reached. */
    predicate HasExpired(now: int) {
      expiresAt > 0 && now >= expiresAt
    }

    /** An error is held and, when failures expire at all, has not expired yet. */
    predicate InFailstate(opts: Options, now: int) {
      if opts.failstateTtl > 0 then error.Some? && !HasExpired(now) else error.Some?
    }

    /** The single gate of every fetch trigger. */
    predicate ShouldFetch(opts: Options, now: int) {
      !isPending && (!isReady || HasExpired(now)) && !InFailstate(opts, now) && alive
    }

    /** The state after `setReady`. */
    function Ready(): Snapshot {
      this.(isPending := false, isReady := true)
    }

    /** The state after `setPending`. */
    function Pending(): Snapshot {
      this.(error := None, isPending := true)
    }

    /** The state after `setFailstate(e)` at time `now`. */
    function Failed(e: Error, opts: Options, now: int): Snapshot {
      this.(isPending := false, isReady := true, error := Some(e), lastModified := now,
            expiresAt := if opts.failstateTtl > 0 then now + opts.failstateTtl else 0)
    }

    /** The state after `clearFailstate` at time `now`. */
    function Cleared(now: int): Snapshot {
      this.(error := None, expiresAt := now - 1)
    }

    /** The state after a successful `setValue(v)` at time `now`. */
    function Valued(v: Item, opts: Options, now: int): Snapshot {
      this.(error := None, isPending := false, isReady := true, value := Some(v),
            lastModified := now, expiresAt := if opts.ttl > 0 then now + opts.ttl else 0)
    }
  }

  /** The state of a container created at time `now`. */
  function Initial(now: int): Snapshot {
    Snapshot(None, false, false, None, now, 0, true)
  }

  class Container {
    const id: string
    const options: Options
    var value: Option<Item>
    var isReady: bool
    var isPending: bool
    var error: Option<Error>
    var lastModified: int
    var expiresAt: int
    var alive: bool

    /** The container's fields as one record. */
    function State(): Snapshot
      reads this
    {
      Snapshot(value, isReady, isPending, error, lastModified, expiresAt, alive)
    }

    /** `AsyncContainer.create({ id })` at time `now`. */
    constructor (id: string, options: Options, now: nat)
      ensures this.id == id && this.options == options
      ensures State() == Initial(now)
    {
      this.id := id;
      this.options := options;
      value := None;
      isReady := false;
      isPending := false;
      error := None;
      lastModified := now;
      expiresAt := 0;
      alive := true;
    }

    method SetReady()
      modifies this
      ensures State() == old(State()).Ready()
    {
      isPending := false;
      isReady := true;
    }

    method SetPending()
      modifies this
      ensures State() == old(State()).Pending()
    {
      error := None;
      isPending := true;
    }

    /** Records a failure; unlike SetValue it does not check that the container is alive. */
    method SetFailstate(e: Error, now: nat)
      modifies this
      ensures State() == old(State()).Failed(e, options, now)
    {
      isPending := false;
      isReady := true;
      error := Some(e);
      lastModified := now;
      expiresAt := if options.failstateTtl > 0 then lastModified + options.failstateTtl else 0;
    }

    method ClearFailstate(now: nat)
      modifies this
      ensures State() == old(State()).Cleared(now)
    {
      error := None;
      expiresAt := now - 1;
    }

    /** Stores a value; a destroyed container raises an error and keeps every field. */
    method SetValue(v: Item, now: nat) returns (r: Outcome<Error>)
      modifies this
      ensures old(alive) ==> r == Pass && State() == old(State()).Valued(v, options, now)
      ensures !old(alive) ==> r == Fail(Error(DeadContainerMessage)) && State() == old(State())
    {
      if !alive {
        return Fail(Error(DeadContainerMessage));
      }
      error := None;
      isPending := false;
      isReady := true;
      value := Some(v);
      lastModified := now;
      expiresAt := if options.ttl > 0 then lastModified + options.ttl else 0;
      r := Pass;
    }

    /** Destruction by the owning tree: terminal, and it changes no other field. */
    method Destroy()
      modifies this
      ensures State() == old(State()).(alive := false)
    {
      alive := false;
    }

    /**
     * The `value` getter: returns the held value and never changes state. When the
     * container wants fetching it also reports that a refetch step was scheduled for
     * after the current turn (see RunScheduledFetch and Store.RunContainerRefetch).
     */
    method GetValue(now: nat) returns (v: Option<Item>, scheduled: bool)
      ensures v == State().value
      ensures scheduled <==> State().ShouldFetch(options, now)
    {
      v := value;
      scheduled := State().ShouldFetch(options, now);
    }

    /**
     * The scheduled step of the `value` getter for a container without an owning store:
     * shouldFetch is checked again at run time, and the injected fetch is invoked only
     * if it still holds. Invoking it changes no field; its result arrives through SetValue.
     */
    method RunScheduledFetch(now: nat) returns (invoked: bool)
      ensures invoked <==> options.hasFetch && State().ShouldFetch(options, now)
    {
      invoked := State().ShouldFetch(options, now) && options.hasFetch;
    }
  }
}
