/** The single-slot, five-minute cache in front of a provider call
    (src/api.js, src/movies.js). The clock reading and the outcome of the
    refresh are parameters. */
module Cache {
  import opened Wrappers

  /** Freshness window in milliseconds: five minutes. */
  const Ttl: int := 5 * 60 * 1000

  /** `{data, timestamp}`; `data` is `None` until the first successful fetch. */
  datatype Slot<T> = Slot(data: Option<T>, timestamp: int)

  /** The slot at process start: `{data: null, timestamp: 0}`. */
  function Empty<T>(): Slot<T> {
    Slot(None, 0)
  }

  /** `cache.data && now - cache.timestamp < CACHE_TTL` */
  predicate Fresh<T>(slot: Slot<T>, now: int) {
    slot.data.Some? && now - slot.timestamp < Ttl
  }

  /** One read: its result, the slot afterwards, and whether it had to
      refresh (a cache miss). */
  datatype Served<T, E> = Served(result: Result<T, E>, slot: Slot<T>, refreshed: bool)

  /** A read at time `now`. A fresh slot answers without refreshing;
      otherwise `refresh` is what fetching yields, and only a successful
      fetch is stored, stamped with the `now` read before fetching. */
  function Read<T, E>(slot: Slot<T>, now: int, refresh: Result<T, E>): (s: Served<T, E>)
    ensures Fresh(slot, now) ==> s == Served(Success(slot.data.value), slot, false)
    ensures !Fresh(slot, now) ==> s.refreshed && s.result == refresh
    ensures refresh.Success? && !Fresh(slot, now) ==> s.slot == Slot(Some(refresh.value), now)
    ensures s.result.Failure? ==> s.slot == slot
  {
    if Fresh(slot, now) then Served(Success(slot.data.value), slot, false)
    else if refresh.Success? then Served(refresh, Slot(Some(refresh.value), now), true)
    else Served(refresh, slot, true)
  }

  /** The first read after start always refreshes. */
  lemma EmptyMisses<T, E>(now: int, refresh: Result<T, E>)
    ensures Read(Empty<T>(), now, refresh).refreshed
  {
  }

  /** After a refreshing read succeeds at `t`, every read at a time in
      `[t, t + Ttl)` returns the same data without refreshing and leaves the
      slot alone; from `t + Ttl` on, reads refresh again. */
  lemma FreshWindow<T, E>(slot: Slot<T>, t: int, refresh: Result<T, E>, later: int, next: Result<T, E>)
    requires !Fresh(slot, t) && refresh.Success?
    requires t <= later
    ensures var first := Read(slot, t, refresh);
      var second := Read(first.slot, later, next);
      && (later < t + Ttl ==> second == Served(first.result, first.slot, false))
      && (later >= t + Ttl ==> second.refreshed && second.result == next)
  {
  }

  /** A failed refresh leaves no trace: the next read behaves as if the
      failed one had not happened. */
  lemma FailureLeavesNoTrace<T, E>(slot: Slot<T>, now: int, refresh: Result<T, E>, later: int, next: Result<T, E>)
    requires Read(slot, now, refresh).result.Failure?
    ensures Read(Read(slot, now, refresh).slot, later, next) == Read(slot, later, next)
  {
  }
}
