/** The message-timestamp cache of `src/collector/timestamp_sampler.rs`. Several
    lookups run at once, each a check followed later by a store, and a periodic
    clean-up may fall anywhere between them. Instants are nanoseconds. */
module TimestampCache {
  import opened Basics

  type Key = (string, TopicPartition)

  datatype CachedTimestamp = CachedTimestamp(timestampMs: int, offset: int, cachedAt: int)

  type Cache = map<Key, CachedTimestamp>

  /** What fetching a message timestamp from the broker gave. */
  type FetchReply = Result<Option<int>, string>

  predicate Fresh(e: CachedTimestamp, now: int, ttl: nat) {
    Max(now - e.cachedAt, 0) < ttl
  }

  /** A hit needs a fresh entry for the very offset that is asked for. */
  function Lookup(cache: Cache, ttl: nat, key: Key, offset: int, now: int): Option<int> {
    if key in cache && Fresh(cache[key], now, ttl) && cache[key].offset == offset
    then Some(cache[key].timestampMs)
    else None
  }

  function Store(cache: Cache, key: Key, offset: int, reply: FetchReply, now: int): Cache {
    if reply.Ok? && reply.value.Some? then cache[key := CachedTimestamp(reply.value.value, offset, now)] else cache
  }

  function Cleaned(cache: Cache, ttl: nat, now: int): Cache {
    map key | key in cache && Fresh(cache[key], now, ttl) :: cache[key]
  }

  class MessageSampler {
    var cache: Cache
    const ttl: nat

    constructor (ttl: nat)
      ensures cache == map[] && this.ttl == ttl
    {
      this.ttl := ttl;
      cache := map[];
    }

    /** One lookup on its own. `reply` is what a fetch would answer; it is used,
        and the cache changes, only on a miss. */
    method GetTimestamp(key: Key, offset: int, checkedAt: int, reply: FetchReply, storedAt: int)
      returns (r: FetchReply, fetched: bool)
      modifies this
      ensures fetched <==> Lookup(old(cache), ttl, key, offset, checkedAt).None?
      ensures !fetched ==> r == Ok(Lookup(old(cache), ttl, key, offset, checkedAt)) && cache == old(cache)
      ensures fetched ==> r == reply && cache == Store(old(cache), key, offset, reply, storedAt)
    {
      if key in cache {
        var cached := cache[key];
        if Max(checkedAt - cached.cachedAt, 0) < ttl && cached.offset == offset {
          return Ok(Some(cached.timestampMs)), false;
        }
      }
      if reply.Ok? && reply.value.Some? {
        cache := cache[key := CachedTimestamp(reply.value.value, offset, storedAt)];
      }
      return reply, true;
    }

    method ClearStaleEntries(now: int)
      modifies this
      ensures cache == Cleaned(old(cache), ttl, now)
    {
      cache := map key | key in cache && Max(now - cache[key].cachedAt, 0) < ttl :: cache[key];
    }
  }

  // ---- interleaved lookups ----

  /** A lookup checks the cache at `Begin`; on a miss its fetch is answered at
      `Finish`, where the timestamp is stored. */
  datatype Event =
    | Begin(id: nat, key: Key, offset: int, now: int)
    | Finish(id: nat, reply: FetchReply, now: int)
    | Clean(now: int)

  datatype State = State(cache: Cache, pending: map<nat, (Key, int)>)

  /** What can be seen of an event: a value served from the cache, a fetch
      sent to the broker, or the reply handed to the caller. */
  datatype Output = Served(timestampMs: int) | FetchSent(key: Key, offset: int) | Replied(reply: FetchReply) | Nothing

  function Next(s: State, ttl: nat, e: Event): State {
    match e
    case Begin(id, key, offset, now) =>
      if Lookup(s.cache, ttl, key, offset, now).Some? then s
      else State(s.cache, s.pending[id := (key, offset)])
    case Finish(id, reply, now) =>
      if id !in s.pending then s
      else State(Store(s.cache, s.pending[id].0, s.pending[id].1, reply, now), s.pending - {id})
    case Clean(now) => State(Cleaned(s.cache, ttl, now), s.pending)
  }

  function Seen(s: State, ttl: nat, e: Event): Output {
    match e
    case Begin(id, key, offset, now) =>
      var hit := Lookup(s.cache, ttl, key, offset, now);
      if hit.Some? then Served(hit.value) else FetchSent(key, offset)
    case Finish(id, reply, _) => if id in s.pending then Replied(reply) else Nothing
    case Clean(_) => Nothing
  }

  function After(ttl: nat, events: seq<Event>): State {
    if events == [] then State(map[], map[])
    else Next(After(ttl, events[..|events| - 1]), ttl, events[|events| - 1])
  }

  /** Everything that lookups return and send, in order. */
  function Outputs(ttl: nat, events: seq<Event>): seq<Output> {
    if events == [] then []
    else
      var front, last := events[..|events| - 1], events[|events| - 1];
      Outputs(ttl, front) + if last.Clean? then [] else [Seen(After(ttl, front), ttl, last)]
  }

  function WithoutCleans(events: seq<Event>): seq<Event> {
    if events == [] then []
    else
      var front, last := events[..|events| - 1], events[|events| - 1];
      WithoutCleans(front) + if last.Clean? then [] else [last]
  }

  ghost predicate InOrder(events: seq<Event>) {
    forall i, j :: 0 <= i <= j < |events| ==> events[i].now <= events[j].now
  }

  // ---- clean-up cannot be observed ----

  /** The caches agree on everything that is still fresh. */
  ghost predicate SameFresh(a: Cache, b: Cache, ttl: nat, now: int) {
    forall key ::
      && ((key in a && Fresh(a[key], now, ttl)) <==> (key in b && Fresh(b[key], now, ttl)))
      && (key in a && Fresh(a[key], now, ttl) ==> a[key] == b[key])
  }

  lemma SameFreshLater(a: Cache, b: Cache, ttl: nat, now: int, later: int)
    requires SameFresh(a, b, ttl, now) && now <= later
    ensures SameFresh(a, b, ttl, later)
  {
    forall key
      ensures (key in a && Fresh(a[key], later, ttl)) <==> (key in b && Fresh(b[key], later, ttl))
      ensures key in a && Fresh(a[key], later, ttl) ==> a[key] == b[key]
    {
      assert key in a && Fresh(a[key], later, ttl) ==> Fresh(a[key], now, ttl);
      assert key in b && Fresh(b[key], later, ttl) ==> Fresh(b[key], now, ttl);
    }
  }

  lemma StepsAgree(a: State, b: State, ttl: nat, e: Event)
    requires a.pending == b.pending && SameFresh(a.cache, b.cache, ttl, e.now)
    ensures Next(a, ttl, e).pending == Next(b, ttl, e).pending
    ensures SameFresh(Next(a, ttl, e).cache, Next(b, ttl, e).cache, ttl, e.now)
    ensures Seen(a, ttl, e) == Seen(b, ttl, e)
  {
  }

  lemma CleanIsInvisible(s: State, ttl: nat, now: int)
    ensures SameFresh(Cleaned(s.cache, ttl, now), s.cache, ttl, now)
  {
  }

  lemma {:induction false} WithoutCleansInOrder(events: seq<Event>)
    requires InOrder(events)
    ensures InOrder(WithoutCleans(events))
    ensures WithoutCleans(events) != [] ==>
      WithoutCleans(events)[|WithoutCleans(events)| - 1].now <= events[|events| - 1].now
  {
    if events != [] {
      WithoutCleansInOrder(events[..|events| - 1]);
    }
  }

  lemma {:induction false} CleaningSimulation(ttl: nat, events: seq<Event>)
    requires InOrder(events)
    ensures var a, b := After(ttl, events), After(ttl, WithoutCleans(events));
      && a.pending == b.pending
      && (events != [] ==> SameFresh(a.cache, b.cache, ttl, events[|events| - 1].now))
      && (events == [] ==> a == b)
    ensures Outputs(ttl, events) == Outputs(ttl, WithoutCleans(events))
  {
    if events != [] {
      var front, last := events[..|events| - 1], events[|events| - 1];
      var a, b := After(ttl, front), After(ttl, WithoutCleans(front));
      CleaningSimulation(ttl, front);
      if front != [] {
        SameFreshLater(a.cache, b.cache, ttl, front[|front| - 1].now, last.now);
      }
      if last.Clean? {
        assert WithoutCleans(events) == WithoutCleans(front);
        CleanIsInvisible(a, ttl, last.now);
      } else {
        StepsAgree(a, b, ttl, last);
        assert WithoutCleans(events)[..|WithoutCleans(front)|] == WithoutCleans(front);
      }
    }
  }

  /** Cleaning at arbitrary points, even between a lookup's check and its
      store, changes neither any value returned nor any fetch sent. */
  lemma CleaningCannotBeObserved(ttl: nat, events: seq<Event>)
    requires InOrder(events)
    ensures Outputs(ttl, events) == Outputs(ttl, WithoutCleans(events))
  {
    CleaningSimulation(ttl, events);
  }

  // ---- every value served was fetched for the same question ----

  /** A fetch that returned a timestamp. */
  datatype Fetch = Fetch(key: Key, offset: int, timestampMs: int, at: int)

  function Fetches(ttl: nat, events: seq<Event>): set<Fetch> {
    if events == [] then {}
    else
      var front, last := events[..|events| - 1], events[|events| - 1];
      var s := After(ttl, front);
      Fetches(ttl, front) +
      if last.Finish? && last.id in s.pending && last.reply.Ok? && last.reply.value.Some?
      then {Fetch(s.pending[last.id].0, s.pending[last.id].1, last.reply.value.value, last.now)}
      else {}
  }

  function FetchOf(key: Key, e: CachedTimestamp): Fetch {
    Fetch(key, e.offset, e.timestampMs, e.cachedAt)
  }

  lemma {:induction false} EntriesWereFetched(ttl: nat, events: seq<Event>, key: Key)
    requires key in After(ttl, events).cache
    ensures FetchOf(key, After(ttl, events).cache[key]) in Fetches(ttl, events)
  {
    if events != [] {
      var front := events[..|events| - 1];
      var before, cache := After(ttl, front).cache, After(ttl, events).cache;
      if key in before && before[key] == cache[key] {
        EntriesWereFetched(ttl, front, key);
      }
    }
  }

  /** Whatever interleaving led here, a value served from the cache is one that
      a fetch for that same group, partition and offset returned less than one
      time-to-live ago. */
  lemma ServedValuesAreRecentFetches(ttl: nat, events: seq<Event>, key: Key, offset: int, now: int)
    requires Lookup(After(ttl, events).cache, ttl, key, offset, now).Some?
    ensures exists at ::
      && Max(now - at, 0) < ttl
      && Fetch(key, offset, Lookup(After(ttl, events).cache, ttl, key, offset, now).value, at) in Fetches(ttl, events)
  {
    EntriesWereFetched(ttl, events, key);
    var e := After(ttl, events).cache[key];
    assert FetchOf(key, e) == Fetch(key, offset, e.timestampMs, e.cachedAt);
  }
}
