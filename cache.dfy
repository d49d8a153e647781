/** The cache-aside reader of calendars and the refresh that reconciles the
    cached snapshot with a fresh fetch. The cache backend is an in-memory map
    from keys to snapshots; whether a backend call goes through is an input. */
module EventCache {
  import opened CalendarTypes
  import opened Aggregation

  /** `default_key_builder`: the namespace, a colon, then a digest of the
      cached function and its arguments. */
  function DefaultKeyBuilder(digest: Request -> string, namespace: string, req: Request): string
  {
    namespace + ":" + digest(req)
  }

  /** The key the cache decorator reads and fills: it passes the configured
      prefix joined with its (empty) namespace to the key builder. */
  function DecoratorKey(prefix: string, digest: Request -> string, req: Request): string
  {
    DefaultKeyBuilder(digest, prefix + ":" + "", req)
  }

  /** The key refresh overwrites: the prefix, a colon, then the key builder
      applied with no namespace to the same function and arguments. */
  function RefreshKey(prefix: string, digest: Request -> string, req: Request): string
  {
    prefix + ":" + DefaultKeyBuilder(digest, "", req)
  }

  /** Refresh writes exactly the entry the cached reader uses. */
  lemma RefreshKeyIsDecoratorKey(prefix: string, digest: Request -> string, req: Request)
    ensures RefreshKey(prefix, digest, req) == DecoratorKey(prefix, digest, req)
  {
    assert prefix + ":" + (":" + digest(req)) == (prefix + ":" + "") + ":" + digest(req);
  }

  /** With an injective digest, distinct requests never share a cache entry. */
  lemma DecoratorKeyInjective(prefix: string, digest: Request -> string, r1: Request, r2: Request)
    requires forall a, b :: digest(a) == digest(b) ==> a == b
    requires DecoratorKey(prefix, digest, r1) == DecoratorKey(prefix, digest, r2)
    ensures r1 == r2
  {
    var n := |prefix| + 2;
    assert DecoratorKey(prefix, digest, r1)[n..] == digest(r1);
    assert DecoratorKey(prefix, digest, r2)[n..] == digest(r2);
  }

  /** The backend contents after an operation, with what it returned. */
  datatype Step<T> = Step(store: map<string, Snapshot>, result: Result<T>)

  /** The cache-aside read of the decorator: a hit returns the stored value;
      a miss, or a backend read that raised, fetches, tries to store the
      snapshot (a write that raised is ignored) and returns it. */
  function CachedRead(store: map<string, Snapshot>, key: string, readUp: bool, fillUp: bool,
                      fetches: Fetches): (s: Step<Snapshot>)
    ensures readUp && key in store ==> s == Step(store, Ok(store[key]))
    ensures !(readUp && key in store) ==> s.result == GetCalendar(fetches)
    ensures s.store == store || (s.result.Ok? && s.store == store[key := s.result.value])
    ensures s.result.Ok? && fillUp ==> key in s.store && s.store[key] == s.result.value
    ensures !fillUp ==> s.store == store
  {
    if readUp && key in store then Step(store, Ok(store[key]))
    else
      var fetched := GetCalendar(fetches);
      if fetched.Ok? && fillUp then Step(store[key := fetched.value], fetched)
      else Step(store, fetched)
  }

  /** Once a read has returned a value and the backend took it, the next read
      of that key returns the same value and changes nothing, whatever the
      sources would now return. */
  lemma CachedReadSettles(store: map<string, Snapshot>, key: string, fetches: Fetches, later: Fetches, laterFill: bool)
    requires CachedRead(store, key, true, true, fetches).result.Ok?
    ensures var first := CachedRead(store, key, true, true, fetches);
            CachedRead(first.store, key, true, laterFill, later) == first
  {
  }

  /** Refresh: read through the cache, fetch fresh data, compare hashes,
      overwrite the entry with the fresh snapshot and return it with the
      change flag. A failed read or fetch propagates; a failed overwrite
      becomes a server error although fresh data was fetched. */
  function RefreshSpec(store: map<string, Snapshot>, readKey: string, writeKey: string,
                       hash: Snapshot -> string, readUp: bool, fillUp: bool,
                       cachedFetches: Fetches, freshFetches: Fetches, writeUp: bool): (s: Step<Refreshed>)
    ensures var first := CachedRead(store, readKey, readUp, fillUp, cachedFetches);
            var latest := GetCalendar(freshFetches);
            && (s.result.Ok? <==> first.result.Ok? && latest.Ok? && writeUp)
            && (s.result.Ok? ==>
                  && s.result.value.calendar == latest.value
                  && s.result.value.changed == (hash(first.result.value) != hash(latest.value))
                  && s.store == first.store[writeKey := latest.value])
            && (s.result.Err? ==> s.store == first.store)
            && (!(first.result.Ok? && latest.Ok?) ==> s.result == Err(UpstreamFailure))
            && (first.result.Ok? && latest.Ok? && !writeUp ==>
                  s.result == Err(CacheRefreshFailure) && StatusCode(s.result.error) == 500)
  {
    var first := CachedRead(store, readKey, readUp, fillUp, cachedFetches);
    match first.result
    case Err(e) => Step(first.store, Err(e))
    case Ok(cached) =>
      match GetCalendar(freshFetches)
      case Err(e) => Step(first.store, Err(e))
      case Ok(latest) =>
        var changed := hash(cached) != hash(latest);
        if writeUp then Step(first.store[writeKey := latest], Ok(Refreshed(latest, changed)))
        else Step(first.store, Err(CacheRefreshFailure))
  }

  /** After a successful refresh, the cached reader for the same request
      returns the fresh snapshot and no longer consults the sources. */
  lemma RefreshThenRead(store: map<string, Snapshot>, prefix: string, digest: Request -> string,
                        req: Request, hash: Snapshot -> string, readUp: bool, fillUp: bool,
                        cachedFetches: Fetches, freshFetches: Fetches, laterFill: bool, later: Fetches)
    requires RefreshSpec(store, DecoratorKey(prefix, digest, req), RefreshKey(prefix, digest, req),
                         hash, readUp, fillUp, cachedFetches, freshFetches, true).result.Ok?
    ensures var s := RefreshSpec(store, DecoratorKey(prefix, digest, req), RefreshKey(prefix, digest, req),
                                 hash, readUp, fillUp, cachedFetches, freshFetches, true);
            CachedRead(s.store, DecoratorKey(prefix, digest, req), true, laterFill, later)
              == Step(s.store, Ok(s.result.value.calendar))
  {
    RefreshKeyIsDecoratorKey(prefix, digest, req);
  }

  /** With a collision-free hash, `changed` says exactly whether the fresh
      snapshot differs from the one read through the cache. */
  lemma ChangeDetection(store: map<string, Snapshot>, readKey: string, writeKey: string,
                        hash: Snapshot -> string, readUp: bool, fillUp: bool,
                        cachedFetches: Fetches, freshFetches: Fetches, writeUp: bool)
    requires forall a, b :: hash(a) == hash(b) ==> a == b
    requires RefreshSpec(store, readKey, writeKey, hash, readUp, fillUp, cachedFetches, freshFetches, writeUp).result.Ok?
    ensures var s := RefreshSpec(store, readKey, writeKey, hash, readUp, fillUp, cachedFetches, freshFetches, writeUp);
            var cached := CachedRead(store, readKey, readUp, fillUp, cachedFetches).result.value;
            s.result.value.changed <==> cached != s.result.value.calendar
  {
  }

  /** The cache backend with its configuration: the key prefix and the
      digest the key builder applies to a request. */
  class CalendarCache {
    const prefix: string
    const digest: Request -> string
    var store: map<string, Snapshot>

    constructor (prefix: string, digest: Request -> string)
      ensures this.prefix == prefix && this.digest == digest && store == map[]
    {
      this.prefix := prefix;
      this.digest := digest;
      store := map[];
    }

    /** `backend.get`: the stored snapshot, or nothing when the key is absent
        or the backend raised. */
    method BackendGet(key: string, up: bool) returns (cached: Option<Snapshot>)
      ensures cached.Some? <==> up && key in store
      ensures cached.Some? ==> cached.value == store[key]
    {
      if up && key in store {
        cached := Some(store[key]);
      } else {
        cached := None;
      }
    }

    /** `backend.set`: overwrites the entry when the backend is reachable and
        reports whether it was. */
    method BackendSet(key: string, value: Snapshot, up: bool) returns (ok: bool)
      modifies this
      ensures ok == up
      ensures store == if up then old(store)[key := value] else old(store)
    {
      ok := up;
      if up {
        store := store[key := value];
      }
    }

    /** `get_cached_calendar` behind its cache decorator. */
    method GetCachedCalendar(req: Request, readUp: bool, fillUp: bool, fetches: Fetches)
      returns (r: Result<Snapshot>)
      modifies this
      ensures Step(store, r) == CachedRead(old(store), DecoratorKey(prefix, digest, req), readUp, fillUp, fetches)
    {
      var key := DecoratorKey(prefix, digest, req);
      var cached := BackendGet(key, readUp);
      if cached.Some? {
        return Ok(cached.value);
      }
      r := GetCalendar(fetches);
      if r.Ok? {
        var _ := BackendSet(key, r.value, fillUp);
      }
    }

    /** `refresh_events`: on success the entry the cached reader uses holds
        the returned snapshot. */
    method RefreshEvents(req: Request, hash: Snapshot -> string, readUp: bool, fillUp: bool,
                         cachedFetches: Fetches, freshFetches: Fetches, writeUp: bool)
      returns (r: Result<Refreshed>)
      modifies this
      ensures Step(store, r) == RefreshSpec(old(store), DecoratorKey(prefix, digest, req),
                                            RefreshKey(prefix, digest, req), hash, readUp, fillUp,
                                            cachedFetches, freshFetches, writeUp)
      ensures r.Ok? ==> DecoratorKey(prefix, digest, req) in store
                        && store[DecoratorKey(prefix, digest, req)] == r.value.calendar
    {
      var cached := GetCachedCalendar(req, readUp, fillUp, cachedFetches);
      if cached.Err? {
        return Err(cached.error);
      }
      var calendar := GetCalendar(freshFetches);
      if calendar.Err? {
        return Err(calendar.error);
      }
      var changed := hash(cached.value) != hash(calendar.value);
      var key := RefreshKey(prefix, digest, req);
      var ok := BackendSet(key, calendar.value, writeUp);
      if !ok {
        return Err(CacheRefreshFailure);
      }
      RefreshKeyIsDecoratorKey(prefix, digest, req);
      r := Ok(Refreshed(calendar.value, changed));
    }
  }
}
