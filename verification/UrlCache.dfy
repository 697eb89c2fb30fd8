/** The Redis cache of cache/redis.go: a key store whose entries live until a deadline. */
module UrlCache {
  import opened Wrappers
  import opened Durations
  import opened UrlStore

  /** An entry is live strictly before its deadline. */
  datatype Entry = Entry(url: Url, deadline: int)

  datatype CacheError = Miss | Unreachable

  const DEFAULT_TTL: int := 1 * HOUR

  /** RedisCache.cacheTTL. */
  function CacheTTL(url: Url, ttl: int, now: int): (d: int)
    ensures ttl >= SECOND ==> 0 < d <= ttl
    ensures url.expiresAt.None? ==> d == ttl
    ensures url.expiresAt.Some? && now < url.expiresAt.value ==> d == ttl || now + d == url.expiresAt.value
    ensures url.expiresAt.Some? && now < url.expiresAt.value ==> now + d <= url.expiresAt.value
    ensures url.expiresAt.Some? && url.expiresAt.value <= now ==> d == SECOND
  {
    if url.expiresAt.None? then ttl
    else
      var remaining := url.expiresAt.value - now;
      if remaining <= 0 then SECOND
      else if remaining < ttl then remaining
      else ttl
  }

  function Lookup(entries: map<string, Entry>, code: string, now: int): Result<Url, CacheError> {
    if code in entries && now < entries[code].deadline then Ok(entries[code].url) else Err(Miss)
  }

  function Store(entries: map<string, Entry>, url: Url, ttl: int, now: int): map<string, Entry> {
    entries[url.shortCode := Entry(url, now + CacheTTL(url, ttl, now))]
  }

  /** What GetURL finds after SetURL and DeleteURL: the row until its lifetime is over, never
      past an expiry that lay ahead, nothing once deleted, and for other codes what it found
      before. */
  lemma WritesReadBack(entries: map<string, Entry>, url: Url, ttl: int, now: int, code: string, at: int)
    ensures Lookup(Store(entries, url, ttl, now), url.shortCode, at) == Ok(url) <==> at < now + CacheTTL(url, ttl, now)
    ensures url.expiresAt.Some? && now < url.expiresAt.value <= at ==>
              Lookup(Store(entries, url, ttl, now), url.shortCode, at) == Err(Miss)
    ensures code != url.shortCode ==>
              && Lookup(Store(entries, url, ttl, now), code, at) == Lookup(entries, code, at)
              && Lookup(entries - {url.shortCode}, code, at) == Lookup(entries, code, at)
    ensures Lookup(entries - {url.shortCode}, url.shortCode, at) == Err(Miss)
  {
  }

  class RedisCache {
    var entries: map<string, Entry>
    const ttl: int

    constructor ()
      ensures entries == map[] && ttl == DEFAULT_TTL
    {
      entries := map[];
      ttl := DEFAULT_TTL;
    }

    method GetURL(code: string, now: int, fails: bool) returns (r: Result<Url, CacheError>)
      ensures r == if fails then Err(Unreachable) else Lookup(entries, code, now)
    {
      if fails {
        return Err(Unreachable);
      }
      if code in entries && now < entries[code].deadline {
        r := Ok(entries[code].url);
      } else {
        r := Err(Miss);
      }
    }

    method SetURL(url: Url, now: int, fails: bool) returns (ok: bool)
      modifies this
      ensures ok == !fails
      ensures entries == if fails then old(entries) else Store(old(entries), url, ttl, now)
      ensures ok ==> forall t :: Lookup(entries, url.shortCode, t)
                       == if t < now + CacheTTL(url, ttl, now) then Ok(url) else Err(Miss)
    {
      ok := !fails;
      if !fails {
        entries := entries[url.shortCode := Entry(url, now + CacheTTL(url, ttl, now))];
      }
    }

    method DeleteURL(code: string, fails: bool) returns (ok: bool)
      modifies this
      ensures ok == !fails
      ensures entries == if fails then old(entries) else old(entries) - {code}
      ensures ok ==> forall t :: Lookup(entries, code, t) == Err(Miss)
    {
      ok := !fails;
      if !fails {
        entries := entries - {code};
      }
    }
  }
}
