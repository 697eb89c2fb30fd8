/** service/cached_url_service.go run one call at a time, against the plain URLService. */
module CachedService {
  import opened Wrappers
  import opened UrlStore
  import opened UrlCache

  datatype ServiceError = InvalidDestination | Store(error: StoreError)

  // ---- The plain service ----

  /** URLService.UpdateURL; `valid` is the verdict of validateURL. */
  function PlainUpdate(t: Table, url: Url, valid: bool): (Table, Result<Url, ServiceError>) {
    if !valid then (t, Err(InvalidDestination))
    else match Update(t, url)
      case (t', Ok(stored)) => (t', Ok(stored))
      case (t', Err(e)) => (t', Err(ServiceError.Store(e)))
  }

  // ---- The cached service ----

  type Entries = map<string, Entry>

  /** CachedURLService.GetOriginalURL. */
  function CachedResolve(t: Table, es: Entries, ttl: int, code: string, now: int, readFails: bool, writeFails: bool)
    : (Entries, Result<Url, StoreError>)
  {
    if !readFails && Lookup(es, code, now).Ok? then (es, Ok(Lookup(es, code, now).value))
    else match FindByShortCode(t, code, now)
      case Err(e) => (es, Err(e))
      case Ok(u) => (if writeFails then es else UrlCache.Store(es, u, ttl, now), Ok(u))
  }

  /** CachedURLService.UpdateURL; `lost` says that the invalidation failed. */
  function CachedUpdate(t: Table, es: Entries, url: Url, valid: bool, lost: bool)
    : (Table, Entries, Result<Url, ServiceError>)
  {
    match PlainUpdate(t, url, valid)
    case (t', Err(e)) => (t', es, Err(e))
    case (t', Ok(u)) => (t', if lost then es else es - {u.shortCode}, Ok(u))
  }

  /** CachedURLService.DeleteURL. */
  function CachedDelete(t: Table, es: Entries, id: int, lost: bool): (Table, Entries, Result<(), StoreError>) {
    match FindByID(t, id)
    case Err(e) => (t, es, Err(e))
    case Ok(u) =>
      match Delete(t, id)
      case (t', Err(e)) => (t', es, Err(e))
      case (t', Ok(_)) => (t', if lost then es else es - {u.shortCode}, Ok(()))
  }

  // ---- Coherence ----

  /** The cached row is the stored one, and it stays resolvable while the entry lives. */
  ghost predicate Mirrors(t: Table, code: string, e: Entry) {
    && e.url.shortCode == code
    && e.url.id in t.rows && t.rows[e.url.id] == e.url
    && e.url.isActive
    && (e.url.expiresAt.Some? ==> e.deadline <= e.url.expiresAt.value)
  }

  ghost predicate Coherent(t: Table, es: Entries, now: int) {
    forall code <- es :: now < es[code].deadline ==> Mirrors(t, code, es[code])
  }

  /** What coherence is for: a hit answers what the database would. */
  lemma HitsAnswerLikeTheStore(t: Table, es: Entries, code: string, now: int)
    requires Consistent(t) && Coherent(t, es, now)
    ensures Lookup(es, code, now).Ok? ==> FindByShortCode(t, code, now) == Ok(Lookup(es, code, now).value)
  {
  }

  lemma ResolveAgrees(t: Table, es: Entries, ttl: int, code: string, now: int, readFails: bool, writeFails: bool)
    requires Consistent(t) && Coherent(t, es, now)
    ensures CachedResolve(t, es, ttl, code, now, readFails, writeFails).1 == FindByShortCode(t, code, now)
    ensures Coherent(t, CachedResolve(t, es, ttl, code, now, readFails, writeFails).0, now)
  {
    HitsAnswerLikeTheStore(t, es, code, now);
    if FindByShortCode(t, code, now).Ok? {
      LookupIsComplete(t, code, now, FindByShortCode(t, code, now).value);
    }
  }

  lemma UpdateAgrees(t: Table, es: Entries, url: Url, valid: bool, lost: bool, now: int)
    requires Consistent(t) && Coherent(t, es, now)
    ensures (CachedUpdate(t, es, url, valid, lost).0, CachedUpdate(t, es, url, valid, lost).2)
        == PlainUpdate(t, url, valid)
    ensures !lost ==> Coherent(CachedUpdate(t, es, url, valid, lost).0, CachedUpdate(t, es, url, valid, lost).1, now)
  {
  }

  lemma DeleteAgrees(t: Table, es: Entries, id: int, lost: bool, now: int)
    requires Consistent(t) && Coherent(t, es, now)
    ensures (CachedDelete(t, es, id, lost).0, CachedDelete(t, es, id, lost).2) == Delete(t, id)
    ensures !lost ==> Coherent(CachedDelete(t, es, id, lost).0, CachedDelete(t, es, id, lost).1, now)
  {
  }

  /** What a resolve does to the cache: nothing on a hit, on a failure or for other codes; else
      the found row is stored until its lifetime is over. */
  lemma ResolveFillsCache(t: Table, es: Entries, ttl: int, code: string, now: int, readFails: bool, writeFails: bool)
    requires Consistent(t)
    ensures var (es', r) := CachedResolve(t, es, ttl, code, now, readFails, writeFails);
            && (r.Ok? && !writeFails && (readFails || Lookup(es, code, now).Err?) ==>
                  && es'.Keys == es.Keys + {code}
                  && es'[code] == UrlCache.Entry(r.value, now + CacheTTL(r.value, ttl, now)))
            && (r.Err? || writeFails || (!readFails && Lookup(es, code, now).Ok?) ==> es' == es)
            && forall c <- es :: c != code ==> c in es' && es'[c] == es[c]
  {
    if FindByShortCode(t, code, now).Ok? {
      LookupIsComplete(t, code, now, FindByShortCode(t, code, now).value);
    }
  }

  /** Invalidations remove the one code's entry and no other. */
  lemma WritesKeepOtherEntries(t: Table, es: Entries, url: Url, id: int, valid: bool, lost: bool)
    requires Consistent(t)
    ensures var (_, es', r) := CachedUpdate(t, es, url, valid, lost);
            es' == if r.Ok? && !lost then es - {t.rows[url.id].shortCode} else es
    ensures var (_, es', r) := CachedDelete(t, es, id, lost);
            es' == if r.Ok? && !lost then es - {t.rows[id].shortCode} else es
  {
  }

  /** After an update whose invalidation succeeds the code leads to the new destination, while
      the row is active and unexpired, and otherwise nowhere; after a delete nowhere. */
  lemma WritesAreResolved(t: Table, es: Entries, ttl: int, url: Url, now: int, readFails: bool, writeFails: bool)
    requires Consistent(t) && Coherent(t, es, now) && url.id in t.rows
    ensures var (t', es', r) := CachedUpdate(t, es, url, true, false);
            var found := CachedResolve(t', es', ttl, t.rows[url.id].shortCode, now, readFails, writeFails).1;
            && r.Ok? && Changes(t.rows[url.id], r.value, url)
            && found == if url.isActive && (url.expiresAt.None? || now < url.expiresAt.value) then Ok(r.value)
                        else Err(NoRows)
    ensures var (t', es', r) := CachedDelete(t, es, url.id, false);
            r.Ok? && CachedResolve(t', es', ttl, t.rows[url.id].shortCode, now, readFails, writeFails).1 == Err(NoRows)
  {
    StatementsKeepConsistency(t, url, now, url.id);
  }

  /** Hits of the cache at this or a later time that the database would answer differently. */
  ghost predicate Misleads(t: Table, es: Entries, code: string, now: int) {
    exists at :: now <= at && Lookup(es, code, at).Ok? && FindByShortCode(t, code, at) != Ok(Lookup(es, code, at).value)
  }

  /** An invalidation that fails is only logged: it shows exactly when an entry for the code
      was live and the update changed the row. */
  lemma LostInvalidationShows(t: Table, es: Entries, url: Url, now: int)
    requires Consistent(t) && Coherent(t, es, now) && url.id in t.rows
    ensures var (t', es', r) := CachedUpdate(t, es, url, true, true);
            r.Ok? && (Misleads(t', es', r.value.shortCode, now)
                      <==> (Lookup(es, r.value.shortCode, now).Ok?
                            && Lookup(es, r.value.shortCode, now).value != r.value))
  {
  }

  /** After a delete whose invalidation fails any live entry for the code shows it. */
  lemma LostInvalidationShowsDeletion(t: Table, es: Entries, id: int, now: int)
    requires Consistent(t) && Coherent(t, es, now) && id in t.rows
    ensures var (t', es', r) := CachedDelete(t, es, id, true);
            r.Ok? && (Misleads(t', es', t.rows[id].shortCode, now) <==> Lookup(es, t.rows[id].shortCode, now).Ok?)
  {
  }

  /** A row inserted behind the cache's back cannot collide with a live entry. */
  lemma CreateKeepsCoherence(t: Table, es: Entries, url: Url, now: int)
    requires Consistent(t) && Coherent(t, es, now)
    ensures Coherent(Insert(t, url, now).0, es, now)
  {
  }

  // ---- The services as objects ----

  class URLService {
    const repo: URLRepository

    constructor (repo: URLRepository)
      ensures this.repo == repo
    {
      this.repo := repo;
    }

    method GetOriginalURL(code: string, now: int) returns (r: Result<Url, StoreError>)
      requires Consistent(repo.table)
      ensures r == FindByShortCode(repo.table, code, now)
    {
      r := repo.FindActiveRow(code, now);
    }

    method UpdateURL(url: Url, valid: bool) returns (r: Result<Url, ServiceError>)
      requires Consistent(repo.table)
      modifies repo
      ensures Consistent(repo.table)
      ensures (repo.table, r) == PlainUpdate(old(repo.table), url, valid)
      ensures r == Err(InvalidDestination) <==> !valid
      ensures r.Ok? <==> valid && url.id in old(repo.table).rows
      ensures r.Ok? ==> Changes(old(repo.table).rows[url.id], r.value, url)
                        && repo.table.rows == old(repo.table).rows[url.id := r.value]
      ensures r.Err? ==> repo.table == old(repo.table)
    {
      if !valid {
        return Err(InvalidDestination);
      }
      var updated := repo.UpdateRow(url);
      match updated
      case Ok(u) => r := Ok(u);
      case Err(e) => r := Err(ServiceError.Store(e));
    }

    method DeleteURL(id: int) returns (r: Result<(), StoreError>)
      requires Consistent(repo.table)
      modifies repo
      ensures Consistent(repo.table)
      ensures (repo.table, r) == Delete(old(repo.table), id)
    {
      r := repo.DeleteRow(id);
    }
  }

  /** `cache` may be nil, as in NewCachedURLService(repository, nil). */
  class CachedURLService {
    const repo: URLRepository
    const cache: RedisCache?

    constructor (repo: URLRepository, cache: RedisCache?)
      ensures this.repo == repo && this.cache == cache
    {
      this.repo := repo;
      this.cache := cache;
    }

    function CacheEntries(): Entries
      reads this, cache
    {
      if cache == null then map[] else cache.entries
    }

    ghost predicate Valid(now: int)
      reads this, repo, cache
    {
      Consistent(repo.table) && Coherent(repo.table, CacheEntries(), now)
    }

    method GetOriginalURL(code: string, now: int, readFails: bool, writeFails: bool)
      returns (r: Result<Url, StoreError>)
      requires Valid(now)
      modifies cache
      ensures Valid(now)
      ensures r == FindByShortCode(repo.table, code, now)
      ensures cache != null ==>
                (cache.entries, r) == CachedResolve(repo.table, old(CacheEntries()), cache.ttl, code, now, readFails,
                    writeFails)
    {
      if cache != null {
        ResolveAgrees(repo.table, cache.entries, cache.ttl, code, now, readFails, writeFails);
        var cached := cache.GetURL(code, now, readFails);
        if cached.Ok? {
          return Ok(cached.value);
        }
      }
      r := repo.FindActiveRow(code, now);
      if r.Ok? && cache != null {
        var stored := cache.SetURL(r.value, now, writeFails);
      }
    }

    method UpdateURL(url: Url, valid: bool, lost: bool, ghost now: int) returns (r: Result<Url, ServiceError>)
      requires Valid(now)
      modifies repo, cache
      ensures (repo.table, r) == PlainUpdate(old(repo.table), url, valid)
      ensures r == Err(InvalidDestination) <==> !valid
      ensures r.Ok? <==> valid && url.id in old(repo.table).rows
      ensures r.Ok? ==> Changes(old(repo.table).rows[url.id], r.value, url)
                        && repo.table.rows == old(repo.table).rows[url.id := r.value]
      ensures cache != null ==> (repo.table, cache.entries, r)
                                == CachedUpdate(old(repo.table), old(CacheEntries()), url, valid, lost)
      ensures !lost ==> Valid(now)
    {
      UpdateAgrees(repo.table, CacheEntries(), url, valid, lost, now);
      var base := new URLService(repo);
      r := base.UpdateURL(url, valid);
      if r.Ok? && cache != null {
        var invalidated := cache.DeleteURL(r.value.shortCode, lost);
      }
    }

    method DeleteURL(id: int, lost: bool, ghost now: int) returns (r: Result<(), StoreError>)
      requires Valid(now)
      modifies repo, cache
      ensures (repo.table, r) == Delete(old(repo.table), id)
      ensures cache != null ==> (repo.table, cache.entries, r)
                                == CachedDelete(old(repo.table), old(CacheEntries()), id, lost)
      ensures !lost ==> Valid(now)
    {
      DeleteAgrees(repo.table, CacheEntries(), id, lost, now);
      var found := repo.FindRowByID(id);
      if found.Err? {
        return Err(found.error);
      }
      r := repo.DeleteRow(id);
      if r.Ok? && cache != null {
        var invalidated := cache.DeleteURL(found.value.shortCode, lost);
      }
    }
  }

  // ---- Any sequence of calls ----

  /** One INSERT attempt is one Create; a collision changes nothing and is reported. */
  datatype Op =
    | Tick(dt: nat)
    | Create(url: Url)
    | Resolve(code: string, readFails: bool, writeFails: bool)
    | Change(update: Url, valid: bool)
    | Remove(id: int)
    | Evict(key: string)

  datatype Answer =
    | Silent
    | Created(row: Result<Url, StoreError>)
    | Resolved(url: Result<Url, StoreError>)
    | Changed(updated: Result<Url, ServiceError>)
    | Removed(outcome: Result<(), StoreError>)

  datatype Plain = Plain(table: Table, now: int)

  datatype Cached = Cached(table: Table, entries: Entries, ttl: int, now: int)

  function PlainStep(w: Plain, op: Op): (Plain, Answer) {
    match op
    case Tick(dt) => (w.(now := w.now + dt), Silent)
    case Create(url) => (w.(table := Insert(w.table, url, w.now).0), Created(Insert(w.table, url, w.now).1))
    case Resolve(code, _, _) => (w, Resolved(FindByShortCode(w.table, code, w.now)))
    case Change(u, valid) => (w.(table := PlainUpdate(w.table, u, valid).0), Changed(PlainUpdate(w.table, u, valid).1))
    case Remove(id) => (w.(table := Delete(w.table, id).0), Removed(Delete(w.table, id).1))
    case Evict(_) => (w, Silent)
  }

  function CachedStep(w: Cached, op: Op): (Cached, Answer) {
    match op
    case Tick(dt) => (w.(now := w.now + dt), Silent)
    case Create(url) => (w.(table := Insert(w.table, url, w.now).0), Created(Insert(w.table, url, w.now).1))
    case Resolve(code, readFails, writeFails) =>
      var (es, r) := CachedResolve(w.table, w.entries, w.ttl, code, w.now, readFails, writeFails);
      (w.(entries := es), Resolved(r))
    case Change(u, valid) =>
      var (t, es, r) := CachedUpdate(w.table, w.entries, u, valid, false);
      (w.(table := t, entries := es), Changed(r))
    case Remove(id) =>
      var (t, es, r) := CachedDelete(w.table, w.entries, id, false);
      (w.(table := t, entries := es), Removed(r))
    case Evict(key) => (w.(entries := w.entries - {key}), Silent)
  }

  function PlainAnswers(w: Plain, ops: seq<Op>): seq<Answer>
    decreases |ops|
  {
    if ops == [] then [] else [PlainStep(w, ops[0]).1] + PlainAnswers(PlainStep(w, ops[0]).0, ops[1..])
  }

  function CachedAnswers(w: Cached, ops: seq<Op>): seq<Answer>
    decreases |ops|
  {
    if ops == [] then [] else [CachedStep(w, ops[0]).1] + CachedAnswers(CachedStep(w, ops[0]).0, ops[1..])
  }

  lemma StepAgrees(w: Cached, op: Op)
    requires Consistent(w.table) && Coherent(w.table, w.entries, w.now)
    ensures CachedStep(w, op).1 == PlainStep(Plain(w.table, w.now), op).1
    ensures Plain(CachedStep(w, op).0.table, CachedStep(w, op).0.now) == PlainStep(Plain(w.table, w.now), op).0
    ensures Consistent(CachedStep(w, op).0.table)
    ensures Coherent(CachedStep(w, op).0.table, CachedStep(w, op).0.entries, CachedStep(w, op).0.now)
  {
    match op
    case Tick(dt) =>
    case Create(url) =>
      StatementsKeepConsistency(w.table, url, w.now, 0);
      CreateKeepsCoherence(w.table, w.entries, url, w.now);
    case Resolve(code, readFails, writeFails) =>
      ResolveAgrees(w.table, w.entries, w.ttl, code, w.now, readFails, writeFails);
    case Change(u, valid) =>
      StatementsKeepConsistency(w.table, u, 0, 0);
      UpdateAgrees(w.table, w.entries, u, valid, false, w.now);
    case Remove(id) =>
      StatementsKeepConsistency(w.table, Url(0, "", None, "", None, 0, None, false), 0, id);
      DeleteAgrees(w.table, w.entries, id, false, w.now);
    case Evict(key) =>
  }

  /** Whatever the calls, evictions, cache failures and passing of time, nobody can tell the
      cached service from the plain one. */
  lemma {:induction false} CachedServiceIsTransparent(w: Cached, ops: seq<Op>)
    requires Consistent(w.table) && Coherent(w.table, w.entries, w.now)
    ensures CachedAnswers(w, ops) == PlainAnswers(Plain(w.table, w.now), ops)
    decreases |ops|
  {
    if ops == [] {
    } else {
      StepAgrees(w, ops[0]);
      CachedServiceIsTransparent(CachedStep(w, ops[0]).0, ops[1..]);
    }
  }

  /** What the plain service answers is what its users mean: a created row is found under its
      code, a change decides where the code leads, a removed code leads nowhere, and an expired
      row stops when its time is over. By transparency the cached service answers the same. */
  lemma AnswersFollowWrites(w: Plain, url: Url, dt: nat)
    requires Consistent(w.table)
    ensures url.shortCode !in w.table.codes && Resolvable(url, w.now) ==>
              exists row: Url ::
                && row == url.(id := row.id, createdAt := w.now)
                && PlainAnswers(w, [Create(url), Resolve(url.shortCode, false, false)])
                   == [Created(Ok(row)), Resolved(Ok(row))]
    ensures url.id in w.table.rows && Resolvable(url, w.now) ==>
              exists row: Url ::
                && Changes(w.table.rows[url.id], row, url)
                && PlainAnswers(w, [Change(url, true), Resolve(w.table.rows[url.id].shortCode, false, false)])
                   == [Changed(Ok(row)), Resolved(Ok(row))]
    ensures url.id in w.table.rows ==>
              PlainAnswers(w, [Remove(url.id), Resolve(w.table.rows[url.id].shortCode, false, false)])
              == [Removed(Ok(())), Resolved(Err(NoRows))]
    ensures url.id in w.table.rows && w.table.rows[url.id].expiresAt == Some(w.now + dt) ==>
              PlainAnswers(w, [Tick(dt), Resolve(w.table.rows[url.id].shortCode, false, false)])
              == [Silent, Resolved(Err(NoRows))]
  {
    StatementsKeepConsistency(w.table, url, w.now, url.id);
    AnswersOfTwo(w, Create(url), Resolve(url.shortCode, false, false));
    if url.id in w.table.rows {
      var find := Resolve(w.table.rows[url.id].shortCode, false, false);
      AnswersOfTwo(w, Change(url, true), find);
      AnswersOfTwo(w, Remove(url.id), find);
      AnswersOfTwo(w, Tick(dt), find);
      var row := Update(w.table, url).1.value;
      assert Changes(w.table.rows[url.id], row, url);
    }
  }

  lemma AnswersOfTwo(w: Plain, first: Op, second: Op)
    ensures PlainAnswers(w, [first, second]) == [PlainStep(w, first).1, PlainStep(PlainStep(w, first).0, second).1]
  {
    var next := PlainStep(w, first).0;
    assert [first, second][1..] == [second] && [second][1..] == [];
    assert PlainAnswers(next, [second]) == [PlainStep(next, second).1] + PlainAnswers(PlainStep(next, second).0, []);
  }
}
