/** The runs of CacheRaces in terms of their own steps: what the history fields say, and the
    calls of the cached service made one at a time as such runs. */
module CacheTraces {
  import opened Wrappers
  import opened Durations
  import opened UrlStore
  import opened UrlCache
  import opened CacheRaces
  import CachedService

  // ---- History ----

  /** The step changes, adds or removes the row of a code. */
  predicate Writes(s: State, a: Action, code: string) {
    match a
    case InsertRow(row) => row.shortCode == code && code !in s.table.codes
    case CommitUpdate(_, url, _) => url.id in s.table.rows && s.table.rows[url.id].shortCode == code
    case CommitDelete(w, _) =>
      && w in s.writers && s.writers[w].Located? && s.writers[w].id in s.table.rows
      && s.table.rows[s.writers[w].id].shortCode == code
    case _ => false
  }

  /** Writes of a code among the first n steps. */
  function WritesBefore(states: seq<State>, actions: seq<Action>, code: string, n: nat): nat
    requires n <= |actions| < |states|
  {
    if n == 0 then 0
    else WritesBefore(states, actions, code, n - 1) + if Writes(states[n - 1], actions[n - 1], code) then 1 else 0
  }

  lemma {:induction false} VersionsCountWrites(states: seq<State>, actions: seq<Action>, code: string, n: nat)
    requires Run(states, actions) && n <= |actions|
    ensures Version(states[n], code) == WritesBefore(states, actions, code, n)
  {
    if n == 0 {
    } else {
      VersionsCountWrites(states, actions, code, n - 1);
      RunKeepsInv(states, actions, n - 1);
      var s, a := states[n - 1], actions[n - 1];
      assert Enabled(s, a) && states[n - 1 + 1] == Do(s, a);
      if a.CommitDelete? {
        assert WriterOk(s, s.writers[a.writer]);
      }
    }
  }

  /** More writes by the end than at the start: one of the steps between them wrote. */
  lemma {:induction false} WriteBetween(states: seq<State>, actions: seq<Action>, code: string, i: nat, n: nat)
    returns (k: nat)
    requires i <= n <= |actions| < |states|
    requires WritesBefore(states, actions, code, i) < WritesBefore(states, actions, code, n)
    ensures i <= k < n && Writes(states[k], actions[k], code)
  {
    k := n - 1;
    if !Writes(states[k], actions[k], code) {
      k := WriteBetween(states, actions, code, i, n - 1);
    }
  }

  lemma {:induction false} WritesBeforeGrows(states: seq<State>, actions: seq<Action>, code: string, i: nat, n: nat)
    requires i <= n <= |actions| < |states|
    ensures WritesBefore(states, actions, code, i) <= WritesBefore(states, actions, code, n)
    decreases n
  {
    if i == n {
    } else {
      WritesBeforeGrows(states, actions, code, i, n - 1);
    }
  }

  /** Step i is the read that a reader in this state comes from. */
  predicate ReadBy(states: seq<State>, actions: seq<Action>, i: nat, r: nat, f: Reader)
    requires |actions| < |states|
  {
    && i < |actions| && actions[i] == Fetch(r, f.url.shortCode)
    && FindByShortCode(states[i].table, f.url.shortCode, states[i].now) == Ok(f.url)
    && f.readAt == states[i].now && f.readVersion == WritesBefore(states, actions, f.url.shortCode, i)
  }

  /** Step k is the evaluation of cacheTTL. */
  predicate PricedBy(states: seq<State>, actions: seq<Action>, k: nat, r: nat, f: Reader)
    requires |actions| < |states|
  {
    k < |actions| && actions[k] == Price(r)
    && (f.Priced? ==> f.pricedAt == states[k].now && f.ttl == CacheTTL(f.url, DEFAULT_TTL, states[k].now))
  }

  lemma ReaderMoves(s: State, a: Action, r: nat)
    requires Enabled(s, a) && r in Do(s, a).readers && !(a.Fetch? && a.reader == r)
    ensures r in s.readers
    ensures var f, f' := s.readers[r], Do(s, a).readers[r];
            f' == f || (a == Price(r) && f.Fetched?
                        && f' == Priced(f.url, f.readVersion, f.readAt, CacheTTL(f.url, DEFAULT_TTL, s.now), s.now))
  {
  }

  /** What the last step made of a reader. */
  lemma ReaderStep(states: seq<State>, actions: seq<Action>, j: nat, r: nat)
    requires Run(states, actions) && 0 < j < |states| && r in states[j].readers
    ensures var s, f' := states[j - 1], states[j].readers[r];
            || (actions[j - 1].Fetch? && f'.Fetched? && ReadBy(states, actions, j - 1, r, f'))
            || (&& r in s.readers
                && var f := s.readers[r];
                   f' == f || (&& actions[j - 1] == Price(r) && PricedBy(states, actions, j - 1, r, f')
                               && f'.url == f.url && f'.readVersion == f.readVersion && f'.readAt == f.readAt))
  {
    var i := j - 1;
    var s, a := states[i], actions[i];
    assert Enabled(s, a) && states[i + 1] == Do(s, a);
    if a.Fetch? && a.reader == r {
      RunKeepsInv(states, actions, i);
      LookupIsComplete(s.table, a.code, s.now, FindByShortCode(s.table, a.code, s.now).value);
      VersionsCountWrites(states, actions, a.code, i);
    } else {
      ReaderMoves(s, a, r);
    }
  }

  lemma {:induction false} ReadersAreTraced(states: seq<State>, actions: seq<Action>, j: nat, r: nat)
    returns (i: nat, k: nat)
    requires Run(states, actions) && j < |states| && r in states[j].readers
    ensures i < j && ReadBy(states, actions, i, r, states[j].readers[r])
    ensures states[j].readers[r].Priced? ==> i < k < j && PricedBy(states, actions, k, r, states[j].readers[r])
  {
    ReaderStep(states, actions, j, r);
    i, k := j - 1, j - 1;
    if !actions[j - 1].Fetch? || !ReadBy(states, actions, j - 1, r, states[j].readers[r]) {
      var earlier;
      i, earlier := ReadersAreTraced(states, actions, j - 1, r);
      if states[j].readers[r] == states[j - 1].readers[r] {
        k := earlier;
      }
    }
  }

  lemma WriterMoves(s: State, a: Action, w: nat)
    requires Inv(s) && Enabled(s, a) && w in Do(s, a).writers && Do(s, a).writers[w].Committed?
    ensures a != Invalidate(w) && a != GiveUp(w)
    ensures w !in s.writers || s.writers[w] != Do(s, a).writers[w] ==>
              var c := Do(s, a).writers[w];
              && (a.CommitUpdate? || a.CommitDelete?) && a.writer == w
              && Writes(s, a, c.code) && c.version == Version(s, c.code) + 1
  {
    if a.CommitDelete? {
      assert WriterOk(s, s.writers[a.writer]);
    }
  }

  /** Step k is the committed write of this writer. */
  predicate WrittenBy(states: seq<State>, actions: seq<Action>, k: nat, w: nat, c: Writer)
    requires |actions| < |states| && c.Committed?
  {
    && k < |actions| && (actions[k].CommitUpdate? || actions[k].CommitDelete?) && actions[k].writer == w
    && Writes(states[k], actions[k], c.code) && c.version == WritesBefore(states, actions, c.code, k + 1)
  }

  /** What the last step made of a committed writer. */
  lemma WriterStep(states: seq<State>, actions: seq<Action>, j: nat, w: nat)
    requires Run(states, actions) && 0 < j < |states| && w in states[j].writers && states[j].writers[w].Committed?
    ensures actions[j - 1] != Invalidate(w) && actions[j - 1] != GiveUp(w)
    ensures || WrittenBy(states, actions, j - 1, w, states[j].writers[w])
            || (w in states[j - 1].writers && states[j - 1].writers[w] == states[j].writers[w])
  {
    var i := j - 1;
    var s, a := states[i], actions[i];
    assert Enabled(s, a) && states[i + 1] == Do(s, a);
    RunKeepsInv(states, actions, i);
    WriterMoves(s, a, w);
    VersionsCountWrites(states, actions, states[j].writers[w].code, i);
  }

  /** A committed writer's write, after which it has neither invalidated nor given up. */
  lemma {:induction false} WritersAreTraced(states: seq<State>, actions: seq<Action>, j: nat, w: nat) returns (k: nat)
    requires Run(states, actions) && j < |states| && w in states[j].writers && states[j].writers[w].Committed?
    ensures k < j && WrittenBy(states, actions, k, w, states[j].writers[w])
    ensures forall n :: k < n < j ==> actions[n] != Invalidate(w) && actions[n] != GiveUp(w)
  {
    WriterStep(states, actions, j, w);
    k := j - 1;
    if !WrittenBy(states, actions, k, w, states[j].writers[w]) {
      k := WritersAreTraced(states, actions, j - 1, w);
    }
  }

  /** Steps i, k and m of one reader, its read, its evaluation of cacheTTL and its SET, made the
      cached entry: they determine row and deadline, and the history fields say when they were
      and how many writes of the code came before them. */
  predicate MadeBy(states: seq<State>, actions: seq<Action>, e: Item, r: nat, i: nat, k: nat, m: nat)
    requires |actions| < |states|
  {
    var code := e.url.shortCode;
    && i < k < m < |actions| && actions[i] == Fetch(r, code) && actions[k] == Price(r) && actions[m] == Put(r)
    && FindByShortCode(states[i].table, code, states[i].now) == Ok(e.url)
    && e.deadline == states[m].now + CacheTTL(e.url, DEFAULT_TTL, states[k].now)
    && e.readAt == states[i].now && e.pricedAt == states[k].now && e.setAt == states[m].now
    && e.readVersion == WritesBefore(states, actions, code, i)
    && e.setVersion == WritesBefore(states, actions, code, m)
  }

  lemma EntryMoves(s: State, a: Action, code: string)
    requires Enabled(s, a) && code in Do(s, a).cache
    ensures var e := Do(s, a).cache[code];
            || (code in s.cache && s.cache[code] == e)
            || (&& a.Put? && s.readers[a.reader].url.shortCode == code
                && var p := s.readers[a.reader];
                   e == Item(p.url, s.now + p.ttl, p.readVersion, Version(s, code), p.readAt, p.pricedAt, s.now))
  {
  }

  lemma {:induction false} EntriesAreTraced(states: seq<State>, actions: seq<Action>, j: nat, code: string)
    returns (r: nat, i: nat, k: nat, m: nat)
    requires Run(states, actions) && j < |states| && code in states[j].cache
    ensures m < j && states[j].cache[code].url.shortCode == code
    ensures MadeBy(states, actions, states[j].cache[code], r, i, k, m)
  {
    var s, a := states[j - 1], actions[j - 1];
    assert Enabled(s, a) && states[j - 1 + 1] == Do(s, a);
    EntryMoves(s, a, code);
    if a.Put? && s.readers[a.reader].url.shortCode == code {
      r, m := a.reader, j - 1;
      i, k := ReadersAreTraced(states, actions, m, r);
      VersionsCountWrites(states, actions, code, m);
    } else {
      r, i, k, m := EntriesAreTraced(states, actions, j - 1, code);
    }
  }

  /** The write at step k has not been followed by its writer's invalidation. */
  predicate NotYetInvalidated(actions: seq<Action>, k: nat, j: nat)
    requires k < j <= |actions|
  {
    && (actions[k].CommitUpdate? || actions[k].CommitDelete?)
    && forall n :: k < n < j ==> actions[n] != Invalidate(actions[k].writer)
  }

  /** Why a cached row can differ from the stored one, in terms of the run alone: if no
      invalidation fails, then after the entry's reader had read the row, the code was
      written, and either the reader's SET came after that write or the write's own
      invalidation is still to come. */
  lemma StaleEntriesHaveACause(states: seq<State>, actions: seq<Action>, j: nat, code: string)
    returns (r: nat, i: nat, k: nat, m: nat, write: nat)
    requires Run(states, actions) && j < |states|
    requires forall n :: 0 <= n < j ==> Healthy(states[n], actions[n])
    requires code in states[j].cache && !Current(states[j].table, states[j].cache[code].url)
    ensures m < j && MadeBy(states, actions, states[j].cache[code], r, i, k, m)
    ensures i < write < j && Writes(states[write], actions[write], code)
    ensures write < m || NotYetInvalidated(actions, write, j)
  {
    var s, e := states[j], states[j].cache[code];
    r, i, k, m := EntriesAreTraced(states, actions, j, code);
    StaleEntriesAreExplained(states, actions, j, code);
    if StoredLate(e) {
      write := WriteBetween(states, actions, code, i, m);
    } else {
      var w :| w in s.writers && Outdates(s.writers[w], code, e.readVersion);
      write := WritersAreTraced(states, actions, j, w);
      if write + 1 <= i {
        WritesBeforeGrows(states, actions, code, write + 1, i);
      }
    }
  }

  // ---- Calls one at a time ----

  /** The cache without its history. */
  function Entries(cache: map<string, Item>): map<string, Entry> {
    map code <- cache :: Entry(cache[code].url, cache[code].deadline)
  }

  /** What a caller of the service can observe of a state. */
  function Observed(s: State): CachedService.Cached {
    CachedService.Cached(s.table, Entries(s.cache), DEFAULT_TTL, s.now)
  }

  predicate Runs(s: State, acts: seq<Action>)
    decreases |acts|
  {
    acts == [] || (Enabled(s, acts[0]) && Runs(Do(s, acts[0]), acts[1..]))
  }

  function After(s: State, acts: seq<Action>): State
    requires Runs(s, acts)
    decreases |acts|
  {
    if acts == [] then s else After(Do(s, acts[0]), acts[1..])
  }

  lemma OneMore(s: State, a: Action, rest: seq<Action>)
    requires Enabled(s, a) && Runs(Do(s, a), rest)
    ensures Runs(s, [a] + rest) && After(s, [a] + rest) == After(Do(s, a), rest)
  {
    assert ([a] + rest)[1..] == rest;
  }

  lemma OneStep(s: State, a: Action)
    requires Enabled(s, a)
    ensures Runs(s, [a]) && After(s, [a]) == Do(s, a)
  {
    OneMore(s, a, []);
    assert [a] + [] == [a];
  }

  lemma TwoSteps(s: State, a: Action, b: Action)
    requires Enabled(s, a) && Enabled(Do(s, a), b)
    ensures Runs(s, [a, b]) && After(s, [a, b]) == Do(Do(s, a), b)
  {
    OneStep(Do(s, a), b);
    OneMore(s, a, [b]);
    assert [a] + [b] == [a, b];
  }

  lemma ThreeSteps(s: State, a: Action, b: Action, c: Action)
    requires Enabled(s, a) && Enabled(Do(s, a), b) && Enabled(Do(Do(s, a), b), c)
    ensures Runs(s, [a, b, c]) && After(s, [a, b, c]) == Do(Do(Do(s, a), b), c)
  {
    TwoSteps(Do(s, a), b, c);
    OneMore(s, a, [b, c]);
    assert [a] + [b, c] == [a, b, c];
  }

  /** Nothing of the call is left under way. */
  predicate Settled(s: State, s': State) {
    s'.readers == s.readers && s'.writers == s.writers
  }

  lemma MissSteps(s: State, code: string, r: nat, last: Action)
    requires Inv(s) && r !in s.readers && FindByShortCode(s.table, code, s.now).Ok? && last in {Drop(r), Put(r)}
    ensures Enabled(s, Fetch(r, code)) && Enabled(Do(s, Fetch(r, code)), Price(r))
    ensures Enabled(Do(Do(s, Fetch(r, code)), Price(r)), last)
    ensures var url, s3 := FindByShortCode(s.table, code, s.now).value, Do(Do(Do(s, Fetch(r, code)), Price(r)), last);
            && Settled(s, s3) && s3.table == s.table && s3.now == s.now
            && (last.Drop? ==> s3.cache == s.cache)
            && (last.Put? ==> Entries(s3.cache) == UrlCache.Store(Entries(s.cache), url, DEFAULT_TTL, s.now))
  {
    var s2 := Do(Do(s, Fetch(r, code)), Price(r));
    assert s2.readers - {r} == s.readers;
    if last.Put? {
      var url, s3 := FindByShortCode(s.table, code, s.now).value, Do(s2, last);
      WithKey(s.cache, s3.cache, url.shortCode, s3.cache[url.shortCode]);
    }
  }

  /** Adding an entry, before or after the history is forgotten. */
  lemma WithKey(cache: map<string, Item>, cache': map<string, Item>, key: string, e: Item)
    requires cache' == cache[key := e]
    ensures Entries(cache') == Entries(cache)[key := Entry(e.url, e.deadline)]
  {
  }

  /** A miss reads the row, evaluates cacheTTL and sets the entry, or loses it when the SET
      fails. */
  lemma MissIsRun(s: State, code: string, r: nat, writeFails: bool)
    requires Inv(s) && r !in s.readers && FindByShortCode(s.table, code, s.now).Ok?
    ensures var acts := [Fetch(r, code), Price(r), if writeFails then Drop(r) else Put(r)];
            && Runs(s, acts) && Settled(s, After(s, acts))
            && After(s, acts).table == s.table && After(s, acts).now == s.now
            && Observed(After(s, acts)).entries
               == if writeFails then Observed(s).entries
                  else UrlCache.Store(Observed(s).entries, FindByShortCode(s.table, code, s.now).value, DEFAULT_TTL,
                                      s.now)
  {
    var last := if writeFails then Drop(r) else Put(r);
    MissSteps(s, code, r, last);
    ThreeSteps(s, Fetch(r, code), Price(r), last);
  }

  /** A GetOriginalURL call: a hit or a failed query does nothing more. */
  lemma ResolveIsRun(s: State, code: string, readFails: bool, writeFails: bool, r: nat) returns (acts: seq<Action>)
    requires Inv(s) && r !in s.readers
    ensures Runs(s, acts) && Settled(s, After(s, acts))
    ensures Observed(After(s, acts))
            == CachedService.CachedStep(Observed(s), CachedService.Resolve(code, readFails, writeFails)).0
  {
    if (!readFails && Lookup(Observed(s).entries, code, s.now).Ok?) || FindByShortCode(s.table, code, s.now).Err? {
      return [];
    }
    MissIsRun(s, code, r, writeFails);
    acts := [Fetch(r, code), Price(r), if writeFails then Drop(r) else Put(r)];
  }

  /** Removing an entry, before or after the history is forgotten. */
  lemma WithoutKey(cache: map<string, Item>, cache': map<string, Item>, key: string)
    requires cache' == cache - {key}
    ensures Entries(cache') == Entries(cache) - {key}
  {
  }

  /** The steps of an update: the statement, and the invalidation or its failure. */
  lemma UpdateSteps(s: State, url: Url, w: nat, last: Action)
    requires w !in s.writers && url.id in s.table.rows && last in {Invalidate(w), GiveUp(w)}
    ensures Enabled(s, CommitUpdate(w, url, true)) && Enabled(Do(s, CommitUpdate(w, url, true)), last)
    ensures var s2 := Do(Do(s, CommitUpdate(w, url, true)), last);
            && Settled(s, s2) && s2.now == s.now && s2.table == Update(s.table, url).0
            && s2.cache == s.cache - if last.GiveUp? then {} else {s.table.rows[url.id].shortCode}
  {
    assert Do(s, CommitUpdate(w, url, true)).writers - {w} == s.writers;
  }

  lemma DeleteSteps(s: State, id: int, w: nat, last: Action)
    requires w !in s.writers && id in s.table.rows && last in {Invalidate(w), GiveUp(w)}
    ensures Enabled(s, Locate(w, id)) && Enabled(Do(s, Locate(w, id)), CommitDelete(w, true))
    ensures Enabled(Do(Do(s, Locate(w, id)), CommitDelete(w, true)), last)
    ensures var s3 := Do(Do(Do(s, Locate(w, id)), CommitDelete(w, true)), last);
            && Settled(s, s3) && s3.now == s.now && s3.table == Delete(s.table, id).0
            && s3.cache == s.cache - if last.GiveUp? then {} else {s.table.rows[id].shortCode}
  {
    assert Do(Do(s, Locate(w, id)), CommitDelete(w, true)).writers - {w} == s.writers;
  }

  /** A write that commits although its caller is told an error changes the row, and nobody is
      left who would invalidate the entry. */
  lemma UnreportedWritesAreNotFollowed(s: State, url: Url, w: nat)
    requires w !in s.writers && url.id in s.table.rows
    ensures Enabled(s, CommitUpdate(w, url, false))
    ensures var s' := Do(s, CommitUpdate(w, url, false));
            Settled(s, s') && s'.cache == s.cache && s'.table == Update(s.table, url).0
    ensures Enabled(s, Locate(w, url.id)) && Enabled(Do(s, Locate(w, url.id)), CommitDelete(w, false))
    ensures var s' := Do(Do(s, Locate(w, url.id)), CommitDelete(w, false));
            Settled(s, s') && s'.cache == s.cache && s'.table == Delete(s.table, url.id).0
  {
    assert s.writers - {w} == s.writers && Do(s, Locate(w, url.id)).writers - {w} == s.writers;
  }

  /** An UpdateURL call: the statement, then the invalidation, lost or not; refused requests do
      nothing. */
  lemma UpdateIsRun(s: State, url: Url, valid: bool, lost: bool, w: nat) returns (acts: seq<Action>)
    requires Inv(s) && w !in s.writers
    ensures Runs(s, acts) && Settled(s, After(s, acts)) && After(s, acts).now == s.now
    ensures var (table, entries, _) := CachedService.CachedUpdate(s.table, Entries(s.cache), url, valid, lost);
            After(s, acts).table == table && Entries(After(s, acts).cache) == entries
  {
    if !valid || url.id !in s.table.rows {
      return [];
    }
    var last := if lost then GiveUp(w) else Invalidate(w);
    UpdateSteps(s, url, w, last);
    TwoSteps(s, CommitUpdate(w, url, true), last);
    acts := [CommitUpdate(w, url, true), last];
    if !lost {
      WithoutKey(s.cache, After(s, acts).cache, s.table.rows[url.id].shortCode);
    }
  }

  /** A DeleteURL call: it looks the row up, deletes it and invalidates its code. */
  lemma DeleteIsRun(s: State, id: int, lost: bool, w: nat) returns (acts: seq<Action>)
    requires Inv(s) && w !in s.writers
    ensures Runs(s, acts) && Settled(s, After(s, acts)) && After(s, acts).now == s.now
    ensures var (table, entries, _) := CachedService.CachedDelete(s.table, Entries(s.cache), id, lost);
            After(s, acts).table == table && Entries(After(s, acts).cache) == entries
  {
    if id !in s.table.rows {
      return [];
    }
    var last := if lost then GiveUp(w) else Invalidate(w);
    DeleteSteps(s, id, w, last);
    ThreeSteps(s, Locate(w, id), CommitDelete(w, true), last);
    acts := [Locate(w, id), CommitDelete(w, true), last];
    if !lost {
      WithoutKey(s.cache, After(s, acts).cache, s.table.rows[id].shortCode);
    }
  }

  /** Every call of the cached service, made while nothing else happens, is a run of the
      interleaved model: it ends with the table, cache and clock that the call leaves. */
  lemma CallsAreRuns(s: State, op: CachedService.Op, r: nat, w: nat) returns (acts: seq<Action>)
    requires Inv(s) && r !in s.readers && w !in s.writers
    ensures Runs(s, acts) && Settled(s, After(s, acts))
    ensures Observed(After(s, acts)) == CachedService.CachedStep(Observed(s), op).0
  {
    match op
    case Tick(dt) => acts := [Tick(dt)]; OneStep(s, Tick(dt));
    case Create(url) => acts := [InsertRow(url)]; OneStep(s, InsertRow(url));
    case Resolve(code, readFails, writeFails) => acts := ResolveIsRun(s, code, readFails, writeFails, r);
    case Change(url, valid) => acts := UpdateIsRun(s, url, valid, false, w);
    case Remove(id) => acts := DeleteIsRun(s, id, false, w);
    case Evict(key) =>
      acts := [Evict(key)];
      OneStep(s, Evict(key));
      WithoutKey(s.cache, Do(s, Evict(key)).cache, key);
  }

  /** The cached service after a sequence of calls. */
  function AfterCalls(w: CachedService.Cached, ops: seq<CachedService.Op>): CachedService.Cached
    decreases |ops|
  {
    if ops == [] then w else AfterCalls(CachedService.CachedStep(w, ops[0]).0, ops[1..])
  }

  lemma {:induction false} RunsKeepInv(s: State, acts: seq<Action>)
    requires Inv(s) && Runs(s, acts)
    ensures Inv(After(s, acts))
    decreases |acts|
  {
    if acts == [] {
    } else {
      InvKept(s, acts[0]);
      RunsKeepInv(Do(s, acts[0]), acts[1..]);
    }
  }

  lemma {:induction false} RunsJoin(s: State, first: seq<Action>, rest: seq<Action>)
    requires Runs(s, first) && Runs(After(s, first), rest)
    ensures Runs(s, first + rest) && After(s, first + rest) == After(After(s, first), rest)
    decreases |first|
  {
    if first == [] {
      assert first + rest == rest;
    } else {
      RunsJoin(Do(s, first[0]), first[1..], rest);
      assert (first + rest)[1..] == first[1..] + rest;
    }
  }

  /** Every sequence of calls is such a run: the service run one call at a time is a case of the
      interleaved one, and what is proved of all runs holds for it too. */
  lemma {:induction false} CallSequencesAreRuns(s: State, ops: seq<CachedService.Op>, r: nat, w: nat)
    returns (acts: seq<Action>)
    requires Inv(s) && r !in s.readers && w !in s.writers
    ensures Runs(s, acts) && Observed(After(s, acts)) == AfterCalls(Observed(s), ops)
    decreases |ops|
  {
    if ops == [] {
      acts := [];
    } else {
      acts := CallsAreRuns(s, ops[0], r, w);
      RunsKeepInv(s, acts);
      var rest := CallSequencesAreRuns(After(s, acts), ops[1..], r, w);
      RunsJoin(s, acts, rest);
      acts := acts + rest;
    }
  }
}
