/** service/cached_url_service.go with any number of readers and writers interleaved.

    One action is one SQL statement, one Redis command or one evaluation of cacheTTL; all of
    them read one clock. `versions[c]` counts the writes committed for short code c, and the
    stamps in readers and items are history: nothing the code does depends on them. */
module CacheRaces {
  import opened Wrappers
  import opened Durations
  import opened UrlStore
  import opened UrlCache

  /** A cached value with the history of the reader that stored it. */
  datatype Item = Item(url: Url, deadline: int, readVersion: nat, setVersion: nat, readAt: int, pricedAt: int,
      setAt: int)

  /** A GetOriginalURL call between its database read and its SET; `ttl` is known once
      cacheTTL has been evaluated. */
  datatype Reader =
    | Fetched(url: Url, readVersion: nat, readAt: int)
    | Priced(url: Url, readVersion: nat, readAt: int, ttl: int, pricedAt: int)

  /** Located: DeleteURL after FindByID. Committed: a writer between its database write, which
      was write number `version` of the code, and its invalidation. */
  datatype Writer = Located(id: int, code: string) | Committed(code: string, version: nat)

  datatype State = State(
    now: int,
    table: Table,
    versions: map<string, nat>,
    cache: map<string, Item>,
    readers: map<nat, Reader>,
    writers: map<nat, Writer>)

  datatype Action =
    | Tick(dt: nat)
    | InsertRow(row: Url)
    | Fetch(reader: nat, code: string)
    | Price(reader: nat)
    | Put(reader: nat)
    | Drop(reader: nat)
    | CommitUpdate(writer: nat, url: Url, reported: bool)
    | Locate(writer: nat, id: int)
    | CommitDelete(writer: nat, reported: bool)
    | Invalidate(writer: nat)
    | GiveUp(writer: nat)
    | Evict(key: string)

  function Version(s: State, code: string): nat {
    if code in s.versions then s.versions[code] else 0
  }

  function Bump(s: State, code: string): map<string, nat> {
    s.versions[code := Version(s, code) + 1]
  }

  predicate Initial(s: State) {
    s.table == EMPTY && s.versions == map[] && s.cache == map[] && s.readers == map[] && s.writers == map[]
  }

  predicate Enabled(s: State, a: Action) {
    match a
    case Tick(_) => true
    case InsertRow(_) => true
    case Fetch(r, code) => r !in s.readers && FindByShortCode(s.table, code, s.now).Ok?
    case Price(r) => r in s.readers && s.readers[r].Fetched?
    case Put(r) => r in s.readers && s.readers[r].Priced?
    case Drop(r) => r in s.readers
    case CommitUpdate(w, url, _) => w !in s.writers && url.id in s.table.rows
    case Locate(w, id) => w !in s.writers && id in s.table.rows
    case CommitDelete(w, _) => w in s.writers && s.writers[w].Located?
    case Invalidate(w) => w in s.writers && s.writers[w].Committed?
    case GiveUp(w) => w in s.writers
    case Evict(_) => true
  }

  /** A write that commits but reports an error leaves nobody to invalidate. */
  function AfterWrite(s: State, w: nat, code: string, reported: bool): map<nat, Writer> {
    if reported then s.writers[w := Committed(code, Version(s, code) + 1)] else s.writers - {w}
  }

  function Do(s: State, a: Action): State
    requires Enabled(s, a)
  {
    match a
    case Tick(dt) => s.(now := s.now + dt)
    case InsertRow(row) =>
      if Insert(s.table, row, s.now).1.Ok?
      then s.(table := Insert(s.table, row, s.now).0, versions := Bump(s, row.shortCode))
      else s
    case Fetch(r, code) =>
      var url := FindByShortCode(s.table, code, s.now).value;
      s.(readers := s.readers[r := Fetched(url, Version(s, url.shortCode), s.now)])
    case Price(r) =>
      var f := s.readers[r];
      s.(readers := s.readers[r := Priced(f.url, f.readVersion, f.readAt, CacheTTL(f.url, DEFAULT_TTL, s.now), s.now)])
    case Put(r) =>
      var p := s.readers[r];
      var item := Item(p.url, s.now + p.ttl, p.readVersion, Version(s, p.url.shortCode), p.readAt, p.pricedAt, s.now);
      s.(cache := s.cache[p.url.shortCode := item], readers := s.readers - {r})
    case Drop(r) => s.(readers := s.readers - {r})
    case CommitUpdate(w, url, reported) =>
      var code := s.table.rows[url.id].shortCode;
      s.(table := Update(s.table, url).0, versions := Bump(s, code), writers := AfterWrite(s, w, code, reported))
    case Locate(w, id) => s.(writers := s.writers[w := Located(id, s.table.rows[id].shortCode)])
    case CommitDelete(w, reported) =>
      var id, code := s.writers[w].id, s.writers[w].code;
      if id in s.table.rows
      then s.(table := Delete(s.table, id).0, versions := Bump(s, code), writers := AfterWrite(s, w, code, reported))
      else s.(writers := s.writers - {w})
    case Invalidate(w) => s.(cache := s.cache - {s.writers[w].code}, writers := s.writers - {w})
    case GiveUp(w) => s.(writers := s.writers - {w})
    case Evict(key) => s.(cache := s.cache - {key})
  }

  /** Committed writes report success and their invalidations succeed. */
  predicate Healthy(s: State, a: Action) {
    && (a.CommitUpdate? || a.CommitDelete? ==> a.reported)
    && (a.GiveUp? && a.writer in s.writers ==> s.writers[a.writer].Located?)
  }

  // ---- Invariants ----

  /** The row is stored exactly like this now. */
  predicate Current(t: Table, u: Url) {
    u.id in t.rows && t.rows[u.id] == u
  }

  predicate ReaderOk(s: State, f: Reader) {
    && f.readVersion <= Version(s, f.url.shortCode)
    && (f.readVersion == Version(s, f.url.shortCode) ==> Current(s.table, f.url))
    && f.readAt <= s.now
    && (f.Priced? ==> f.readAt <= f.pricedAt <= s.now && f.ttl == CacheTTL(f.url, DEFAULT_TTL, f.pricedAt))
  }

  predicate ItemOk(s: State, code: string, e: Item) {
    && e.url.shortCode == code
    && e.readVersion <= e.setVersion <= Version(s, code)
    && (e.readVersion == Version(s, code) ==> Current(s.table, e.url))
    && e.readAt <= e.pricedAt <= e.setAt <= s.now
    && e.deadline == e.setAt + CacheTTL(e.url, DEFAULT_TTL, e.pricedAt)
  }

  predicate WriterOk(s: State, w: Writer) {
    match w
    case Located(id, code) => id < s.table.nextId && (id in s.table.rows ==> s.table.rows[id].shortCode == code)
    case Committed(code, version) => version <= Version(s, code)
  }

  ghost predicate Inv(s: State) {
    && Consistent(s.table)
    && (forall r <- s.readers :: ReaderOk(s, s.readers[r]))
    && (forall code <- s.cache :: ItemOk(s, code, s.cache[code]))
    && (forall w <- s.writers :: WriterOk(s, s.writers[w]))
  }

  /** Some writer has committed a write that the entry's reader did not see, and has not yet
      invalidated it. */
  ghost predicate WriterPending(s: State, code: string, seen: nat) {
    exists w :: w in s.writers && Outdates(s.writers[w], code, seen)
  }

  predicate Outdates(w: Writer, code: string, seen: nat) {
    w.Committed? && w.code == code && seen < w.version
  }

  /** Some write for the code has committed since the entry's row was read. */
  predicate Outdated(s: State, code: string)
    requires code in s.cache
  {
    s.cache[code].readVersion < Version(s, code)
  }

  /** A write for the code committed between the reader's database read and its SET. */
  predicate StoredLate(e: Item) {
    e.readVersion < e.setVersion
  }

  ghost predicate StaleOnlyIfExcused(s: State) {
    forall code <- s.cache :: Outdated(s, code) ==>
      WriterPending(s, code, s.cache[code].readVersion) || StoredLate(s.cache[code])
  }

  lemma TableKept(s: State, a: Action)
    requires Inv(s) && Enabled(s, a)
    ensures Consistent(Do(s, a).table) && s.table.nextId <= Do(s, a).table.nextId
    ensures s.now <= Do(s, a).now
  {
    match a
    case InsertRow(row) => StatementsKeepConsistency(s.table, row, s.now, 0);
    case CommitUpdate(w, url, _) => StatementsKeepConsistency(s.table, url, s.now, 0);
    case CommitDelete(w, _) =>
      StatementsKeepConsistency(s.table, Url(0, "", None, "", None, 0, None, false), s.now, s.writers[w].id);
    case _ =>
  }

  lemma VersionsGrow(s: State, a: Action, code: string)
    requires Enabled(s, a)
    ensures Version(s, code) <= Version(Do(s, a), code)
  {
  }

  /** An unchanged version means an unchanged row. */
  lemma RowKept(s: State, a: Action, u: Url)
    requires Consistent(s.table) && Enabled(s, a) && (a.CommitDelete? ==> WriterOk(s, s.writers[a.writer]))
    requires Version(s, u.shortCode) == Version(Do(s, a), u.shortCode) && Current(s.table, u)
    ensures Current(Do(s, a).table, u)
  {
  }

  lemma ReaderKept(s: State, a: Action, r: nat)
    requires Inv(s) && Enabled(s, a) && r in Do(s, a).readers
    ensures ReaderOk(Do(s, a), Do(s, a).readers[r])
  {
    if r in s.readers {
      var u := s.readers[r].url;
      assert ReaderOk(s, s.readers[r]) && (a.CommitDelete? ==> WriterOk(s, s.writers[a.writer]));
      VersionsGrow(s, a, u.shortCode);
      if Version(s, u.shortCode) == Version(Do(s, a), u.shortCode) && Current(s.table, u) {
        RowKept(s, a, u);
      }
    } else {
      LookupIsComplete(s.table, a.code, s.now, FindByShortCode(s.table, a.code, s.now).value);
    }
  }

  lemma ItemKept(s: State, a: Action, code: string)
    requires Inv(s) && Enabled(s, a) && code in Do(s, a).cache
    ensures ItemOk(Do(s, a), code, Do(s, a).cache[code])
  {
    if a.Put? && code == s.readers[a.reader].url.shortCode {
      assert ReaderOk(s, s.readers[a.reader]);
    } else {
      assert ItemOk(s, code, s.cache[code]) && (a.CommitDelete? ==> WriterOk(s, s.writers[a.writer]));
      VersionsGrow(s, a, code);
      if Version(s, code) == Version(Do(s, a), code) && Current(s.table, s.cache[code].url) {
        RowKept(s, a, s.cache[code].url);
      }
    }
  }

  /** What a writer that does not move itself knows stays true. */
  lemma WaitingWriterOk(s: State, a: Action, w: Writer)
    requires Consistent(s.table) && Enabled(s, a) && WriterOk(s, w)
    ensures WriterOk(Do(s, a), w)
  {
    VersionsGrow(s, a, w.code);
  }

  lemma MovingWriterOk(s: State, a: Action, w: nat)
    requires Consistent(s.table) && Enabled(s, a) && w in Do(s, a).writers
    requires w !in s.writers || Do(s, a).writers[w] != s.writers[w]
    ensures WriterOk(Do(s, a), Do(s, a).writers[w])
  {
  }

  lemma WriterKept(s: State, a: Action, w: nat)
    requires Inv(s) && Enabled(s, a) && w in Do(s, a).writers
    ensures WriterOk(Do(s, a), Do(s, a).writers[w])
  {
    if w in s.writers && Do(s, a).writers[w] == s.writers[w] {
      WaitingWriterOk(s, a, s.writers[w]);
    } else {
      MovingWriterOk(s, a, w);
    }
  }

  lemma InvKept(s: State, a: Action)
    requires Inv(s) && Enabled(s, a)
    ensures Inv(Do(s, a))
  {
    TableKept(s, a);
    forall r <- Do(s, a).readers { ReaderKept(s, a, r); }
    forall code <- Do(s, a).cache { ItemKept(s, a, code); }
    forall w <- Do(s, a).writers { WriterKept(s, a, w); }
  }

  lemma PendingKept(s: State, a: Action, code: string, seen: nat)
    requires Enabled(s, a) && Healthy(s, a) && WriterPending(s, code, seen) && code in Do(s, a).cache
    ensures WriterPending(Do(s, a), code, seen)
  {
    var w :| w in s.writers && Outdates(s.writers[w], code, seen);
    assert w in Do(s, a).writers && Do(s, a).writers[w] == s.writers[w];
  }

  lemma ExcuseKept(s: State, a: Action, code: string)
    requires Inv(s) && StaleOnlyIfExcused(s) && Enabled(s, a) && Healthy(s, a)
    requires code in Do(s, a).cache && Outdated(Do(s, a), code)
    ensures WriterPending(Do(s, a), code, Do(s, a).cache[code].readVersion) || StoredLate(Do(s, a).cache[code])
  {
    if code in s.cache && Do(s, a).cache[code] == s.cache[code] {
      assert ItemOk(s, code, s.cache[code]);
      if Outdated(s, code) {
        if WriterPending(s, code, s.cache[code].readVersion) {
          PendingKept(s, a, code, s.cache[code].readVersion);
        }
      } else {
        JustOutdated(s, a, code);
      }
    }
  }

  /** The write that outdates an entry comes from a writer that will invalidate it: not from an
      INSERT, because the row is current and its code taken. */
  lemma JustOutdated(s: State, a: Action, code: string)
    requires Consistent(s.table) && Enabled(s, a) && Healthy(s, a) && code in s.cache && ItemOk(s, code, s.cache[code])
    requires code in Do(s, a).cache && Do(s, a).cache[code] == s.cache[code] && Outdated(Do(s, a), code)
        && !Outdated(s, code)
    ensures WriterPending(Do(s, a), code, s.cache[code].readVersion)
  {
    assert s.cache[code].url.shortCode in s.table.codes;
    assert a.CommitUpdate? || a.CommitDelete?;
    assert a.writer in Do(s, a).writers && Outdates(Do(s, a).writers[a.writer], code, s.cache[code].readVersion);
  }

  lemma ExcusesKept(s: State, a: Action)
    requires Inv(s) && StaleOnlyIfExcused(s) && Enabled(s, a) && Healthy(s, a)
    ensures StaleOnlyIfExcused(Do(s, a))
  {
    forall code <- Do(s, a).cache | Outdated(Do(s, a), code) {
      ExcuseKept(s, a, code);
    }
  }

  // ---- Runs ----

  /** states[i + 1] results from actions[i] in states[i]. */
  ghost predicate Run(states: seq<State>, actions: seq<Action>) {
    && |states| == |actions| + 1
    && Initial(states[0])
    && forall i :: 0 <= i < |actions| ==> Enabled(states[i], actions[i]) && states[i + 1] == Do(states[i], actions[i])
  }

  lemma {:induction false} RunKeepsInv(states: seq<State>, actions: seq<Action>, j: nat)
    requires Run(states, actions) && j < |states|
    ensures Inv(states[j])
  {
    if j == 0 {
    } else {
      RunKeepsInv(states, actions, j - 1);
      InvKept(states[j - 1], actions[j - 1]);
    }
  }

  lemma {:induction false} HealthyRunKeepsExcuses(states: seq<State>, actions: seq<Action>, j: nat)
    requires Run(states, actions) && j < |states|
    requires forall i :: 0 <= i < j ==> Healthy(states[i], actions[i])
    ensures StaleOnlyIfExcused(states[j])
  {
    if j == 0 {
    } else {
      HealthyRunKeepsExcuses(states, actions, j - 1);
      RunKeepsInv(states, actions, j - 1);
      ExcusesKept(states[j - 1], actions[j - 1]);
    }
  }

  /** If committed writes report success and invalidations succeed, an entry is outdated
      exactly when some write that its reader did not see committed before the reader's SET, or
      belongs to a writer that has yet to invalidate. An entry that is not outdated is the
      stored row. */
  lemma StaleEntriesAreExplained(states: seq<State>, actions: seq<Action>, j: nat, code: string)
    requires Run(states, actions) && j < |states|
    requires forall i :: 0 <= i < j ==> Healthy(states[i], actions[i])
    requires code in states[j].cache
    ensures var s, e := states[j], states[j].cache[code];
            && (Outdated(s, code) <==> StoredLate(e) || WriterPending(s, code, e.readVersion))
            && (!Outdated(s, code) ==> Current(s.table, e.url))
  {
    var s, e := states[j], states[j].cache[code];
    RunKeepsInv(states, actions, j);
    HealthyRunKeepsExcuses(states, actions, j);
    assert ItemOk(s, code, e);
    if w :| w in s.writers && Outdates(s.writers[w], code, e.readVersion) {
      assert WriterOk(s, s.writers[w]);
    }
  }

  /** Somewhere up to step j, at time `at`, the database would have resolved the row. */
  ghost predicate WasResolvable(states: seq<State>, j: nat, url: Url, at: int)
    requires j < |states|
  {
    exists i :: 0 <= i <= j && states[i].now == at && FindByShortCode(states[i].table, url.shortCode, at) == Ok(url)
  }

  ghost predicate AllSourced(states: seq<State>, j: nat)
    requires j < |states|
  {
    && (forall r <- states[j].readers ::
          WasResolvable(states, j, states[j].readers[r].url, states[j].readers[r].readAt))
    && (forall code <- states[j].cache ::
          WasResolvable(states, j, states[j].cache[code].url, states[j].cache[code].readAt))
  }

  lemma StillWasResolvable(states: seq<State>, j: nat, url: Url, at: int)
    requires 0 < j < |states| && WasResolvable(states, j - 1, url, at)
    ensures WasResolvable(states, j, url, at)
  {
  }

  /** Where the readers and items of the next state come from. */
  lemma ReaderOrigin(s: State, a: Action, r: nat)
    requires Inv(s) && Enabled(s, a) && r in Do(s, a).readers
    ensures var f := Do(s, a).readers[r];
            || (r in s.readers && s.readers[r].url == f.url && s.readers[r].readAt == f.readAt)
            || (f.readAt == s.now && FindByShortCode(s.table, f.url.shortCode, s.now) == Ok(f.url))
  {
    if r !in s.readers {
      LookupIsComplete(s.table, a.code, s.now, FindByShortCode(s.table, a.code, s.now).value);
    }
  }

  lemma ItemOrigin(s: State, a: Action, code: string)
    requires Enabled(s, a) && code in Do(s, a).cache
    ensures var e := Do(s, a).cache[code];
            || (code in s.cache && s.cache[code] == e)
            || (a.Put? && s.readers[a.reader].url == e.url && s.readers[a.reader].readAt == e.readAt)
  {
  }

  lemma JustResolvable(states: seq<State>, j: nat, url: Url)
    requires 0 < j < |states| && FindByShortCode(states[j - 1].table, url.shortCode, states[j - 1].now) == Ok(url)
    ensures WasResolvable(states, j, url, states[j - 1].now)
  {
  }

  /** A step takes what a reader holds from the reader before or from the database. */
  lemma ReaderSourceKept(states: seq<State>, actions: seq<Action>, j: nat, r: nat)
    requires Run(states, actions) && 0 < j < |states| && AllSourced(states, j - 1) && r in states[j].readers
    ensures WasResolvable(states, j, states[j].readers[r].url, states[j].readers[r].readAt)
  {
    var i := j - 1;
    var s, a, f := states[i], actions[i], states[j].readers[r];
    assert Enabled(s, a) && states[i + 1] == Do(s, a);
    RunKeepsInv(states, actions, i);
    ReaderOrigin(s, a, r);
    if r in s.readers && s.readers[r].url == f.url && s.readers[r].readAt == f.readAt {
      assert WasResolvable(states, i, s.readers[r].url, s.readers[r].readAt);
      StillWasResolvable(states, j, f.url, f.readAt);
    } else {
      JustResolvable(states, j, f.url);
    }
  }

  lemma ItemSourceKept(states: seq<State>, actions: seq<Action>, j: nat, code: string)
    requires Run(states, actions) && 0 < j < |states| && AllSourced(states, j - 1) && code in states[j].cache
    ensures WasResolvable(states, j, states[j].cache[code].url, states[j].cache[code].readAt)
  {
    var s, a := states[j - 1], actions[j - 1];
    ItemOrigin(s, a, code);
    if code in s.cache && s.cache[code] == states[j].cache[code] {
      StillWasResolvable(states, j, s.cache[code].url, s.cache[code].readAt);
    } else {
      StillWasResolvable(states, j, s.readers[a.reader].url, s.readers[a.reader].readAt);
    }
  }

  lemma {:induction false} EverythingIsSourced(states: seq<State>, actions: seq<Action>, j: nat)
    requires Run(states, actions) && j < |states|
    ensures AllSourced(states, j)
  {
    if j == 0 {
    } else {
      EverythingIsSourced(states, actions, j - 1);
      forall r <- states[j].readers { ReaderSourceKept(states, actions, j, r); }
      forall code <- states[j].cache { ItemSourceKept(states, actions, j, code); }
    }
  }

  /** In every run, with every kind of failure: a hit answers with a row that the database
      resolved at some instant less than one hour, plus that reader's delay between read and
      SET, before the hit. */
  lemma HitsAreRecent(states: seq<State>, actions: seq<Action>, j: nat, code: string)
    requires Run(states, actions) && j < |states|
    requires code in states[j].cache && states[j].now < states[j].cache[code].deadline
    ensures var e := states[j].cache[code];
            && e.url.shortCode == code
            && WasResolvable(states, j, e.url, e.readAt)
            && 0 <= states[j].now - e.readAt < HOUR + (e.setAt - e.readAt)
  {
    EverythingIsSourced(states, actions, j);
    RunKeepsInv(states, actions, j);
    assert ItemOk(states[j], code, states[j].cache[code]);
  }

  /** An entry lives beyond its row's expiry x exactly when its lifetime was evaluated at or
      after x, or when the SET came later than the evaluation and x lies within an hour of it. */
  lemma EntryOutlivesRowIff(states: seq<State>, actions: seq<Action>, j: nat, code: string)
    requires Run(states, actions) && j < |states|
    requires code in states[j].cache && states[j].cache[code].url.expiresAt.Some?
    ensures var e, x := states[j].cache[code], states[j].cache[code].url.expiresAt.value;
            e.deadline > x <==> x <= e.pricedAt || (e.pricedAt < e.setAt && x < e.setAt + HOUR)
  {
    RunKeepsInv(states, actions, j);
    assert ItemOk(states[j], code, states[j].cache[code]);
  }

  /** A hit at or after the row's own expiry happens only within the time its SET travelled
      after cacheTTL was evaluated, or within one second of a SET priced after expiry. When
      evaluation and SET coincide only the second case remains. */
  lemma LateHitsAreBrief(states: seq<State>, actions: seq<Action>, j: nat, code: string)
    requires Run(states, actions) && j < |states|
    requires code in states[j].cache && states[j].now < states[j].cache[code].deadline
    requires states[j].cache[code].url.expiresAt.Some? && states[j].cache[code].url.expiresAt.value <= states[j].now
    ensures var e := states[j].cache[code];
            var expiry := e.url.expiresAt.value;
            if e.pricedAt < expiry
            then states[j].now < expiry + (e.setAt - e.pricedAt)
            else expiry <= e.setAt <= states[j].now < e.setAt + SECOND
  {
    RunKeepsInv(states, actions, j);
    assert ItemOk(states[j], code, states[j].cache[code]);
  }

  // A run in which a reader's SET lands after the writer has invalidated.

  const ON: Url := Url(1, "abc", None, "http://a", None, 0, None, true)

  const OFF: Url := ON.(isActive := false)

  const S0: State := State(0, EMPTY, map[], map[], map[], map[])

  const S1: State := State(0, Table(map[1 := ON], map["abc" := 1], 2), map["abc" := 1], map[], map[], map[])

  const S2: State := S1.(readers := map[0 := Fetched(ON, 1, 0)])

  const S3: State := S2.(table := Table(map[1 := OFF], map["abc" := 1], 2), versions := map["abc" := 2],
                         writers := map[0 := Committed("abc", 2)])

  const S4: State := S3.(writers := map[])

  const S5: State := S4.(readers := map[0 := Priced(ON, 1, 0, DEFAULT_TTL, 0)])

  const S6: State := S5.(readers := map[], cache := map["abc" := Item(ON, DEFAULT_TTL, 1, 2, 0, 0, 0)])

  predicate Moves(s: State, a: Action, s': State) {
    Enabled(s, a) && Healthy(s, a) && s' == Do(s, a)
  }

  lemma RaceBegins()
    ensures Moves(S0, InsertRow(ON), S1)
    ensures Moves(S1, Fetch(0, "abc"), S2)
  {
  }

  lemma RaceUpdate()
    ensures Moves(S2, CommitUpdate(0, OFF, true), S3)
    ensures Moves(S3, Invalidate(0), S4)
  {
  }

  lemma RaceEnds()
    ensures Moves(S4, Price(0), S5)
    ensures Moves(S5, Put(0), S6)
  {
  }

  /** The excuse of the late SET is needed: without any failure a cached row can disagree with
      the stored one although every writer has invalidated. */
  lemma InvalidationCanLoseTheRace() returns (states: seq<State>, actions: seq<Action>)
    ensures Run(states, actions)
    ensures forall i :: 0 <= i < |actions| ==> Healthy(states[i], actions[i])
    ensures var s := states[|actions|];
            && s.readers == map[] && s.writers == map[]
            && "abc" in s.cache && s.now < s.cache["abc"].deadline
            && !Current(s.table, s.cache["abc"].url)
  {
    RaceBegins();
    RaceUpdate();
    RaceEnds();
    actions := [InsertRow(ON), Fetch(0, "abc"), CommitUpdate(0, OFF, true), Invalidate(0), Price(0), Put(0)];
    states := [S0, S1, S2, S3, S4, S5, S6];
    forall i | 0 <= i < |actions| ensures Moves(states[i], actions[i], states[i + 1]) {
    }
  }

  // Two runs after which an entry is live at the instant its row expires: the lifetime is
  // evaluated then, or before a SET that arrives then.

  const EXPIRY: int := 10 * SECOND

  const BRIEF: Url := ON.(expiresAt := Some(EXPIRY))

  const T1: State := State(0, Table(map[1 := BRIEF], map["abc" := 1], 2), map["abc" := 1], map[], map[], map[])

  const T2: State := T1.(readers := map[0 := Fetched(BRIEF, 1, 0)])

  const A3: State := T2.(now := EXPIRY)

  const A4: State := A3.(readers := map[0 := Priced(BRIEF, 1, 0, SECOND, EXPIRY)])

  const A5: State := A4.(readers := map[], cache := map["abc" := Item(BRIEF, EXPIRY + SECOND, 1, 1, 0, EXPIRY, EXPIRY)])

  const B3: State := T2.(readers := map[0 := Priced(BRIEF, 1, 0, EXPIRY, 0)])

  const B4: State := B3.(now := EXPIRY)

  const B5: State := B4.(readers := map[], cache := map["abc" := Item(BRIEF, 2 * EXPIRY, 1, 1, 0, 0, EXPIRY)])

  lemma BriefRowIsRead()
    ensures Moves(S0, InsertRow(BRIEF), T1)
    ensures Moves(T1, Fetch(0, "abc"), T2)
  {
  }

  lemma PricedLate()
    ensures Moves(T2, Tick(EXPIRY), A3) && Moves(A3, Price(0), A4) && Moves(A4, Put(0), A5)
  {
  }

  lemma SetLate()
    ensures Moves(T2, Price(0), B3) && Moves(B3, Tick(EXPIRY), B4) && Moves(B4, Put(0), B5)
  {
  }

  /** Without any failure a live entry can answer for a row that the database no longer
      resolves, whether its lifetime was evaluated before the row expired or not. */
  lemma EntriesOutliveRows(pricedInTime: bool) returns (states: seq<State>, actions: seq<Action>)
    ensures Run(states, actions)
    ensures forall i :: 0 <= i < |actions| ==> Healthy(states[i], actions[i])
    ensures var s := states[|actions|];
            && "abc" in s.cache && s.now < s.cache["abc"].deadline
            && FindByShortCode(s.table, "abc", s.now) == Err(NoRows)
            && s.cache["abc"].url.expiresAt.Some?
            && (pricedInTime <==> s.cache["abc"].pricedAt < s.cache["abc"].url.expiresAt.value)
  {
    BriefRowIsRead();
    if pricedInTime {
      SetLate();
      actions := [InsertRow(BRIEF), Fetch(0, "abc"), Price(0), Tick(EXPIRY), Put(0)];
      states := [S0, T1, T2, B3, B4, B5];
    } else {
      PricedLate();
      actions := [InsertRow(BRIEF), Fetch(0, "abc"), Tick(EXPIRY), Price(0), Put(0)];
      states := [S0, T1, T2, A3, A4, A5];
    }
    forall i | 0 <= i < |actions| ensures Moves(states[i], actions[i], states[i + 1]) {
    }
  }
}
