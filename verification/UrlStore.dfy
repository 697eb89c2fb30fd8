/** The urls table of migration/001_init.sql and 006_custom_alias.sql, and the statements
    that repository/url_repository.go runs against it. */
module UrlStore {
  import opened Wrappers

  datatype Url = Url(
    id: int,
    shortCode: string,
    customAlias: Option<string>,
    originalURL: string,
    userID: Option<int>,
    createdAt: int,
    expiresAt: Option<int>,
    isActive: bool)

  datatype StoreError = NoRows | UniqueViolation | Unavailable

  /** `rows` is keyed by the primary key; `codes` is the index behind the UNIQUE constraint
      on short_code; `nextId` is the BIGSERIAL sequence. */
  datatype Table = Table(rows: map<int, Url>, codes: map<string, int>, nextId: int)

  /** The index and the rows describe each other, and every id was handed out. */
  ghost predicate Consistent(t: Table) {
    && (forall id <- t.rows ::
          && t.rows[id].id == id
          && id < t.nextId
          && t.rows[id].shortCode in t.codes
          && t.codes[t.rows[id].shortCode] == id)
    && (forall c <- t.codes :: t.codes[c] in t.rows && t.rows[t.codes[c]].shortCode == c)
  }

  const EMPTY: Table := Table(map[], map[], 1)

  /** INSERT ... RETURNING id, created_at. */
  function Insert(t: Table, u: Url, now: int): (Table, Result<Url, StoreError>) {
    if u.shortCode in t.codes then (t, Err(UniqueViolation))
    else
      var stored := u.(id := t.nextId, createdAt := now);
      (Table(t.rows[t.nextId := stored], t.codes[u.shortCode := t.nextId], t.nextId + 1), Ok(stored))
  }

  /** SELECT ... WHERE id = $1. */
  function FindByID(t: Table, id: int): Result<Url, StoreError> {
    if id in t.rows then Ok(t.rows[id]) else Err(NoRows)
  }

  predicate Resolvable(u: Url, now: int) {
    u.isActive && (u.expiresAt.None? || u.expiresAt.value > now)
  }

  /** SELECT ... WHERE short_code = $1 AND is_active AND (expires_at IS NULL OR expires_at > NOW()). */
  function FindByShortCode(t: Table, code: string, now: int): Result<Url, StoreError> {
    if code in t.codes && t.codes[code] in t.rows && Resolvable(t.rows[t.codes[code]], now)
    then Ok(t.rows[t.codes[code]])
    else Err(NoRows)
  }

  /** Row `id` is the one a redirect for `code` may follow at time `now`. */
  predicate Serves(t: Table, id: int, code: string, now: int) {
    id in t.rows && t.rows[id].shortCode == code && Resolvable(t.rows[id], now)
  }

  /** The lookup through the index finds the serving row exactly when there is one. */
  lemma LookupIsComplete(t: Table, code: string, now: int, u: Url)
    requires Consistent(t)
    ensures FindByShortCode(t, code, now) == Ok(u) <==> Serves(t, u.id, code, now) && t.rows[u.id] == u
    ensures FindByShortCode(t, code, now).Err? <==> forall id :: !Serves(t, id, code, now)
  {
    if FindByShortCode(t, code, now).Ok? {
      assert Serves(t, t.codes[code], code, now);
    }
  }

  /** UPDATE ... SET original_url, expires_at, is_active WHERE id = $4 RETURNING ... */
  function Update(t: Table, u: Url): (Table, Result<Url, StoreError>) {
    if u.id in t.rows then
      var stored := t.rows[u.id].(originalURL := u.originalURL, expiresAt := u.expiresAt, isActive := u.isActive);
      (t.(rows := t.rows[u.id := stored]), Ok(stored))
    else (t, Err(NoRows))
  }

  /** DELETE ... WHERE id = $1; NoRows when nothing was deleted. */
  function Delete(t: Table, id: int): (Table, Result<(), StoreError>) {
    if id in t.rows
    then (Table(t.rows - {id}, t.codes - {t.rows[id].shortCode}, t.nextId), Ok(()))
    else (t, Err(NoRows))
  }

  /** Every statement keeps the index and the rows in step. */
  lemma StatementsKeepConsistency(t: Table, u: Url, now: int, id: int)
    requires Consistent(t)
    ensures Consistent(Insert(t, u, now).0)
    ensures Consistent(Update(t, u).0)
    ensures Consistent(Delete(t, id).0)
  {
  }

  /** Short codes of stored rows are pairwise distinct. */
  lemma CodesAreUnique(t: Table, a: int, b: int)
    requires Consistent(t)
    requires a in t.rows && b in t.rows && t.rows[a].shortCode == t.rows[b].shortCode
    ensures a == b
  {
  }

  /** The columns a request to change a row decides, and those it cannot touch. */
  predicate Changes(before: Url, after: Url, wanted: Url) {
    && after.originalURL == wanted.originalURL
    && after.expiresAt == wanted.expiresAt && after.isActive == wanted.isActive
    && after.id == before.id && after.shortCode == before.shortCode && after.customAlias == before.customAlias
    && after.userID == before.userID && after.createdAt == before.createdAt
  }

  /** What the statements store: INSERT the given columns under a new id with its own time,
      UPDATE three columns of a row that exists; UPDATE and DELETE of a missing row do nothing. */
  lemma StatementsStore(t: Table, u: Url, now: int)
    requires Consistent(t)
    ensures u.shortCode !in t.codes ==>
              && Insert(t, u, now).1.Ok?
              && var row := Insert(t, u, now).1.value;
                 && row.id !in t.rows && Insert(t, u, now).0.rows == t.rows[row.id := row] && row.createdAt == now
                 && row.shortCode == u.shortCode && row.customAlias == u.customAlias && row.userID == u.userID
                 && row.originalURL == u.originalURL && row.expiresAt == u.expiresAt && row.isActive == u.isActive
    ensures u.shortCode in t.codes ==> Insert(t, u, now) == (t, Err(UniqueViolation))
    ensures u.id in t.rows ==>
              && Update(t, u).1.Ok? && Changes(t.rows[u.id], Update(t, u).1.value, u)
              && Update(t, u).0.rows == t.rows[u.id := Update(t, u).1.value]
              && Delete(t, u.id).1.Ok? && Delete(t, u.id).0.rows == t.rows - {u.id}
    ensures u.id !in t.rows ==> Update(t, u) == (t, Err(NoRows)) && Delete(t, u.id) == (t, Err(NoRows))
  {
  }

  /** What FindByID finds after each statement: the written row, nothing once it is deleted, and
      every other row as before. */
  lemma WritesReadBack(t: Table, u: Url, now: int, id: int)
    requires Consistent(t)
    ensures Insert(t, u, now).1.Ok? ==> FindByID(Insert(t, u, now).0, t.nextId) == Insert(t, u, now).1
    ensures id != t.nextId ==> FindByID(Insert(t, u, now).0, id) == FindByID(t, id)
    ensures FindByID(Update(t, u).0, u.id) == Update(t, u).1
    ensures id != u.id ==> FindByID(Update(t, u).0, id) == FindByID(t, id)
    ensures FindByID(Delete(t, u.id).0, u.id) == Err(NoRows)
    ensures id != u.id ==> FindByID(Delete(t, u.id).0, id) == FindByID(t, id)
  {
  }

  /** A row's alias, if it has one, is its short code. */
  ghost predicate AliasesAreCodes(t: Table) {
    forall id <- t.rows :: t.rows[id].customAlias in {None, Some(t.rows[id].shortCode)}
  }

  /** The services insert no other rows, so the second unique index, on custom_alias, never
      refuses a row that the index on short_code would let in. */
  lemma AliasIndexIsRedundant(t: Table, u: Url, now: int, id: int)
    requires Consistent(t) && AliasesAreCodes(t) && u.customAlias in {None, Some(u.shortCode)}
    ensures AliasesAreCodes(Insert(t, u, now).0)
    ensures AliasesAreCodes(Update(t, u).0)
    ensures AliasesAreCodes(Delete(t, id).0)
    ensures (exists k <- t.rows :: t.rows[k].customAlias.Some? && t.rows[k].customAlias == u.customAlias)
            ==> Insert(t, u, now).1 == Err(UniqueViolation)
  {
  }

  /** PostgresURLRepository: the shared table and the methods that run one statement each. */
  class URLRepository {
    var table: Table

    constructor ()
      ensures table == EMPTY && Consistent(table)
    {
      table := EMPTY;
    }

    method Create(url: Url, now: int) returns (r: Result<Url, StoreError>)
      requires Consistent(table)
      modifies this
      ensures Consistent(table)
      ensures (table, r) == Insert(old(table), url, now)
      ensures r.Ok? <==> url.shortCode !in old(table).codes
      ensures r.Ok? ==> r.value == url.(id := r.value.id, createdAt := now) && r.value.id !in old(table).rows
      ensures r.Ok? ==> FindByID(table, r.value.id) == r
                        && (Resolvable(url, now) ==> FindByShortCode(table, url.shortCode, now) == r)
    {
      StatementsKeepConsistency(table, url, now, 0);
      if url.shortCode in table.codes {
        return Err(UniqueViolation);
      }
      var stored := url.(id := table.nextId, createdAt := now);
      table := Table(table.rows[stored.id := stored], table.codes[url.shortCode := stored.id], table.nextId + 1);
      r := Ok(stored);
    }

    method FindRowByID(id: int) returns (r: Result<Url, StoreError>)
      ensures r == FindByID(table, id)
    {
      if id in table.rows {
        r := Ok(table.rows[id]);
      } else {
        r := Err(NoRows);
      }
    }

    method FindActiveRow(code: string, now: int) returns (r: Result<Url, StoreError>)
      requires Consistent(table)
      ensures r == FindByShortCode(table, code, now)
      ensures r.Ok? ==> r.value.id in table.rows && table.rows[r.value.id] == r.value && r.value.shortCode == code
      ensures r.Ok? ==> r.value.isActive && (r.value.expiresAt.None? || now < r.value.expiresAt.value)
      ensures r.Err? ==> forall id <- table.rows :: table.rows[id].shortCode == code ==>
                           !table.rows[id].isActive
                           || (table.rows[id].expiresAt.Some? && table.rows[id].expiresAt.value <= now)
    {
      r := Err(NoRows);
      if code in table.codes {
        var row := table.rows[table.codes[code]];
        if Resolvable(row, now) {
          r := Ok(row);
        }
      }
      LookupIsComplete(table, code, now, Url(0, "", None, "", None, 0, None, false));
      assert r.Err? ==> forall id <- table.rows :: !Serves(table, id, code, now);
    }

    method UpdateRow(url: Url) returns (r: Result<Url, StoreError>)
      requires Consistent(table)
      modifies this
      ensures Consistent(table)
      ensures (table, r) == Update(old(table), url)
      ensures r.Ok? <==> url.id in old(table).rows
      ensures r.Ok? ==> Changes(old(table).rows[url.id], r.value, url) && table.rows[url.id] == r.value
      ensures table.codes == old(table).codes && table.rows.Keys == old(table).rows.Keys
      ensures forall id <- table.rows :: id != url.id ==> table.rows[id] == old(table).rows[id]
    {
      StatementsKeepConsistency(table, url, 0, 0);
      if url.id !in table.rows {
        return Err(NoRows);
      }
      var stored := table.rows[url.id].(originalURL := url.originalURL, expiresAt := url.expiresAt,
          isActive := url.isActive);
      table := table.(rows := table.rows[url.id := stored]);
      r := Ok(stored);
    }

    method DeleteRow(id: int) returns (r: Result<(), StoreError>)
      requires Consistent(table)
      modifies this
      ensures Consistent(table)
      ensures (table, r) == Delete(old(table), id)
      ensures r.Ok? <==> id in old(table).rows
      ensures table.rows == old(table).rows - {id}
    {
      StatementsKeepConsistency(table, Url(0, "", None, "", None, 0, None, false), 0, id);
      if id !in table.rows {
        assert table.rows == table.rows - {id};
        return Err(NoRows);
      }
      table := Table(table.rows - {id}, table.codes - {table.rows[id].shortCode}, table.nextId);
      r := Ok(());
    }
  }
}
