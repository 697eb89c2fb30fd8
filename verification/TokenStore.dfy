/** The refresh_tokens table (migration/002_auth.sql), repository/refresh_token_repository.go,
    and the calls of auth/auth_service.go that use it, run one at a time. */
module TokenStore {
  import opened Wrappers
  import opened Durations
  import opened Faults
  import opened Strings

  datatype Token = Token(userID: int, hash: string, expiresAt: int, revokedAt: Option<int>)

  /** `hashes` is the index behind UNIQUE (token_hash); `nextId` the sequence, which a
      rolled-back insert also consumes. */
  datatype Table = Table(rows: map<int, Token>, hashes: map<string, int>, nextId: int)

  datatype TokenError = NoRows | Failed

  ghost predicate Consistent(t: Table) {
    && (forall id <- t.rows :: id < t.nextId && t.rows[id].hash in t.hashes && t.hashes[t.rows[id].hash] == id)
    && (forall h <- t.hashes :: t.hashes[h] in t.rows && t.rows[t.hashes[h]].hash == h)
  }

  predicate Active(k: Token, now: int) {
    k.revokedAt.None? && k.expiresAt > now
  }

  /** SELECT ... WHERE token_hash = $1 AND revoked_at IS NULL AND expires_at > NOW(). */
  function FindActive(t: Table, hash: string, now: int): Option<int> {
    if hash in t.hashes && t.hashes[hash] in t.rows && Active(t.rows[t.hashes[hash]], now)
    then Some(t.hashes[hash])
    else None
  }

  /** UPDATE ... SET revoked_at = NOW() WHERE id = $1 AND revoked_at IS NULL; the number of
      rows it touched. */
  function RevokeRow(t: Table, id: int, now: int): (Table, nat) {
    if id in t.rows && t.rows[id].revokedAt.None?
    then (t.(rows := t.rows[id := t.rows[id].(revokedAt := Some(now))]), 1)
    else (t, 0)
  }

  /** INSERT ... RETURNING id; None when the hash is taken. */
  function InsertRow(t: Table, k: Token): (Table, Option<int>) {
    if k.hash in t.hashes then (t.(nextId := t.nextId + 1), None)
    else (Table(t.rows[t.nextId := k], t.hashes[k.hash := t.nextId], t.nextId + 1), Some(t.nextId))
  }

  /** The row has this hash, and nobody has revoked it and it has not expired. */
  predicate Usable(t: Table, id: int, hash: string, now: int) {
    && id in t.rows && t.rows[id].hash == hash
    && t.rows[id].revokedAt == None && now < t.rows[id].expiresAt
  }

  /** One row was revoked now; every other stayed as it was. */
  predicate Revokes(t: Table, t': Table, id: int, now: int) {
    && id in t.rows && t.rows[id].revokedAt == None && t'.rows.Keys == t.rows.Keys
    && t'.rows[id] == Token(t.rows[id].userID, t.rows[id].hash, t.rows[id].expiresAt, Some(now))
    && forall other <- t.rows :: other != id ==> t'.rows[other] == t.rows[other]
  }

  lemma Indexed(t: Table, id: int)
    requires Consistent(t) && id in t.rows
    ensures t.rows[id].hash in t.hashes && t.hashes[t.rows[id].hash] == id
  {
  }

  lemma StatementsKeepConsistency(t: Table, id: int, k: Token, now: int)
    requires Consistent(t)
    ensures Consistent(RevokeRow(t, id, now).0)
    ensures Consistent(InsertRow(t, k).0)
  {
  }

  /** Where a transaction breaks off: before its UPDATE, before its INSERT, before COMMIT took
      effect, or (AfterCommit) when only the reply to COMMIT is lost. */
  datatype TxFault = NoFault | BeforeUpdate | BeforeInsert | BeforeCommit | AfterCommit

  class RefreshTokenRepository {
    var table: Table

    constructor ()
      ensures Consistent(table) && table.rows == map[]
    {
      table := Table(map[], map[], 1);
    }

    method Create(k: Token, fate: Fate) returns (r: Result<int, TokenError>)
      requires Consistent(table)
      modifies this
      ensures Consistent(table)
      ensures table == if fate == LostBefore then old(table) else InsertRow(old(table), k).0
      ensures r.Ok? <==> fate == Normal && k.hash !in old(table).hashes
      ensures r.Ok? ==> r.value !in old(table).rows && table.rows == old(table).rows[r.value := k]
    {
      StatementsKeepConsistency(table, 0, k, 0);
      r := Err(Failed);
      if fate != LostBefore {
        var (t, id) := InsertRow(table, k);
        table := t;
        if fate == Normal && id.Some? {
          r := Ok(id.value);
        }
      }
    }

    method FindActiveByHash(hash: string, now: int, fails: bool) returns (r: Result<(int, Token), TokenError>)
      requires Consistent(table)
      ensures r == Err(Failed) <==> fails
      ensures r.Ok? <==> !fails && FindActive(table, hash, now).Some?
      ensures r.Ok? ==> Some(r.value.0) == FindActive(table, hash, now) && Usable(table, r.value.0, hash, now)
                        && table.rows[r.value.0] == r.value.1
      ensures r == Err(NoRows) ==> forall id :: !Usable(table, id, hash, now)
    {
      if fails {
        return Err(Failed);
      }
      if hash in table.hashes {
        var id := table.hashes[hash];
        if Active(table.rows[id], now) {
          return Ok((id, table.rows[id]));
        }
      }
      r := Err(NoRows);
    }

    method Revoke(id: int, now: int, fate: Fate) returns (r: Result<(), TokenError>)
      requires Consistent(table)
      modifies this
      ensures Consistent(table)
      ensures table == if fate == LostBefore then old(table) else RevokeRow(old(table), id, now).0
      ensures r.Ok? <==> fate == Normal && id in old(table).rows && old(table).rows[id].revokedAt.None?
      ensures r.Ok? ==> Revokes(old(table), table, id, now)
    {
      StatementsKeepConsistency(table, id, Token(0, "", 0, None), now);
      r := Err(Failed);
      if fate != LostBefore {
        var (t, touched) := RevokeRow(table, id, now);
        table := t;
        if fate == Normal {
          r := if touched == 0 then Err(NoRows) else Ok(());
        }
      }
    }

    /** The statements run on `work`, and only COMMIT makes it the table; leaving early is the
        deferred Rollback, which gives back everything but the sequence values. */
    method Rotate(oldID: int, k: Token, now: int, fault: TxFault) returns (r: Result<int, TokenError>)
      requires Consistent(table)
      modifies this
      ensures Consistent(table)
      ensures r.Ok? <==> fault == NoFault && oldID in old(table).rows && old(table).rows[oldID].revokedAt.None?
                         && k.hash !in old(table).hashes
      // Success, or a commit whose reply is lost: the old row is revoked and the new one exists.
      ensures r.Ok? ==> r.value !in old(table).rows && table.rows
                        == old(table).rows[oldID := old(table).rows[oldID].(revokedAt := Some(now))][r.value := k]
      ensures && fault == AfterCommit && oldID in old(table).rows && old(table).rows[oldID].revokedAt.None?
              && k.hash !in old(table).hashes
              ==> table.rows != old(table).rows
      // Anything else changes no row.
      ensures r.Err? && fault != AfterCommit ==> table.rows == old(table).rows && table.hashes == old(table).hashes
      ensures r.Err? && table.rows != old(table).rows ==>
                && fault == AfterCommit && oldID in old(table).rows
                && (exists id :: id !in old(table).rows
                      && table.rows
                         == old(table).rows[oldID := old(table).rows[oldID].(revokedAt := Some(now))][id := k])
    {
      if fault == BeforeUpdate {
        return Err(Failed);
      }
      StatementsKeepConsistency(table, oldID, k, now);
      var (revoked, touched) := RevokeRow(table, oldID, now);
      if touched == 0 {
        return Err(NoRows);
      }
      if fault == BeforeInsert {
        return Err(Failed);
      }
      StatementsKeepConsistency(revoked, oldID, k, now);
      var (work, id) := InsertRow(revoked, k);
      if id.None? || fault == BeforeCommit {
        table := table.(nextId := work.nextId);
        return Err(Failed);
      }
      table := work;
      if fault == AfterCommit {
        assert id.value !in old(table).rows;
        return Err(Failed);
      }
      r := Ok(id.value);
    }
  }

  /** The row id is a session of this user: seven days, not revoked, under this hash. */
  predicate IsSession(t: Table, id: int, userID: int, hash: string, now: int) {
    && id in t.rows && t.rows[id].userID == userID && t.rows[id].hash == hash
    && t.rows[id].expiresAt == now + 604_800 * SECOND && t.rows[id].revokedAt == None
  }

  /** The second table has one session more, and every row of the first. */
  ghost predicate AddsSession(t: Table, t': Table, userID: int, hash: string, now: int) {
    exists id :: id !in t.rows && IsSession(t', id, userID, hash, now) && t'.rows - {id} == t.rows
  }

  /** One row was revoked now and another one is new; every other stayed as it was. */
  predicate Replaces(t: Table, t': Table, id: int, next: int, now: int) {
    && id in t.rows && next !in t.rows && t'.rows.Keys == t.rows.Keys + {next}
    && t'.rows[id] == t.rows[id].(revokedAt := Some(now))
    && forall other <- t.rows :: other != id ==> t'.rows[other] == t.rows[other]
  }

  /** The session of a row goes on under a new hash: its row can no longer be found, and the one
      found for the hash is a new session of the same user. */
  predicate Continues(t: Table, t': Table, id: int, hash: string, now: int) {
    && id in t.rows && FindActive(t', t.rows[id].hash, now) == None
    && FindActive(t', hash, now).Some?
    && var next := FindActive(t', hash, now).value;
       Replaces(t, t', id, next, now) && IsSession(t', next, t.rows[id].userID, hash, now)
  }

  lemma Replacement(t: Table, t': Table, id: int, next: int, k: Token, now: int)
    requires Consistent(t') && id in t.rows && next !in t.rows && next in t'.rows
    requires t'.rows == t.rows[id := t.rows[id].(revokedAt := Some(now))][next := k] && t'.rows[next] == k
    requires k == Token(t.rows[id].userID, k.hash, now + 604_800 * SECOND, None)
    ensures Continues(t, t', id, k.hash, now)
  {
    Indexed(t', id);
    Indexed(t', next);
  }

  datatype AuthError = InvalidToken | NotStored | BadCredentials | SigningFailed | RandomFailed

  const REFRESH_LIFETIME: int := 7 * 24 * HOUR

  /** AuthService with SHA-256 as an opaque function. `userKnown` is the outcome of
      users.FindByID, `signed` says whether the access token could be signed, and `drawn` is
      the raw token drawn at random, None when the random source fails. */
  class AuthService {
    const tokens: RefreshTokenRepository
    const hash: string -> string

    constructor (tokens: RefreshTokenRepository, hash: string -> string)
      ensures this.tokens == tokens && this.hash == hash
    {
      this.tokens := tokens;
      this.hash := hash;
    }

    function NewToken(userID: int, raw: string, now: int): Token {
      Token(userID, hash(raw), now + REFRESH_LIFETIME, None)
    }

    /** The raw token could be drawn and is new. */
    predicate Fresh(drawn: Option<string>)
      reads tokens
    {
      drawn.Some? && hash(drawn.value) !in tokens.table.hashes
    }

    /** The row the presented token refers to, if it is usable. */
    function Presented(raw: string, now: int): Option<int>
      reads tokens
    {
      if TrimSpace(raw) == "" then None else FindActive(tokens.table, hash(TrimSpace(raw)), now)
    }

    /** It is the one row with the token's hash that is neither revoked nor expired. */
    lemma PresentedIsUsable(raw: string, now: int, id: int)
      requires Consistent(tokens.table)
      ensures Presented(raw, now) == Some(id) <==>
                TrimSpace(raw) != "" && Usable(tokens.table, id, hash(TrimSpace(raw)), now)
    {
    }

    method CreateRefreshToken(userID: int, drawn: Option<string>, now: int, fate: Fate)
      returns (r: Result<string, AuthError>)
      requires Consistent(tokens.table)
      modifies tokens
      ensures Consistent(tokens.table)
      ensures r.Ok? <==> old(Fresh(drawn)) && fate == Normal
      ensures r.Ok? ==> drawn == Some(r.value)
                        && AddsSession(old(tokens.table), tokens.table, userID, hash(r.value), now)
                        && FindActive(tokens.table, hash(r.value), now).Some?
      ensures r.Err? ==> r.error == if drawn.None? then RandomFailed else NotStored
      ensures r.Err? && (drawn.None? || fate != LostAfter) ==> tokens.table.rows == old(tokens.table).rows
    {
      if drawn.None? {
        return Err(RandomFailed);
      }
      var created := tokens.Create(NewToken(userID, drawn.value, now), fate);
      if created.Err? {
        return Err(NotStored);
      }
      Indexed(tokens.table, created.value);
      assert IsSession(tokens.table, created.value, userID, hash(drawn.value), now);
      assert tokens.table.rows - {created.value} == old(tokens.table).rows;
      r := Ok(drawn.value);
    }

    /** `verified` is the user found by e-mail and password, if any. A login starts a new
        session and leaves all others alone. */
    method Login(verified: Option<int>, signed: bool, drawn: Option<string>, now: int, fate: Fate)
      returns (r: Result<string, AuthError>)
      requires Consistent(tokens.table)
      modifies tokens
      ensures Consistent(tokens.table)
      ensures r == Err(BadCredentials) <==> verified.None?
      ensures r == Err(SigningFailed) <==> verified.Some? && !signed
      ensures r == Err(RandomFailed) <==> verified.Some? && signed && drawn.None?
      ensures r.Ok? <==> verified.Some? && signed && old(Fresh(drawn)) && fate == Normal
      ensures r.Ok? ==> AddsSession(old(tokens.table), tokens.table, verified.value, hash(r.value), now)
                        && FindActive(tokens.table, hash(r.value), now).Some?
      ensures r.Err? && (r.error != NotStored || fate != LostAfter) ==> tokens.table.rows == old(tokens.table).rows
    {
      if verified.None? {
        return Err(BadCredentials);
      }
      if !signed {
        return Err(SigningFailed);
      }
      r := CreateRefreshToken(verified.value, drawn, now, fate);
    }

    /** Refresh from the token it has found on: sign, draw, rotate. */
    method Exchange(id: int, token: Token, signed: bool, drawn: Option<string>, now: int, fault: TxFault)
      returns (r: Result<string, AuthError>)
      requires Consistent(tokens.table)
      requires id in tokens.table.rows && tokens.table.rows[id] == token && Active(token, now)
      modifies tokens
      ensures Consistent(tokens.table)
      ensures r == Err(SigningFailed) <==> !signed
      ensures r == Err(RandomFailed) <==> signed && drawn.None?
      ensures r.Ok? <==> signed && old(Fresh(drawn)) && fault == NoFault
      ensures r.Err? ==> r.error in {InvalidToken, SigningFailed, RandomFailed}
      ensures r.Ok? ==> drawn == Some(r.value) && Continues(old(tokens.table), tokens.table, id, hash(r.value), now)
      ensures r.Err? && fault != AfterCommit ==> tokens.table.rows == old(tokens.table).rows
    {
      if !signed {
        return Err(SigningFailed);
      }
      if drawn.None? {
        return Err(RandomFailed);
      }
      var replacement := NewToken(token.userID, drawn.value, now);
      var rotated := tokens.Rotate(id, replacement, now, fault);
      if rotated.Err? {
        return Err(InvalidToken);
      }
      Replacement(old(tokens.table), tokens.table, id, rotated.value, replacement, now);
      r := Ok(drawn.value);
    }

    /** A successful refresh makes the presented token unusable and the returned one usable,
        for the same user; a refused one with no lost commit leaves every row as it was. */
    method Refresh(raw: string, findFails: bool, userKnown: bool, signed: bool, drawn: Option<string>, now: int,
                   fault: TxFault)
      returns (r: Result<string, AuthError>)
      requires Consistent(tokens.table)
      modifies tokens
      ensures Consistent(tokens.table)
      ensures r == Err(SigningFailed) <==> old(Presented(raw, now)).Some? && !findFails && userKnown && !signed
      ensures r == Err(RandomFailed) <==>
                old(Presented(raw, now)).Some? && !findFails && userKnown && signed && drawn.None?
      ensures r.Ok? <==>
                && old(Presented(raw, now)).Some? && !findFails && userKnown && signed
                && old(Fresh(drawn)) && fault == NoFault
      ensures r.Err? ==> r.error in {InvalidToken, SigningFailed, RandomFailed}
      ensures r.Ok? ==>
                var id := old(Presented(raw, now)).value;
                && drawn == Some(r.value) && Presented(raw, now) == None
                && Continues(old(tokens.table), tokens.table, id, hash(r.value), now)
      ensures r.Err? && fault != AfterCommit ==> tokens.table.rows == old(tokens.table).rows
    {
      var token := TrimSpace(raw);
      if token == "" {
        return Err(InvalidToken);
      }
      var stored := tokens.FindActiveByHash(hash(token), now, findFails);
      if stored.Err? || !userKnown {
        return Err(InvalidToken);
      }
      r := Exchange(stored.value.0, stored.value.1, signed, drawn, now, fault);
    }

    method Logout(raw: string, findFails: bool, now: int, fate: Fate) returns (r: Result<(), AuthError>)
      requires Consistent(tokens.table)
      modifies tokens
      ensures Consistent(tokens.table)
      ensures r == Err(InvalidToken) <==> old(Presented(raw, now)).None? || findFails
      ensures r.Ok? <==> old(Presented(raw, now)).Some? && !findFails && fate == Normal
      ensures r.Ok? ==> Revokes(old(tokens.table), tokens.table, old(Presented(raw, now)).value, now)
      ensures r.Ok? ==> forall at :: Presented(raw, at) == None
      ensures r.Err? && fate != LostAfter ==> tokens.table == old(tokens.table)
    {
      var token := TrimSpace(raw);
      if token == "" {
        return Err(InvalidToken);
      }
      var stored := tokens.FindActiveByHash(hash(token), now, findFails);
      if stored.Err? {
        return Err(InvalidToken);
      }
      var revoked := tokens.Revoke(stored.value.0, now, fate);
      r := if revoked.Ok? then Ok(()) else Err(NotStored);
    }
  }
}
