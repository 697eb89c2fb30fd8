/** Concurrent Login, Refresh and Logout calls of auth/auth_service.go.

    One action is one SQL statement. A rotation runs UPDATE, INSERT and COMMIT as separate
    actions: its UPDATE locks the row, its changes stay invisible until COMMIT, and other
    UPDATEs of a locked row wait. `revokedBy`, `parent`, `login` and `depth` are history:
    which call revoked a row, which row it replaced, and its place in the chain of a login. */
module TokenRotation {
  import opened Wrappers
  import opened Faults

  datatype Row = Row(
    userID: int,
    hash: string,
    expiresAt: int,
    revokedBy: Option<nat>,
    parent: Option<int>,
    login: nat,
    depth: nat)

  datatype Kind = Refresh | Logout

  datatype Call =
    | Found(kind: Kind, id: int, userID: int)
    | Updated(id: int, userID: int)
    | Inserted(id: int, userID: int, newID: int, newHash: string, expiresAt: int)
    | Done(kind: Kind, id: int, success: bool)

  datatype State = State(
    now: int,
    rows: map<int, Row>,
    nextID: int,
    logins: nat,
    calls: map<nat, Call>)

  datatype Action =
    | Tick(dt: nat)
    | Login(userID: int, hash: string, expiresAt: int)
    | Find(call: nat, kind: Kind, id: int)
    | GiveUp(call: nat)
    | Revoke(call: nat, fate: Fate)
    | TxUpdate(call: nat)
    | TxInsert(call: nat, newHash: string, expiresAt: int)
    | TxAbort(call: nat)
    | TxCommit(call: nat, reported: bool)

  predicate InTx(c: Call) {
    c.Updated? || c.Inserted?
  }

  /** An open transaction has updated the row. */
  predicate Locked(s: State, id: int) {
    exists c :: c in s.calls && InTx(s.calls[c]) && s.calls[c].id == id
  }

  /** UNIQUE (token_hash), against committed rows and rows other transactions have inserted. */
  predicate HashFree(s: State, hash: string) {
    && (forall id <- s.rows :: s.rows[id].hash != hash)
    && (forall c <- s.calls :: s.calls[c].Inserted? ==> s.calls[c].newHash != hash)
  }

  predicate Unrevoked(s: State, id: int) {
    id in s.rows && s.rows[id].revokedBy.None?
  }

  predicate Initial(s: State) {
    s.rows == map[] && s.logins == 0 && s.calls == map[]
  }

  predicate Enabled(s: State, a: Action) {
    match a
    case Tick(_) => true
    case Login(_, hash, _) => HashFree(s, hash)
    // FindActiveByHash returned this row; hashes identify rows.
    case Find(c, _, id) => c !in s.calls && Unrevoked(s, id) && s.rows[id].expiresAt > s.now
    case GiveUp(c) => c in s.calls && s.calls[c].Found?
    case Revoke(c, _) => c in s.calls && s.calls[c].Found? && s.calls[c].kind == Logout && !Locked(s, s.calls[c].id)
    case TxUpdate(c) => c in s.calls && s.calls[c].Found? && s.calls[c].kind == Refresh && !Locked(s, s.calls[c].id)
    case TxInsert(c, hash, _) => c in s.calls && s.calls[c].Updated? && HashFree(s, hash)
    case TxAbort(c) => c in s.calls && InTx(s.calls[c])
    case TxCommit(c, _) => c in s.calls && s.calls[c].Inserted?
  }

  function RevokeIn(rows: map<int, Row>, id: int, c: nat): map<int, Row>
    requires id in rows
  {
    rows[id := rows[id].(revokedBy := Some(c))]
  }

  function Do(s: State, a: Action): State
    requires Enabled(s, a)
  {
    match a
    case Tick(dt) => s.(now := s.now + dt)
    case Login(user, hash, expiresAt) =>
      s.(rows := s.rows[s.nextID := Row(user, hash, expiresAt, None, None, s.logins, 0)],
         nextID := s.nextID + 1, logins := s.logins + 1)
    case Find(c, kind, id) => s.(calls := s.calls[c := Found(kind, id, s.rows[id].userID)])
    case GiveUp(c) => s.(calls := s.calls[c := Done(s.calls[c].kind, s.calls[c].id, false)])
    case Revoke(c, fate) =>
      var id := s.calls[c].id;
      if fate == LostBefore || !Unrevoked(s, id) then s.(calls := s.calls[c := Done(Logout, id, false)])
      else s.(rows := RevokeIn(s.rows, id, c), calls := s.calls[c := Done(Logout, id, fate == Normal)])
    case TxUpdate(c) =>
      var id := s.calls[c].id;
      if Unrevoked(s, id) then s.(calls := s.calls[c := Updated(id, s.calls[c].userID)])
      else s.(calls := s.calls[c := Done(Refresh, id, false)])
    case TxInsert(c, hash, expiresAt) =>
      s.(calls := s.calls[c := Inserted(s.calls[c].id, s.calls[c].userID, s.nextID, hash, expiresAt)],
          nextID := s.nextID + 1)
    case TxAbort(c) => s.(calls := s.calls[c := Done(Refresh, s.calls[c].id, false)])
    case TxCommit(c, reported) =>
      var t := s.calls[c];
      if t.id !in s.rows then s
      else
        var child := Row(t.userID, t.newHash, t.expiresAt, None, Some(t.id), s.rows[t.id].login,
            s.rows[t.id].depth + 1);
        s.(rows := RevokeIn(s.rows, t.id, c)[t.newID := child], calls := s.calls[c := Done(Refresh, t.id, reported)])
  }

  predicate Runs(s: State, acts: seq<Action>)
    decreases |acts|
  {
    acts == [] || (Enabled(s, acts[0]) && Runs(Do(s, acts[0]), acts[1..]))
  }

  function After(s: State, acts: seq<Action>): State
    requires Runs(s, acts)
    decreases |acts|
  {
    if acts == [] then s else After(Do(s, acts[0]), acts[1..])
  }

  // ---- Invariant ----

  /** A row continues its parent: same user, same login, one deeper, parent revoked. */
  predicate RowOk(s: State, id: int)
    requires id in s.rows
  {
    var r := s.rows[id];
    && id < s.nextID && r.login < s.logins
    && (r.parent.None? <==> r.depth == 0)
    && (r.parent.Some? ==>
          && r.parent.value in s.rows && s.rows[r.parent.value].revokedBy.Some?
          && s.rows[r.parent.value].userID == r.userID
          && s.rows[r.parent.value].login == r.login
          && s.rows[r.parent.value].depth + 1 == r.depth)
  }

  /** Rows of one login have different depths, and everything above the deepest is revoked. */
  predicate PairOk(s: State, a: int, b: int)
    requires a in s.rows && b in s.rows
  {
    && (a != b ==> s.rows[a].hash != s.rows[b].hash)
    && (a != b && s.rows[a].login == s.rows[b].login ==>
          s.rows[a].depth != s.rows[b].depth && (s.rows[a].depth < s.rows[b].depth ==> s.rows[a].revokedBy.Some?))
  }

  predicate LoginDead(s: State, login: nat) {
    forall id <- s.rows :: s.rows[id].login == login ==> s.rows[id].revokedBy.Some?
  }

  predicate CallOk(s: State, c: nat)
    requires c in s.calls
  {
    match s.calls[c]
    case Found(_, id, user) => id in s.rows && s.rows[id].userID == user
    case Updated(id, user) => Unrevoked(s, id) && s.rows[id].userID == user
    case Inserted(id, user, newID, newHash, _) =>
      && Unrevoked(s, id) && s.rows[id].userID == user
      && newID !in s.rows && newID < s.nextID && forall k <- s.rows :: s.rows[k].hash != newHash
    case Done(kind, id, success) =>
      && id in s.rows
      && (success ==> s.rows[id].revokedBy == Some(c))
      && (success && kind == Logout ==> LoginDead(s, s.rows[id].login))
  }

  /** Open transactions work on different rows and insert different ones. */
  predicate CallsApart(s: State, c: nat, d: nat)
    requires c in s.calls && d in s.calls
  {
    c != d ==>
      && (InTx(s.calls[c]) && InTx(s.calls[d]) ==> s.calls[c].id != s.calls[d].id)
      && (s.calls[c].Inserted? && s.calls[d].Inserted? ==>
            s.calls[c].newID != s.calls[d].newID && s.calls[c].newHash != s.calls[d].newHash)
  }

  ghost predicate Inv(s: State) {
    && (forall id <- s.rows :: RowOk(s, id))
    && (forall a <- s.rows, b <- s.rows :: PairOk(s, a, b))
    && (forall c <- s.calls :: CallOk(s, c))
    && (forall c <- s.calls, d <- s.calls :: CallsApart(s, c, d))
  }

  lemma CallsApartKept(s: State, a: Action, c: nat, d: nat)
    requires Inv(s) && Enabled(s, a) && c in Do(s, a).calls && d in Do(s, a).calls
    ensures CallsApart(Do(s, a), c, d)
  {
    if c in s.calls && d in s.calls {
      assert CallsApart(s, c, d) && CallOk(s, c) && CallOk(s, d);
    }
  }

  lemma RowKept(s: State, a: Action, id: int)
    requires Inv(s) && Enabled(s, a) && id in Do(s, a).rows
    ensures RowOk(Do(s, a), id)
  {
    if a.TxCommit? || a.Revoke? {
      assert CallOk(s, a.call);
    }
    if id in s.rows {
      assert RowOk(s, id);
    } else if a.TxCommit? {
      assert RowOk(s, s.calls[a.call].id);
    }
  }

  lemma PairKept(s: State, a: Action, x: int, y: int)
    requires Inv(s) && Enabled(s, a) && x in Do(s, a).rows && y in Do(s, a).rows
    ensures PairOk(Do(s, a), x, y)
  {
    if a.TxCommit? || a.Revoke? {
      assert CallOk(s, a.call);
    }
    if x in s.rows {
      assert RowOk(s, x);
    }
    if y in s.rows {
      assert RowOk(s, y);
    }
    if x in s.rows && y in s.rows {
      assert PairOk(s, x, y);
    }
    if a.TxCommit? {
      var id := s.calls[a.call].id;
      if x in s.rows {
        assert PairOk(s, x, id) && PairOk(s, id, x);
      }
      if y in s.rows {
        assert PairOk(s, y, id) && PairOk(s, id, y);
      }
    }
  }

  /** A login all of whose rows are revoked never gets a row again. */
  lemma DeadStaysDead(s: State, a: Action, login: nat)
    requires Inv(s) && Enabled(s, a) && LoginDead(s, login) && login < s.logins
    ensures LoginDead(Do(s, a), login)
  {
  }

  /** Revoking the unrevoked row of a login kills the login. */
  lemma RevokeKills(s: State, id: int, c: nat)
    requires Inv(s) && Unrevoked(s, id)
    ensures LoginDead(s.(rows := RevokeIn(s.rows, id, c)), s.rows[id].login)
  {
  }

  /** What other calls do leaves a call's facts true. */
  lemma OtherCallKept(s: State, a: Action, c: nat)
    requires Inv(s) && Enabled(s, a) && c in s.calls && c in Do(s, a).calls && Do(s, a).calls[c] == s.calls[c]
    requires (a.TxCommit? || a.Revoke?) ==> a.call != c
    ensures CallOk(Do(s, a), c)
  {
    assert CallOk(s, c);
    if a.TxCommit? || a.Revoke? {
      assert CallOk(s, a.call) && CallsApart(s, c, a.call);
    }
    if s.calls[c].Done? && s.calls[c].success && s.calls[c].kind == Logout {
      assert RowOk(s, s.calls[c].id);
      DeadStaysDead(s, a, s.rows[s.calls[c].id].login);
    }
  }

  lemma OwnCallKept(s: State, a: Action, c: nat)
    requires Inv(s) && Enabled(s, a)
    requires c in Do(s, a).calls && (c !in s.calls || Do(s, a).calls[c] != s.calls[c] || (a.TxCommit? && a.call == c))
    ensures CallOk(Do(s, a), c)
  {
    if c in s.calls {
      assert CallOk(s, c);
    }
    if a.Revoke? && Unrevoked(s, s.calls[c].id) {
      RevokeKills(s, s.calls[c].id, c);
    }
    forall id <- s.rows ensures id < s.nextID {
      assert RowOk(s, id);
    }
  }

  lemma StepKeepsInv(s: State, a: Action)
    requires Inv(s) && Enabled(s, a)
    ensures Inv(Do(s, a))
  {
    var s' := Do(s, a);
    forall id <- s'.rows { RowKept(s, a, id); }
    forall x <- s'.rows, y <- s'.rows { PairKept(s, a, x, y); }
    forall c <- s'.calls, d <- s'.calls { CallsApartKept(s, a, c, d); }
    forall c <- s'.calls ensures CallOk(s', c) {
      if c in s.calls && s'.calls[c] == s.calls[c] && !(a.TxCommit? && a.call == c) {
        OtherCallKept(s, a, c);
      } else {
        OwnCallKept(s, a, c);
      }
    }
  }

  lemma {:induction false} RunKeepsInv(s: State, acts: seq<Action>)
    requires Inv(s) && Runs(s, acts)
    ensures Inv(After(s, acts))
    decreases |acts|
  {
    if acts == [] {
    } else {
      StepKeepsInv(s, acts[0]);
      RunKeepsInv(Do(s, acts[0]), acts[1..]);
    }
  }

  // ---- What each statement does ----

  /** Call c ended successfully on the row. */
  predicate Won(s: State, c: nat, id: int) {
    c in s.calls && s.calls[c].Done? && s.calls[c].id == id && s.calls[c].success
  }

  /** Only call c moved, and no stored row. */
  predicate CallMoves(s: State, s': State, c: nat, to: Call) {
    && s'.rows == s.rows && s'.logins == s.logins && s'.now == s.now
    && s'.calls.Keys == s.calls.Keys + {c} && s'.calls[c] == to
    && forall d <- s.calls :: d != c ==> s'.calls[d] == s.calls[d]
  }

  /** FindActiveByHash finds a row exactly while it is unrevoked and unexpired. */
  lemma FindFindsActive(s: State, c: nat, kind: Kind, id: int)
    requires c !in s.calls
    ensures Enabled(s, Find(c, kind, id)) <==> Unrevoked(s, id) && s.rows[id].expiresAt > s.now
    ensures Enabled(s, Find(c, kind, id)) ==>
              CallMoves(s, Do(s, Find(c, kind, id)), c, Found(kind, id, s.rows[id].userID))
  {
  }

  /** The UPDATE of a rotation waits while another transaction holds the row; then it touches the
      row, and the rotation goes on, if and only if the row is unrevoked. Nothing is visible yet. */
  lemma UpdateDecides(s: State, c: nat)
    requires c in s.calls && s.calls[c].Found? && s.calls[c].kind == Refresh
    ensures Enabled(s, TxUpdate(c)) <==> !Locked(s, s.calls[c].id)
    ensures Enabled(s, TxUpdate(c)) ==>
              var id, user := s.calls[c].id, s.calls[c].userID;
              && (Unrevoked(s, id) ==> CallMoves(s, Do(s, TxUpdate(c)), c, Updated(id, user)))
              && (!Unrevoked(s, id) ==> CallMoves(s, Do(s, TxUpdate(c)), c, Done(Refresh, id, false)))
  {
  }

  /** A logout's UPDATE waits likewise, and wins if and only if the row is unrevoked and its reply
      arrives; it revokes this row and no other. */
  lemma LogoutDecides(s: State, c: nat, fate: Fate)
    requires c in s.calls && s.calls[c].Found? && s.calls[c].kind == Logout
    ensures Enabled(s, Revoke(c, fate)) <==> !Locked(s, s.calls[c].id)
    ensures Enabled(s, Revoke(c, fate)) ==>
              var s', id := Do(s, Revoke(c, fate)), s.calls[c].id;
              && s'.calls[c] == Done(Logout, id, fate == Normal && Unrevoked(s, id))
              && s'.rows.Keys == s.rows.Keys && (forall k <- s.rows :: k != id ==> s'.rows[k] == s.rows[k])
              && (id in s.rows ==>
                    s'.rows[id] == if fate != LostBefore && Unrevoked(s, id) then s.rows[id].(revokedBy := Some(c))
                                   else s.rows[id])
  {
  }

  /** An abort, at any point of the transaction, and a call that gives up leave every row as it
      was and do not succeed. */
  lemma AbortChangesNothing(s: State, c: nat)
    requires c in s.calls
    ensures Enabled(s, TxAbort(c)) <==> InTx(s.calls[c])
    ensures Enabled(s, TxAbort(c)) ==> CallMoves(s, Do(s, TxAbort(c)), c, Done(Refresh, s.calls[c].id, false))
    ensures Enabled(s, GiveUp(c)) <==> s.calls[c].Found?
    ensures Enabled(s, GiveUp(c)) ==> CallMoves(s, Do(s, GiveUp(c)), c, Done(s.calls[c].kind, s.calls[c].id, false))
  {
  }

  /** A login starts a chain: one new unrevoked row without a parent. */
  lemma LoginStarts(s: State, userID: int, hash: string, expiresAt: int)
    requires Inv(s)
    ensures Enabled(s, Login(userID, hash, expiresAt)) <==> HashFree(s, hash)
    ensures Enabled(s, Login(userID, hash, expiresAt)) ==>
              var s' := Do(s, Login(userID, hash, expiresAt));
              && s.nextID !in s.rows && s'.calls == s.calls
              && s'.rows == s.rows[s.nextID := Row(userID, hash, expiresAt, None, None, s.logins, 0)]
  {
    forall id <- s.rows ensures id < s.nextID {
      assert RowOk(s, id);
    }
  }

  /** The INSERT of a rotation needs a new hash, and waits for the commit to be visible. */
  lemma InsertDecides(s: State, c: nat, newHash: string, expiresAt: int)
    requires c in s.calls && s.calls[c].Updated?
    ensures Enabled(s, TxInsert(c, newHash, expiresAt)) <==> HashFree(s, newHash)
    ensures Enabled(s, TxInsert(c, newHash, expiresAt)) ==>
              var to := Inserted(s.calls[c].id, s.calls[c].userID, s.nextID, newHash, expiresAt);
              CallMoves(s, Do(s, TxInsert(c, newHash, expiresAt)), c, to)
  {
  }

  /** What a committed rotation has stored: the old row revoked, and one new unrevoked row with
      the new hash, for the same user, behind the old row. */
  predicate Rotated(s: State, s': State, id: int, newID: int, newHash: string, expiresAt: int, c: nat) {
    && id in s.rows && newID !in s.rows && s'.rows.Keys == s.rows.Keys + {newID}
    && s'.rows[id] == s.rows[id].(revokedBy := Some(c))
    && (forall k <- s.rows :: k != id ==> s'.rows[k] == s.rows[k])
    && var row := s'.rows[newID];
       && row.userID == s.rows[id].userID && row.hash == newHash && row.expiresAt == expiresAt
       && row.revokedBy.None? && row.parent == Some(id) && row.login == s.rows[id].login
  }

  /** The COMMIT makes both changes visible at once; only its report can be lost. */
  lemma CommitDecides(s: State, c: nat, reported: bool)
    requires Inv(s) && c in s.calls && s.calls[c].Inserted?
    ensures Enabled(s, TxCommit(c, reported))
    ensures var s', t := Do(s, TxCommit(c, reported)), s.calls[c];
            && Rotated(s, s', t.id, t.newID, t.newHash, t.expiresAt, c)
            && s'.calls == s.calls[c := Done(Refresh, t.id, reported)]
  {
    assert CallOk(s, c);
  }

  /** One more statement before a run. */
  lemma Before(s: State, a: Action, rest: seq<Action>)
    requires Enabled(s, a) && Runs(Do(s, a), rest)
    ensures Runs(s, [a] + rest) && After(s, [a] + rest) == After(Do(s, a), rest)
  {
    assert ([a] + rest)[1..] == rest;
  }

  lemma ThreeSteps(s: State, a: Action, b: Action, c: Action)
    requires Enabled(s, a) && Enabled(Do(s, a), b) && Enabled(Do(Do(s, a), b), c)
    ensures Runs(s, [a, b, c]) && After(s, [a, b, c]) == Do(Do(Do(s, a), b), c)
  {
    Before(Do(Do(s, a), b), c, []);
    Before(Do(s, a), b, [c] + []);
    Before(s, a, [b] + ([c] + []));
    assert [a] + ([b] + ([c] + [])) == [a, b, c];
  }

  /** A refresh that has found an unrevoked row which no other transaction holds succeeds when its
      statements follow, with a new hash, and its commit is reported; if only the report is
      lost, the rows are the same. */
  lemma RefreshSucceeds(s: State, c: nat, newHash: string, expiresAt: int, reported: bool)
    requires Inv(s) && c in s.calls && s.calls[c].Found? && s.calls[c].kind == Refresh
    requires !Locked(s, s.calls[c].id) && Unrevoked(s, s.calls[c].id) && HashFree(s, newHash)
    ensures var acts, id := [TxUpdate(c), TxInsert(c, newHash, expiresAt), TxCommit(c, reported)], s.calls[c].id;
            && Runs(s, acts)
            && After(s, acts).calls == s.calls[c := Done(Refresh, id, reported)]
            && (Won(After(s, acts), c, id) <==> reported)
            && Rotated(s, After(s, acts), id, s.nextID, newHash, expiresAt, c)
  {
    var update, insert, commit := TxUpdate(c), TxInsert(c, newHash, expiresAt), TxCommit(c, reported);
    UpdateDecides(s, c);
    var s1 := Do(s, update);
    StepKeepsInv(s, update);
    assert HashFree(s1, newHash) by {
      forall d <- s1.calls ensures s1.calls[d].Inserted? ==> s1.calls[d].newHash != newHash {
        assert d == c || s1.calls[d] == s.calls[d];
      }
    }
    var s2 := Do(s1, insert);
    StepKeepsInv(s1, insert);
    CommitDecides(s2, c, reported);
    ThreeSteps(s, update, insert, commit);
  }

  /** A token just issued by a login is found. */
  lemma IssuedTokenIsFound(s: State, login: Action, kind: Kind) returns (s': State)
    requires Initial(s) && login.Login? && login.expiresAt > s.now
    ensures Runs(s, [login, Find(0, kind, s.nextID)]) && s' == After(s, [login, Find(0, kind, s.nextID)])
    ensures Inv(s') && s'.calls == map[0 := Found(kind, s.nextID, login.userID)]
    ensures s'.rows == map[s.nextID := Row(login.userID, login.hash, login.expiresAt, None, None, 0, 0)]
  {
    var find := Find(0, kind, s.nextID);
    var s1 := Do(s, login);
    StepKeepsInv(s, login);
    StepKeepsInv(s1, find);
    Before(s1, find, []);
    Before(s, login, [find] + []);
    assert [login] + ([find] + []) == [login, find];
    s' := Do(s1, find);
  }

  /** Runs can be appended. */
  lemma {:induction false} RunsAppend(s: State, first: seq<Action>, second: seq<Action>)
    requires Runs(s, first) && Runs(After(s, first), second)
    ensures Runs(s, first + second) && After(s, first + second) == After(After(s, first), second)
    decreases |first|
  {
    if first == [] {
      assert first + second == second;
    } else {
      assert (first + second)[1..] == first[1..] + second;
      RunsAppend(Do(s, first[0]), first[1..], second);
    }
  }

  /** Both do occur: whatever token a login issues can be refreshed, and can be logged out. */
  lemma TokensCanBeUsed(s: State, userID: int, hash: string, expiresAt: int, kind: Kind)
    returns (acts: seq<Action>)
    requires Initial(s) && expiresAt > s.now
    ensures Runs(s, acts) && Won(After(s, acts), 0, s.nextID) && After(s, acts).calls[0].kind == kind
  {
    var start := [Login(userID, hash, expiresAt), Find(0, kind, s.nextID)];
    var s2 := IssuedTokenIsFound(s, start[0], kind);
    var rest;
    if kind == Logout {
      rest := [Revoke(0, Normal)] + [];
      Before(s2, Revoke(0, Normal), []);
    } else {
      var newHash := hash + "x";
      assert |newHash| > |hash|;
      RefreshSucceeds(s2, 0, newHash, expiresAt, true);
      rest := [TxUpdate(0), TxInsert(0, newHash, expiresAt), TxCommit(0, true)];
    }
    RunsAppend(s, start, rest);
    acts := start + rest;
  }

  // ---- Main results ----

  ghost predicate Reachable(s: State) {
    exists s0, acts :: Initial(s0) && Runs(s0, acts) && After(s0, acts) == s
  }

  lemma ReachableInv(s: State)
    requires Reachable(s)
    ensures Inv(s)
  {
    var s0, acts :| Initial(s0) && Runs(s0, acts) && After(s0, acts) == s;
    RunKeepsInv(s0, acts);
  }

  /** The rows form disjoint linear chains, one per login: a row has at most one successor and
      shares its user with it, only a chain's end can be unrevoked, and no chain has two
      unrevoked rows. */
  lemma ChainsAreLinear(s: State, a: int, b: int)
    requires Reachable(s) && a in s.rows && b in s.rows
    ensures s.rows[a].parent.Some? && s.rows[a].parent == s.rows[b].parent ==> a == b
    ensures s.rows[a].parent == Some(b) ==>
              s.rows[a].userID == s.rows[b].userID && s.rows[a].login == s.rows[b].login && s.rows[b].revokedBy.Some?
    ensures s.rows[a].parent.None? && s.rows[b].parent.None? && s.rows[a].login == s.rows[b].login ==> a == b
    ensures s.rows[a].login == s.rows[b].login && Unrevoked(s, a) && Unrevoked(s, b) ==> a == b
    ensures a != b ==> s.rows[a].hash != s.rows[b].hash
  {
    ReachableInv(s);
    assert RowOk(s, a) && RowOk(s, b) && PairOk(s, a, b) && PairOk(s, b, a);
  }

  /** The row reached from `id` by going back n rotations. */
  function Ancestor(s: State, id: int, n: nat): Option<int>
    decreases n
  {
    if id !in s.rows then None
    else if n == 0 then Some(id)
    else if s.rows[id].parent.None? then None
    else Ancestor(s, s.rows[id].parent.value, n - 1)
  }

  /** Going back keeps user and login and leads one level up each time. */
  lemma {:induction false} AncestorsAreAbove(s: State, id: int, n: nat)
    requires Inv(s) && id in s.rows && n <= s.rows[id].depth
    ensures Ancestor(s, id, n).Some? && Ancestor(s, id, n).value in s.rows
    ensures var top := s.rows[Ancestor(s, id, n).value];
            top.depth + n == s.rows[id].depth && top.login == s.rows[id].login && top.userID == s.rows[id].userID
    decreases n
  {
    if n == 0 {
    } else {
      assert RowOk(s, id);
      AncestorsAreAbove(s, s.rows[id].parent.value, n - 1);
    }
  }

  lemma {:induction false} NoAncestorBeyondRoot(s: State, id: int, n: nat)
    requires Inv(s) && id in s.rows && n > s.rows[id].depth
    ensures Ancestor(s, id, n) == None
    decreases n
  {
    assert RowOk(s, id);
    if s.rows[id].depth == 0 {
    } else {
      NoAncestorBeyondRoot(s, s.rows[id].parent.value, n - 1);
    }
  }

  /** A chain is one line without cycles: of two rows of a login one is reached from the other
      by as many rotations as their depths differ, so all are reached from the one root, and no
      row is reached from itself. */
  lemma ChainsAreConnected(s: State, a: int, b: int)
    requires Reachable(s) && a in s.rows && b in s.rows && s.rows[a].login == s.rows[b].login
    requires s.rows[b].depth <= s.rows[a].depth
    ensures Ancestor(s, a, s.rows[a].depth - s.rows[b].depth) == Some(b)
    ensures s.rows[a].userID == s.rows[b].userID
    ensures forall n: nat :: n > 0 ==> Ancestor(s, a, n) != Some(a)
  {
    ReachableInv(s);
    AncestorsAreAbove(s, a, s.rows[a].depth - s.rows[b].depth);
    assert PairOk(s, Ancestor(s, a, s.rows[a].depth - s.rows[b].depth).value, b);
    forall n: nat | n > 0 ensures Ancestor(s, a, n) != Some(a) {
      if n <= s.rows[a].depth {
        AncestorsAreAbove(s, a, n);
      } else {
        NoAncestorBeyondRoot(s, a, n);
      }
    }
  }

  /** The login's first row is stored. */
  predicate Rooted(s: State, login: nat) {
    exists id :: id in s.rows && s.rows[id].login == login && s.rows[id].parent.None?
  }

  lemma RootStays(s: State, a: Action, login: nat)
    requires Inv(s) && Enabled(s, a) && (login < s.logins ==> Rooted(s, login)) && login < Do(s, a).logins
    ensures Rooted(Do(s, a), login)
  {
    if a.TxCommit? {
      assert CallOk(s, a.call);
    }
    if login < s.logins {
      var id :| id in s.rows && s.rows[id].login == login && s.rows[id].parent.None?;
      assert RowOk(s, id) && id in Do(s, a).rows && Do(s, a).rows[id].parent.None?;
    } else {
      assert s.nextID in Do(s, a).rows;
    }
  }

  lemma {:induction false} RunKeepsRoots(s: State, acts: seq<Action>, login: nat)
    requires Inv(s) && Runs(s, acts) && (login < s.logins ==> Rooted(s, login)) && login < After(s, acts).logins
    ensures Rooted(After(s, acts), login)
    decreases |acts|
  {
    if acts == [] {
    } else {
      StepKeepsInv(s, acts[0]);
      if login < Do(s, acts[0]).logins {
        RootStays(s, acts[0], login);
      }
      RunKeepsRoots(Do(s, acts[0]), acts[1..], login);
    }
  }

  /** Every login has its chain. */
  lemma LoginsHaveChains(s: State, login: nat)
    requires Reachable(s) && login < s.logins
    ensures Rooted(s, login)
  {
    var s0, acts :| Initial(s0) && Runs(s0, acts) && After(s0, acts) == s;
    RunKeepsRoots(s0, acts, login);
  }

  /** Number of values below n that an injective map can take. */
  lemma {:induction false} InjectiveCount(ids: set<int>, f: map<int, int>, n: nat)
    requires forall i <- ids :: i in f && 0 <= f[i] < n
    requires forall i <- ids, j <- ids :: f[i] == f[j] ==> i == j
    ensures |ids| <= n
  {
    if n == 0 {
      assert forall i :: i !in ids;
      assert ids == {};
    } else if i :| i in ids && f[i] == n - 1 {
      InjectiveCount(ids - {i}, f, n - 1);
    } else {
      InjectiveCount(ids, f, n - 1);
    }
  }

  /** Refreshing never multiplies sessions: unrevoked rows never outnumber logins. */
  lemma LiveTokensAreFew(s: State)
    requires Reachable(s)
    ensures |set id <- s.rows | s.rows[id].revokedBy.None?| <= s.logins
  {
    ReachableInv(s);
    var live := set id <- s.rows | s.rows[id].revokedBy.None?;
    var f: map<int, int> := map id <- s.rows :: s.rows[id].login;
    forall i <- live ensures 0 <= f[i] < s.logins {
      assert RowOk(s, i);
    }
    forall i <- live, j <- live ensures f[i] == f[j] ==> i == j {
      assert PairOk(s, i, j) && PairOk(s, j, i);
    }
    InjectiveCount(live, f, s.logins);
  }

  /** Of all refreshes and logouts that present one token at most one succeeds. */
  lemma TokensAreSingleUse(s: State, id: int, c: nat, d: nat)
    requires Reachable(s) && Won(s, c, id) && Won(s, d, id)
    ensures c == d
  {
    ReachableInv(s);
    assert CallOk(s, c) && CallOk(s, d);
  }

  lemma DeadLoginGainsNothing(s: State, a: Action, login: nat, c: nat, id: int)
    requires Inv(s) && Enabled(s, a) && LoginDead(s, login)
    requires Won(Do(s, a), c, id) && id in s.rows && s.rows[id].login == login
    ensures Won(s, c, id)
  {
    if !Won(s, c, id) {
      assert CallOk(s, c);
    }
  }

  lemma {:induction false} NothingAfterDeath(s: State, acts: seq<Action>, login: nat, c: nat, id: int)
    requires Inv(s) && Runs(s, acts) && LoginDead(s, login) && login < s.logins
    requires Won(After(s, acts), c, id) && id in After(s, acts).rows && After(s, acts).rows[id].login == login
    ensures Won(s, c, id) && id in s.rows && s.rows[id].login == login
    ensures LoginDead(After(s, acts), login)
    decreases |acts|
  {
    if acts == [] {
    } else {
      var a, s' := acts[0], Do(s, acts[0]);
      StepKeepsInv(s, a);
      DeadStaysDead(s, a, login);
      NothingAfterDeath(s', acts[1..], login, c, id);
      if a.TxCommit? {
        assert CallOk(s, a.call);
      }
      DeadLoginGainsNothing(s, a, login, c, id);
    }
  }

  /** Once a logout has succeeded, no refresh or logout on any token of its chain succeeds any
      more, not even one that had already found its row: every success on the chain was
      there when the logout was. */
  lemma LogoutEndsTheChain(s: State, acts: seq<Action>, out: nat, id: int, c: nat, other: int)
    requires Reachable(s) && Won(s, out, id) && s.calls[out].kind == Logout
    requires Runs(s, acts) && Won(After(s, acts), c, other)
    requires id in s.rows && other in After(s, acts).rows && After(s, acts).rows[other].login == s.rows[id].login
    ensures Won(s, c, other)
    ensures LoginDead(After(s, acts), s.rows[id].login)
  {
    ReachableInv(s);
    assert CallOk(s, out) && RowOk(s, id);
    NothingAfterDeath(s, acts, s.rows[id].login, c, other);
  }
}
