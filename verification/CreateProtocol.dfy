/** URL creation as any number of requests in any number of processes perform it: the handler
    of handler/url_handler.go, the reservation of repository/idempotency_repository.go and the
    retry loop of service/url_service.go.

    One action is one SQL statement, one lock operation or one crash. Statements may fail
    before or after their commit. `owner`, `author`, `inserts` and `faulted` are history. */
module CreateProtocol {
  import opened Wrappers
  import opened Faults
  import opened Strings
  import opened UrlStore
  import opened ShortCodes
  import opened IdempotencyStore

  /** What one INSERT of a URL row came to. */
  datatype Outcome = Collided | Inserted(url: Url) | Lost

  datatype Refusal = Invalid | Exhausted | NameTaken | Unstored

  /** Replied: a JSON response. InProgress: 409. ServerError: 500. Rejected: 400. */
  datatype Reply =
    | Replied(status: int, body: Body)
    | InProgress
    | ServerError
    | Rejected(refusal: Refusal)

  datatype PC =
    | Arrived
    | Checking
    | Reserving
    | Rechecking
    | Creating(attempt: nat)
    | Completing(pending: Body)
    | Finished(reply: Reply)
    | Crashed

  /** `key` is None without an Idempotency-Key header; `valid` says that the body decodes and
      its destination passes validateURL; `destination` and `alias` are the body's, the alias
      trimmed, if any; `base` is the public base URL of the request's process. */
  datatype Request = Request(
    process: nat,
    user: int,
    key: Option<string>,
    valid: bool,
    destination: string,
    alias: Option<string>,
    base: string,
    pc: PC,
    inserts: seq<Outcome>,
    faulted: bool)

  /** One mutex of one process's lock table. */
  datatype Lock = Lock(process: nat, name: string)

  datatype State = State(
    records: Rows,
    urls: Table,
    requests: map<nat, Request>,
    held: map<Lock, nat>,
    dead: set<nat>,
    owner: map<Key, nat>,
    author: map<int, nat>)

  datatype Action =
    | Arrive(id: nat, process: nat, user: int, key: Option<string>, valid: bool, destination: string,
             alias: Option<string>, base: string)
    | Acquire(id: nat)
    | Read(id: nat, fate: Fate)
    | Reserve(id: nat, fate: Fate)
    | ReadAgain(id: nat, fate: Fate)
    | Refuse(id: nat)
    | Insert(id: nat, code: string, at: int, fate: Fate)
    | Complete(id: nat, fate: Fate)
    | Release(id: nat)
    | UpdateRow(url: Url)
    | DeleteRow(row: int)
    | Crash(process: nat)

  const CREATED := 201

  function PairOf(q: Request): Key
    requires q.key.Some?
  {
    Key(q.user, q.key.value)
  }

  function LockOf(q: Request): Lock
    requires q.key.Some?
  {
    Lock(q.process, LockKey(PairOf(q)))
  }

  function BodyOf(u: Url, base: string): Body {
    Created(u.id, u.shortCode, base + "/" + u.shortCode)
  }

  /** The row the request's calls to the database inserted, if any. */
  function Made(q: Request): Option<Url> {
    if |q.inserts| > 0 && q.inserts[|q.inserts| - 1].Inserted? then Some(q.inserts[|q.inserts| - 1].url) else None
  }

  predicate Initial(s: State) {
    s.records == map[] && s.urls == EMPTY && s.requests == map[] && s.held == map[] && s.dead == {}
    && s.owner == map[] && s.author == map[]
  }

  predicate At(s: State, r: nat, pc: PC) {
    r in s.requests && s.requests[r].pc == pc
  }

  /** The checks that the handler and the services make before anything is inserted. */
  predicate Acceptable(q: Request) {
    q.valid && q.user > 0 && (q.alias.Some? ==> CodeShaped(q.alias.value))
  }

  /** Codes CreateShortURL can draw, or the one name CreateShortURLWithAlias asks for. */
  predicate Insertable(q: Request, code: string) {
    Acceptable(q) && if q.alias.Some? then code == q.alias.value else GeneratedShape(code)
  }

  /** No INSERT is made: a check fails, or no random code can be drawn. */
  predicate Refusable(q: Request) {
    !Acceptable(q) || q.alias.None?
  }

  predicate Enabled(s: State, a: Action) {
    match a
    case Arrive(r, p, _, _, _, _, _, _) => r !in s.requests && p !in s.dead
    case Acquire(r) => At(s, r, Arrived) && s.requests[r].key.Some? && LockOf(s.requests[r]) !in s.held
    case Read(r, _) => At(s, r, Checking) && s.requests[r].key.Some?
    case Reserve(r, _) => At(s, r, Reserving) && s.requests[r].key.Some?
    case ReadAgain(r, _) => At(s, r, Rechecking) && s.requests[r].key.Some?
    case Refuse(r) => r in s.requests && s.requests[r].pc.Creating? && Refusable(s.requests[r])
    case Insert(r, code, _, _) => r in s.requests && s.requests[r].pc.Creating? && Insertable(s.requests[r], code)
    case Complete(r, _) => r in s.requests && s.requests[r].pc.Completing? && s.requests[r].key.Some?
    case Release(r) =>
      && r in s.requests && s.requests[r].pc.Finished? && s.requests[r].key.Some?
      && LockOf(s.requests[r]) in s.held && s.held[LockOf(s.requests[r])] == r
    case UpdateRow(_) => true
    case DeleteRow(_) => true
    case Crash(_) => true
  }

  function Move(s: State, r: nat, pc: PC, fate: Fate): State
    requires r in s.requests
  {
    s.(requests := s.requests[r := s.requests[r].(pc := pc, faulted := s.requests[r].faulted || fate != Normal)])
  }

  /** Lines 292-320 and 336-372: what a request does with the record it read. */
  function AfterRead(found: Option<Record>, absent: PC): PC {
    match found
    case None => absent
    case Some(rec) => Finished(if rec.state == Pending then InProgress else Replied(rec.status, rec.body))
  }

  function Find(records: Rows, k: Key): Option<Record> {
    if k in records then Some(records[k]) else None
  }

  /** Where a lookup takes a request. */
  function Looked(s: State, r: nat, fate: Fate, absent: PC): PC
    requires r in s.requests && s.requests[r].key.Some?
  {
    if fate != Normal then Finished(ServerError) else AfterRead(Find(s.records, PairOf(s.requests[r])), absent)
  }

  /** The request's next step after INSERT number q.inserts has come to `outcome`. */
  function AfterInsert(q: Request, outcome: Outcome, fate: Fate): PC
    requires q.pc.Creating?
  {
    if fate != Normal then Finished(Rejected(Unstored))
    else match outcome
      case Inserted(u) =>
        if q.key.Some? then Completing(BodyOf(u, q.base)) else Finished(Replied(CREATED, BodyOf(u, q.base)))
      case Collided =>
        if q.alias.Some? then Finished(Rejected(NameTaken))
        else if q.pc.attempt + 1 == MAX_ATTEMPTS then Finished(Rejected(Exhausted))
        else Creating(q.pc.attempt + 1)
      case Lost => Finished(Rejected(Unstored))
  }

  function OutcomeOf(s: State, q: Request, code: string, at: int, fate: Fate): Outcome {
    if fate == LostBefore then Lost
    else match UrlStore.Insert(s.urls, NewUrl(code, q.alias, q.destination, q.user), at).1
      case Ok(u) => Inserted(u)
      case Err(_) => if fate == Normal then Collided else Lost
  }

  /** The request after its INSERT came to `o`. */
  function Inserter(q: Request, o: Outcome, fate: Fate): Request
    requires q.pc.Creating?
  {
    q.(inserts := q.inserts + [o], pc := AfterInsert(q, o, fate), faulted := q.faulted || fate != Normal)
  }

  function DoInsert(s: State, r: nat, code: string, at: int, fate: Fate): State
    requires r in s.requests && s.requests[r].pc.Creating?
  {
    var q := s.requests[r];
    var o := OutcomeOf(s, q, code, at, fate);
    var moved := s.(requests := s.requests[r := Inserter(q, o, fate)]);
    if o.Inserted?
    then moved.(urls := UrlStore.Insert(s.urls, NewUrl(code, q.alias, q.destination, q.user), at).0,
        author := s.author[o.url.id := r])
    else moved
  }

  function DoReserve(s: State, r: nat, fate: Fate): State
    requires r in s.requests && s.requests[r].key.Some?
  {
    var k := PairOf(s.requests[r]);
    var (rows, won) := if fate == LostBefore then (s.records, false) else ReserveRow(s.records, k);
    var moved := Move(s, r, if fate != Normal then Finished(ServerError) else if won then Creating(0)
        else Rechecking, fate);
    moved.(records := rows, owner := if won then s.owner[k := r] else s.owner)
  }

  function DoComplete(s: State, r: nat, fate: Fate): State
    requires r in s.requests && s.requests[r].pc.Completing? && s.requests[r].key.Some?
  {
    var q := s.requests[r];
    var (rows, affected) := if fate == LostBefore then (s.records, 0)
        else CompleteRow(s.records, PairOf(q), q.pc.pending, CREATED);
    var reply := if fate == Normal && affected == 1 then Replied(CREATED, q.pc.pending) else ServerError;
    Move(s, r, Finished(reply), fate).(records := rows)
  }

  /** A crash ends every unfinished request of the process; its lock table is gone with it. */
  function CrashRequest(q: Request, p: nat): Request {
    if q.process == p && !q.pc.Finished? then q.(pc := Crashed) else q
  }

  function Do(s: State, a: Action): State
    requires Enabled(s, a)
  {
    match a
    case Arrive(r, p, user, key, valid, destination, alias, base) =>
      var pc := if key.Some? then Arrived else Creating(0);
      s.(requests := s.requests[r := Request(p, user, key, valid, destination, alias, base, pc, [], false)])
    case Acquire(r) => Move(s, r, Checking, Normal).(held := s.held[LockOf(s.requests[r]) := r])
    case Read(r, fate) => Move(s, r, Looked(s, r, fate, Reserving), fate)
    case Reserve(r, fate) => DoReserve(s, r, fate)
    case ReadAgain(r, fate) => Move(s, r, Looked(s, r, fate, Finished(ServerError)), fate)
    case Refuse(r) => Move(s, r, Finished(Rejected(Invalid)), Normal)
    case Insert(r, code, at, fate) => DoInsert(s, r, code, at, fate)
    case Complete(r, fate) => DoComplete(s, r, fate)
    case Release(r) => s.(held := s.held - {LockOf(s.requests[r])})
    case UpdateRow(u) => s.(urls := Update(s.urls, u).0)
    case DeleteRow(id) => s.(urls := Delete(s.urls, id).0)
    case Crash(p) =>
      s.(requests := map r <- s.requests :: CrashRequest(s.requests[r], p), dead := s.dead + {p})
  }

  predicate Runs(s: State, acts: seq<Action>)
    decreases |acts|
  {
    acts == [] || (Enabled(s, acts[0]) && Runs(Do(s, acts[0]), acts[1..]))
  }

  function After(s: State, acts: seq<Action>): State
    requires Runs(s, acts)
    decreases |acts|
  {
    if acts == [] then s else After(Do(s, acts[0]), acts[1..])
  }

  /** All that an INSERT changes besides the urls table and its authors. */
  lemma InsertShape(s: State, r: nat, code: string, at: int, fate: Fate)
    requires r in s.requests && s.requests[r].pc.Creating?
    ensures var s' := DoInsert(s, r, code, at, fate);
            && s'.requests == s.requests[r := Inserter(s.requests[r], OutcomeOf(s, s.requests[r], code, at, fate),
                fate)]
            && s'.records == s.records && s'.owner == s.owner && s'.held == s.held && s'.dead == s.dead
    ensures fate == Normal ==> !OutcomeOf(s, s.requests[r], code, at, fate).Lost?
  {
  }

  /** The action is a step of the request, or the end of its process. */
  predicate Concerns(s: State, a: Action, r: nat)
    requires r in s.requests
  {
    match a
    case Arrive(id, _, _, _, _, _, _, _) => id == r
    case Acquire(id) => id == r
    case Read(id, _) => id == r
    case Reserve(id, _) => id == r
    case ReadAgain(id, _) => id == r
    case Refuse(id) => id == r
    case Insert(id, _, _, _) => id == r
    case Complete(id, _) => id == r
    case Release(id) => id == r
    case UpdateRow(_) => false
    case DeleteRow(_) => false
    case Crash(p) => p == s.requests[r].process
  }

  predicate HoldsLock(s: State, r: nat) {
    && r in s.requests && s.requests[r].key.Some?
    && LockOf(s.requests[r]) in s.held && s.held[LockOf(s.requests[r])] == r
  }

  lemma OthersLeaveAlone(s: State, a: Action, r: nat)
    requires r in s.requests && Enabled(s, a) && !Concerns(s, a, r)
    ensures r in Do(s, a).requests && Do(s, a).requests[r] == s.requests[r]
    ensures HoldsLock(s, r) ==> HoldsLock(Do(s, a), r)
  {
    match a
    case Insert(q, code, at, fate) => InsertShape(s, q, code, at, fate);
    case Reserve(q, fate) => assert Do(s, a) == DoReserve(s, q, fate);
    case Complete(q, fate) => assert Do(s, a) == DoComplete(s, q, fate);
    case _ =>
  }

  // ---- Invariant ----

  /** The first n INSERTs were collisions. */
  predicate Collisions(inserts: seq<Outcome>, n: nat) {
    n <= |inserts| && forall k :: 0 <= k < n ==> inserts[k] == Collided
  }

  predicate AllCollisions(inserts: seq<Outcome>) {
    Collisions(inserts, |inserts|)
  }

  /** At most ten INSERTs, and only a collision is followed by another one. */
  predicate InsertsOk(inserts: seq<Outcome>) {
    |inserts| <= MAX_ATTEMPTS && (|inserts| > 0 ==> Collisions(inserts, |inserts| - 1))
  }

  /** The row leads where the request's body says, under its alias, if any, for its user. */
  predicate AskedFor(q: Request, u: Url) {
    && u.originalURL == TrimSpace(q.destination) && u.customAlias == q.alias && u.userID == Some(q.user)
    && (q.alias.Some? ==> u.shortCode == q.alias.value)
    && u.isActive && u.expiresAt == None
  }

  /** What the request's own history says about where it stands. */
  predicate LocalOk(q: Request) {
    && InsertsOk(q.inserts)
    && (q.inserts != [] ==> Acceptable(q))
    && (Made(q).Some? ==> AskedFor(q, Made(q).value))
    && match q.pc
       case Arrived => q.inserts == [] && q.key.Some?
       case Checking => q.inserts == [] && q.key.Some?
       case Reserving => q.inserts == [] && q.key.Some?
       case Rechecking => q.inserts == [] && q.key.Some?
       case Creating(n) => |q.inserts| == n < MAX_ATTEMPTS && AllCollisions(q.inserts)
       case Completing(body) => q.key.Some? && Made(q).Some? && body == BodyOf(Made(q).value, q.base)
       case Finished(Rejected(Exhausted)) => |q.inserts| == MAX_ATTEMPTS && AllCollisions(q.inserts)
       case Finished(Replied(status, body)) =>
         q.key.None? ==> status == CREATED && Made(q).Some? && body == BodyOf(Made(q).value, q.base)
       case _ => true
  }

  /** How a request with an Idempotency-Key relates to the record of its pair. */
  predicate KeyedOk(records: Rows, owner: map<Key, nat>, r: nat, q: Request)
    requires q.key.Some?
  {
    var k := PairOf(q);
    // Only the owner of the reservation ever creates.
    && (q.inserts != [] || q.pc.Creating? || q.pc.Completing? || (q.pc.Finished? && q.pc.reply.Rejected?) ==>
          k in owner && owner[k] == r && k in records)
    && (q.pc.Arrived? || q.pc.Checking? || q.pc.Reserving? || q.pc.Rechecking? ==> !(k in owner && owner[k] == r))
    && (q.pc.Creating? || q.pc.Completing? ==> k in records && records[k] == RESERVATION)
    && (q.pc.Finished? && q.pc.reply.Replied? ==>
          k in records && records[k] == Record(q.pc.reply.body, q.pc.reply.status, Completed))
  }

  predicate RequestOk(s: State, r: nat)
    requires r in s.requests
  {
    var q := s.requests[r];
    && LocalOk(q)
    && (q.key.Some? ==> KeyedOk(s.records, s.owner, r, q))
    && (Made(q).Some? ==>
          Made(q).value.id < s.urls.nextId && Made(q).value.id in s.author && s.author[Made(q).value.id] == r)
  }

  /** A completed record names the URL its owner created. */
  predicate RecordOk(s: State, k: Key)
    requires k in s.records
  {
    && k in s.owner && s.owner[k] in s.requests
    && var q := s.requests[s.owner[k]];
       && q.key.Some? && PairOf(q) == k
       && (s.records[k].state == Pending ==> s.records[k] == RESERVATION)
       && (s.records[k].state == Completed ==>
             s.records[k].status == CREATED && Made(q).Some? && s.records[k].body == BodyOf(Made(q).value, q.base))
  }

  predicate RowOk(s: State, id: int)
    requires id in s.urls.rows
  {
    && CodeShaped(s.urls.rows[id].shortCode)
    && id in s.author && s.author[id] in s.requests
    && Made(s.requests[s.author[id]]).Some?
    && Made(s.requests[s.author[id]]).value.id == id
    && Made(s.requests[s.author[id]]).value.shortCode == s.urls.rows[id].shortCode
  }

  ghost predicate Inv(s: State) {
    && Consistent(s.urls)
    && s.owner.Keys == s.records.Keys
    && (forall r <- s.requests :: RequestOk(s, r))
    && (forall k <- s.records :: RecordOk(s, k))
    && (forall id <- s.urls.rows :: RowOk(s, id))
    && (forall id <- s.author :: id < s.urls.nextId)
  }

  // ---- One step of one request ----

  predicate SameAt(s: State, s': State, k: Key) {
    && (k in s.records <==> k in s'.records) && (k in s.records ==> s.records[k] == s'.records[k])
    && (k in s.owner <==> k in s'.owner) && (k in s.owner ==> s.owner[k] == s'.owner[k])
  }

  /** What a step of request `actor` can do to the record of a pair: nothing, reserve it, or
      complete its own reservation. */
  predicate KeyStep(s: State, s': State, k: Key, actor: nat) {
    || SameAt(s, s', k)
    || (k !in s.records && k in s'.records && s'.records[k] == RESERVATION && k in s'.owner && s'.owner[k] == actor)
    || (&& k in s.records && s.records[k] == RESERVATION && k in s.owner && s.owner[k] == actor
        && k in s'.records && s'.records[k].state == Completed && k in s'.owner && s'.owner[k] == actor)
  }

  /** The request is still the same call, and what it has created stays created. */
  predicate SameCall(q: Request, q': Request) {
    && q'.process == q.process && q'.user == q.user && q'.key == q.key && q'.valid == q.valid
    && q'.destination == q.destination && q'.base == q.base && q'.alias == q.alias
    && (Made(q).Some? ==> Made(q') == Made(q))
  }

  /** Only `actor` moved, and it is in order again. */
  ghost predicate CallsMoved(s: State, s': State, actor: nat) {
    && s.requests.Keys <= s'.requests.Keys <= s.requests.Keys + {actor}
    && (forall r <- s.requests :: r != actor ==> s'.requests[r] == s.requests[r])
    && (actor in s'.requests ==> RequestOk(s', actor))
    && (actor in s.requests ==> SameCall(s.requests[actor], s'.requests[actor]))
  }

  /** The records `actor` changed are in order again. */
  ghost predicate RecordsMoved(s: State, s': State, actor: nat) {
    && s'.owner.Keys == s'.records.Keys
    && (forall k :: KeyStep(s, s', k, actor))
    && (forall k <- s'.records :: SameAt(s, s', k) || RecordOk(s', k))
  }

  /** So are the rows of the urls table. */
  ghost predicate RowsMoved(s: State, s': State) {
    && Consistent(s'.urls) && s.urls.nextId <= s'.urls.nextId
    && (forall id <- s.author :: id in s'.author && s'.author[id] == s.author[id])
    && (forall id <- s'.author :: id < s'.urls.nextId)
    && (forall id <- s'.urls.rows ::
          || (id in s.urls.rows && s'.urls.rows[id].shortCode == s.urls.rows[id].shortCode)
          || RowOk(s', id))
  }

  ghost predicate OneMoved(s: State, s': State, actor: nat) {
    CallsMoved(s, s', actor) && RecordsMoved(s, s', actor) && RowsMoved(s, s')
  }

  lemma CallMoved(s: State, s': State, r: nat)
    requires r in s.requests && r in s'.requests && s'.requests == s.requests[r := s'.requests[r]]
    requires RequestOk(s', r) && SameCall(s.requests[r], s'.requests[r])
    ensures CallsMoved(s, s', r)
  {
  }

  lemma RecordsUntouched(s: State, s': State, actor: nat)
    requires Inv(s) && s'.records == s.records && s'.owner == s.owner
    ensures RecordsMoved(s, s', actor)
  {
  }

  lemma OneRecordMoved(s: State, s': State, actor: nat, k: Key)
    requires s.owner.Keys == s.records.Keys && s'.owner.Keys == s'.records.Keys == s.records.Keys + {k}
    requires KeyStep(s, s', k, actor) && RecordOk(s', k)
    requires forall j <- s.records :: j != k ==> s'.records[j] == s.records[j] && s'.owner[j] == s.owner[j]
    ensures RecordsMoved(s, s', actor)
  {
    forall j | j != k ensures SameAt(s, s', j) {
      assert j in s.records <==> j in s'.records;
    }
  }

  lemma RowsUntouched(s: State, s': State)
    requires Inv(s) && s'.urls == s.urls && s'.author == s.author
    ensures RowsMoved(s, s')
  {
  }

  lemma BystanderKept(s: State, s': State, actor: nat, r: nat)
    requires Inv(s) && OneMoved(s, s', actor) && r in s'.requests && r != actor
    ensures RequestOk(s', r)
  {
    assert RequestOk(s, r);
    var q := s.requests[r];
    if q.key.Some? {
      assert KeyStep(s, s', PairOf(q), actor);
    }
  }

  lemma RecordKept(s: State, s': State, actor: nat, k: Key)
    requires Inv(s) && OneMoved(s, s', actor) && k in s'.records
    ensures RecordOk(s', k)
  {
    if SameAt(s, s', k) {
      assert RecordOk(s, k);
    }
  }

  lemma RowKept(s: State, s': State, actor: nat, id: int)
    requires Inv(s) && OneMoved(s, s', actor) && id in s'.urls.rows
    ensures RowOk(s', id)
  {
    if id in s.urls.rows {
      assert RowOk(s, id);
    }
  }

  lemma OneMovedKeepsInv(s: State, s': State, actor: nat)
    requires Inv(s) && OneMoved(s, s', actor)
    ensures Inv(s')
  {
    forall r <- s'.requests ensures RequestOk(s', r) {
      if r != actor {
        BystanderKept(s, s', actor, r);
      }
    }
    forall k <- s'.records { RecordKept(s, s', actor, k); }
    forall id <- s'.urls.rows { RowKept(s, s', actor, id); }
  }

  lemma ArriveKeepsInv(s: State, a: Action)
    requires Inv(s) && Enabled(s, a) && a.Arrive?
    ensures Inv(Do(s, a))
  {
    RecordsUntouched(s, Do(s, a), a.id);
    RowsUntouched(s, Do(s, a));
    OneMovedKeepsInv(s, Do(s, a), a.id);
  }

  /** One request moves on without touching a table. */
  lemma QuietMoveKeepsInv(s: State, s': State, r: nat)
    requires Inv(s) && r in s.requests && r in s'.requests && s' == s.(requests := s.requests[r := s'.requests[r]])
    requires RequestOk(s', r) && SameCall(s.requests[r], s'.requests[r])
    ensures Inv(s')
  {
    CallMoved(s, s', r);
    RecordsUntouched(s, s', r);
    RowsUntouched(s, s');
    OneMovedKeepsInv(s, s', r);
  }

  lemma MoveKeepsInv(s: State, r: nat, pc: PC, fate: Fate)
    requires Inv(s) && r in s.requests && RequestOk(Move(s, r, pc, fate), r)
    ensures Inv(Move(s, r, pc, fate))
  {
    QuietMoveKeepsInv(s, Move(s, r, pc, fate), r);
  }

  lemma LookerOk(s: State, r: nat, fate: Fate, absent: PC)
    requires (At(s, r, Checking) || At(s, r, Rechecking)) && (absent == Reserving || absent == Finished(ServerError))
    requires s.requests[r].key.Some? && RequestOk(s, r)
    requires PairOf(s.requests[r]) in s.records ==> RecordOk(s, PairOf(s.requests[r]))
    ensures RequestOk(Move(s, r, Looked(s, r, fate, absent), fate), r)
  {
  }

  lemma ReadKeepsInv(s: State, r: nat, fate: Fate, absent: PC)
    requires Inv(s) && (At(s, r, Checking) || At(s, r, Rechecking)) && s.requests[r].key.Some?
    requires absent == Reserving || absent == Finished(ServerError)
    ensures Inv(Move(s, r, Looked(s, r, fate, absent), fate))
  {
    LookerOk(s, r, fate, absent);
    MoveKeepsInv(s, r, Looked(s, r, fate, absent), fate);
  }

  /** The request is the first to reserve its pair and moves on, or fails unaware of it. */
  predicate FirstReserved(s: State, s': State, r: nat) {
    && At(s, r, Reserving) && s.requests[r].key.Some? && PairOf(s.requests[r]) !in s.records
    && (At(s', r, Creating(0)) || At(s', r, Finished(ServerError)))
    && s' == s.(records := s.records[PairOf(s.requests[r]) := RESERVATION],
                owner := s.owner[PairOf(s.requests[r]) := r],
                requests := s.requests[r := s.requests[r].(pc := s'.requests[r].pc, faulted := s'.requests[r].faulted)])
  }

  lemma ReserverOk(s: State, s': State, r: nat)
    requires FirstReserved(s, s', r) && RequestOk(s, r)
    ensures SameCall(s.requests[r], s'.requests[r]) && RequestOk(s', r) && RecordOk(s', PairOf(s.requests[r]))
    ensures KeyStep(s, s', PairOf(s.requests[r]), r)
  {
  }

  lemma ReservedRecordsMoved(s: State, s': State, r: nat)
    requires Inv(s) && FirstReserved(s, s', r)
    ensures RecordsMoved(s, s', r)
  {
    ReserverOk(s, s', r);
    OneRecordMoved(s, s', r, PairOf(s.requests[r]));
  }

  lemma FirstReservedKeepsInv(s: State, s': State, r: nat)
    requires Inv(s) && FirstReserved(s, s', r)
    ensures Inv(s')
  {
    ReservedRecordsMoved(s, s', r);
    ReserverOk(s, s', r);
    CallMoved(s, s', r);
    RowsUntouched(s, s');
    OneMovedKeepsInv(s, s', r);
  }

  /** A reservation is either the first or changes no table. */
  lemma ReserveCases(s: State, r: nat, fate: Fate)
    requires At(s, r, Reserving) && s.requests[r].key.Some?
    ensures fate != LostBefore && PairOf(s.requests[r]) !in s.records ==> FirstReserved(s, DoReserve(s, r, fate), r)
    ensures fate == LostBefore || PairOf(s.requests[r]) in s.records ==>
              DoReserve(s, r, fate) == Move(s, r, if fate != Normal then Finished(ServerError) else Rechecking, fate)
  {
  }

  lemma LoserOk(s: State, r: nat, fate: Fate)
    requires At(s, r, Reserving) && s.requests[r].key.Some? && RequestOk(s, r)
    ensures RequestOk(Move(s, r, if fate != Normal then Finished(ServerError) else Rechecking, fate), r)
  {
  }

  lemma ReserveKeepsInv(s: State, r: nat, fate: Fate)
    requires Inv(s) && At(s, r, Reserving) && s.requests[r].key.Some?
    ensures Inv(DoReserve(s, r, fate))
  {
    ReserveCases(s, r, fate);
    if fate == LostBefore || PairOf(s.requests[r]) in s.records {
      LoserOk(s, r, fate);
      MoveKeepsInv(s, r, if fate != Normal then Finished(ServerError) else Rechecking, fate);
    } else {
      FirstReservedKeepsInv(s, DoReserve(s, r, fate), r);
    }
  }

  /** The owner has completed its record and replies, or fails unaware of it. */
  predicate JustCompleted(s: State, s': State, r: nat) {
    && r in s.requests && s.requests[r].pc.Completing? && s.requests[r].key.Some? && r in s'.requests
    && (s'.requests[r].pc == Finished(Replied(CREATED, s.requests[r].pc.pending))
        || s'.requests[r].pc == Finished(ServerError))
    && s' == s.(records := s.records[PairOf(s.requests[r]) := Record(s.requests[r].pc.pending, CREATED, Completed)],
                requests := s.requests[r := s.requests[r].(pc := s'.requests[r].pc, faulted := s'.requests[r].faulted)])
  }

  lemma CompleterOk(s: State, s': State, r: nat)
    requires JustCompleted(s, s', r) && RequestOk(s, r)
    ensures SameCall(s.requests[r], s'.requests[r]) && RequestOk(s', r) && RecordOk(s', PairOf(s.requests[r]))
    ensures KeyStep(s, s', PairOf(s.requests[r]), r)
  {
  }

  lemma CompletedRecordsMoved(s: State, s': State, r: nat)
    requires Inv(s) && JustCompleted(s, s', r)
    ensures RecordsMoved(s, s', r)
  {
    CompleterOk(s, s', r);
    OneRecordMoved(s, s', r, PairOf(s.requests[r]));
  }

  lemma JustCompletedKeepsInv(s: State, s': State, r: nat)
    requires Inv(s) && JustCompleted(s, s', r)
    ensures Inv(s')
  {
    CompletedRecordsMoved(s, s', r);
    CompleterOk(s, s', r);
    CallMoved(s, s', r);
    RowsUntouched(s, s');
    OneMovedKeepsInv(s, s', r);
  }

  /** The owner's UPDATE finds its record pending unless it never ran. */
  lemma CompleteCases(s: State, r: nat, fate: Fate)
    requires r in s.requests && s.requests[r].pc.Completing? && s.requests[r].key.Some? && RequestOk(s, r)
    ensures fate != LostBefore ==> JustCompleted(s, DoComplete(s, r, fate), r)
    ensures fate == LostBefore ==> DoComplete(s, r, fate) == Move(s, r, Finished(ServerError), fate)
                                   && RequestOk(Move(s, r, Finished(ServerError), fate), r)
  {
  }

  lemma CompleteKeepsInv(s: State, r: nat, fate: Fate)
    requires Inv(s) && r in s.requests && s.requests[r].pc.Completing? && s.requests[r].key.Some?
    ensures Inv(DoComplete(s, r, fate))
  {
    CompleteCases(s, r, fate);
    if fate == LostBefore {
      MoveKeepsInv(s, r, Finished(ServerError), fate);
    } else {
      JustCompletedKeepsInv(s, DoComplete(s, r, fate), r);
    }
  }

  lemma InserterFacts(q: Request, o: Outcome, fate: Fate)
    requires LocalOk(q) && q.pc.Creating? && Acceptable(q) && (o.Inserted? ==> AskedFor(q, o.url))
    ensures LocalOk(Inserter(q, o, fate))
    ensures Made(q) == None && Made(Inserter(q, o, fate)) == if o.Inserted? then Some(o.url) else None
    ensures !Inserter(q, o, fate).pc.Crashed?
  {
    assert (q.inserts + [o])[|q.inserts|] == o;
    assert Collisions(q.inserts + [o], |q.inserts|);
  }

  /** An INSERT that adds no row. */
  lemma FailedInsertKeepsInv(s: State, r: nat, o: Outcome, fate: Fate)
    requires Inv(s) && r in s.requests && s.requests[r].pc.Creating? && Acceptable(s.requests[r]) && !o.Inserted?
    ensures Inv(s.(requests := s.requests[r := Inserter(s.requests[r], o, fate)]))
  {
    var s' := s.(requests := s.requests[r := Inserter(s.requests[r], o, fate)]);
    FailedInserterOk(s, s', r, o, fate);
    QuietMoveKeepsInv(s, s', r);
  }

  lemma FailedInserterOk(s: State, s': State, r: nat, o: Outcome, fate: Fate)
    requires r in s.requests && s.requests[r].pc.Creating? && Acceptable(s.requests[r]) && !o.Inserted?
        && RequestOk(s, r)
    requires s' == s.(requests := s.requests[r := Inserter(s.requests[r], o, fate)])
    ensures RequestOk(s', r) && SameCall(s.requests[r], s'.requests[r])
  {
    InserterFacts(s.requests[r], o, fate);
  }

  /** The request has inserted the row u. */
  predicate JustInserted(s: State, s': State, r: nat, row: Url, at: int, u: Url, fate: Fate) {
    && r in s.requests && s.requests[r].pc.Creating? && Acceptable(s.requests[r])
    && UrlStore.Insert(s.urls, row, at).1 == Ok(u) && CodeShaped(row.shortCode) && AskedFor(s.requests[r], u)
    && s' == s.(requests := s.requests[r := Inserter(s.requests[r], Inserted(u), fate)],
                urls := UrlStore.Insert(s.urls, row, at).0, author := s.author[u.id := r])
  }

  lemma RowInserterOk(s: State, s': State, r: nat, row: Url, at: int, u: Url, fate: Fate)
    requires JustInserted(s, s', r, row, at, u, fate) && RequestOk(s, r)
    ensures RequestOk(s', r) && SameCall(s.requests[r], s'.requests[r]) && u.id in s'.urls.rows && RowOk(s', u.id)
  {
    InserterFacts(s.requests[r], Inserted(u), fate);
  }

  lemma OneRowMoved(s: State, s': State, r: nat, row: Url, at: int, u: Url, fate: Fate)
    requires Inv(s) && JustInserted(s, s', r, row, at, u, fate) && u.id in s'.urls.rows && RowOk(s', u.id)
    ensures RowsMoved(s, s')
  {
    UrlStore.StatementsKeepConsistency(s.urls, row, at, 0);
  }

  /** An INSERT that adds a row. */
  lemma RowInsertKeepsInv(s: State, s': State, r: nat, row: Url, at: int, u: Url, fate: Fate)
    requires Inv(s) && JustInserted(s, s', r, row, at, u, fate)
    ensures Inv(s')
  {
    RowInserterOk(s, s', r, row, at, u, fate);
    CallMoved(s, s', r);
    RecordsUntouched(s, s', r);
    OneRowMoved(s, s', r, row, at, u, fate);
    OneMovedKeepsInv(s, s', r);
  }

  lemma InsertKeepsInv(s: State, r: nat, code: string, at: int, fate: Fate)
    requires Inv(s) && Enabled(s, Insert(r, code, at, fate))
    ensures Inv(DoInsert(s, r, code, at, fate))
  {
    var q := s.requests[r];
    var o := OutcomeOf(s, q, code, at, fate);
    if o.Inserted? {
      var row := NewUrl(code, q.alias, q.destination, q.user);
      RowInsertKeepsInv(s, DoInsert(s, r, code, at, fate), r, row, at, o.url, fate);
    } else {
      FailedInsertKeepsInv(s, r, o, fate);
    }
  }

  /** Editing or deleting a stored URL, by whoever. */
  lemma EditedRowsKeepInv(s: State, urls: Table)
    requires Inv(s) && Consistent(urls) && urls.nextId == s.urls.nextId
    requires forall id <- urls.rows :: id in s.urls.rows && urls.rows[id].shortCode == s.urls.rows[id].shortCode
    ensures Inv(s.(urls := urls))
  {
  }

  lemma UrlEditKeepsInv(s: State, a: Action)
    requires Inv(s) && Enabled(s, a) && (a.UpdateRow? || a.DeleteRow?)
    ensures Inv(Do(s, a))
  {
    if a.UpdateRow? {
      UrlStore.StatementsKeepConsistency(s.urls, a.url, 0, 0);
    } else {
      UrlStore.StatementsKeepConsistency(s.urls, NewUrl("", None, "", 0), 0, a.row);
    }
    EditedRowsKeepInv(s, Do(s, a).urls);
  }

  /** The locks say nothing about the tables. */
  lemma LocksAreIndependent(s: State, held: map<Lock, nat>, dead: set<nat>)
    requires Inv(s)
    ensures Inv(s.(held := held, dead := dead))
  {
  }

  lemma CrashedRequestOk(s: State, p: nat, r: nat)
    requires r in s.requests && RequestOk(s, r)
    ensures SameCall(s.requests[r], CrashRequest(s.requests[r], p))
    ensures RequestOk(s.(requests := map q <- s.requests :: CrashRequest(s.requests[q], p)), r)
  {
  }

  lemma CrashKeepsInv(s: State, p: nat)
    requires Inv(s)
    ensures Inv(s.(requests := map r <- s.requests :: CrashRequest(s.requests[r], p), dead := s.dead + {p}))
  {
    var s' := s.(requests := map r <- s.requests :: CrashRequest(s.requests[r], p));
    forall r <- s'.requests ensures RequestOk(s', r) {
      CrashedRequestOk(s, p, r);
    }
    forall k <- s'.records ensures RecordOk(s', k) {
      assert RecordOk(s, k);
      CrashedRequestOk(s, p, s.owner[k]);
    }
    forall id <- s'.urls.rows ensures RowOk(s', id) {
      assert RowOk(s, id);
      CrashedRequestOk(s, p, s.author[id]);
    }
    LocksAreIndependent(s', s.held, s.dead + {p});
  }

  lemma AcquireKeepsInv(s: State, r: nat)
    requires Inv(s) && Enabled(s, Acquire(r))
    ensures Inv(Do(s, Acquire(r)))
  {
    assert RequestOk(s, r);
    MoveKeepsInv(s, r, Checking, Normal);
    LocksAreIndependent(Move(s, r, Checking, Normal), s.held[LockOf(s.requests[r]) := r], s.dead);
  }

  lemma RefuseKeepsInv(s: State, r: nat)
    requires Inv(s) && Enabled(s, Refuse(r))
    ensures Inv(Do(s, Refuse(r)))
  {
    assert RequestOk(s, r);
    MoveKeepsInv(s, r, Finished(Rejected(Invalid)), Normal);
  }

  lemma StepKeepsInv(s: State, a: Action)
    requires Inv(s) && Enabled(s, a)
    ensures Inv(Do(s, a))
  {
    match a
    case Arrive(_, _, _, _, _, _, _, _) => ArriveKeepsInv(s, a);
    case Read(r, fate) => ReadKeepsInv(s, r, fate, Reserving);
    case ReadAgain(r, fate) => ReadKeepsInv(s, r, fate, Finished(ServerError));
    case Reserve(r, fate) => ReserveKeepsInv(s, r, fate);
    case Insert(r, code, at, fate) => InsertKeepsInv(s, r, code, at, fate);
    case Complete(r, fate) => CompleteKeepsInv(s, r, fate);
    case Acquire(r) => AcquireKeepsInv(s, r);
    case Release(r) => LocksAreIndependent(s, s.held - {LockOf(s.requests[r])}, s.dead);
    case Refuse(r) => RefuseKeepsInv(s, r);
    case UpdateRow(_) => UrlEditKeepsInv(s, a);
    case DeleteRow(_) => UrlEditKeepsInv(s, a);
    case Crash(p) => CrashKeepsInv(s, p);
  }

  lemma {:induction false} RunKeepsInv(s: State, acts: seq<Action>)
    requires Inv(s) && Runs(s, acts)
    ensures Inv(After(s, acts))
    decreases |acts|
  {
    if acts == [] {
    } else {
      StepKeepsInv(s, acts[0]);
      RunKeepsInv(Do(s, acts[0]), acts[1..]);
    }
  }

  // ---- Main results ----

  ghost predicate Reachable(s: State) {
    exists s0, acts :: Initial(s0) && Runs(s0, acts) && After(s0, acts) == s
  }

  lemma ReachableInv(s: State)
    requires Reachable(s)
    ensures Inv(s)
  {
    var s0, acts :| Initial(s0) && Runs(s0, acts) && After(s0, acts) == s;
    RunKeepsInv(s0, acts);
  }

  /** The requests with this pair that have created a URL. */
  function Creators(s: State, k: Key): set<nat> {
    set r <- s.requests | s.requests[r].key.Some? && PairOf(s.requests[r]) == k && Made(s.requests[r]).Some?
  }

  /** Request r has inserted row `id`. */
  predicate Inserts(s: State, r: nat, id: int) {
    r in s.requests && Made(s.requests[r]).Some? && Made(s.requests[r]).value.id == id
  }

  /** The body names the URL that request c has created, by its id, its code, and the code
      behind the public base URL, and that URL is what c asked for. */
  predicate Names(s: State, body: Body, c: nat) {
    && body.Created? && Inserts(s, c, body.id) && Made(s.requests[c]).value.shortCode == body.shortCode
    && body.shortURL == s.requests[c].base + "/" + body.shortCode
    && AskedFor(s.requests[c], Made(s.requests[c]).value)
  }

  /** Whatever crashes and whatever replies are lost, a pair causes at most one creation: none
      while it has no record, at most one while its record is pending, and exactly one, named
      by the stored body, once the record is completed. */
  lemma AtMostOneCreation(s: State, k: Key)
    requires Reachable(s)
    ensures k !in s.records ==> Creators(s, k) == {}
    ensures |Creators(s, k)| <= 1
    ensures k in s.records && s.records[k].state == Completed ==>
              s.records[k].status == 201 && exists r :: Creators(s, k) == {r} && Names(s, s.records[k].body, r)
  {
    ReachableInv(s);
    forall r <- Creators(s, k) ensures k in s.owner && s.owner[k] == r && k in s.records {
      assert RequestOk(s, r);
    }
    if k in s.records {
      assert RecordOk(s, k);
      assert Creators(s, k) <= {s.owner[k]};
      SubsetCount(Creators(s, k), s.owner[k]);
      if s.records[k].state == Completed {
        assert Creators(s, k) == {s.owner[k]} && Names(s, s.records[k].body, s.owner[k]);
      }
    } else {
      assert Creators(s, k) == {};
    }
  }

  lemma SubsetCount(a: set<nat>, r: nat)
    requires a <= {r}
    ensures |a| <= 1
  {
    assert a == {} || a == {r};
  }

  /** Stored short codes are pairwise distinct and well shaped; each stored row was inserted
      by exactly one request, and no request ever inserts two. */
  lemma StoredCodesAreSound(s: State, a: int, b: int)
    requires Reachable(s) && a in s.urls.rows && b in s.urls.rows
    ensures 3 <= |s.urls.rows[a].shortCode| <= 32
    ensures forall c <- s.urls.rows[a].shortCode ::
              'A' <= c <= 'Z' || 'a' <= c <= 'z' || '0' <= c <= '9' || c in "_-"
    ensures s.urls.rows[a].shortCode == s.urls.rows[b].shortCode ==> a == b
    ensures exists r :: Inserts(s, r, a) && forall q :: Inserts(s, q, a) ==> q == r
  {
    ReachableInv(s);
    assert RowOk(s, a);
    if s.urls.rows[a].shortCode == s.urls.rows[b].shortCode {
      UrlStore.CodesAreUnique(s.urls, a, b);
    }
    var r := s.author[a];
    assert Inserts(s, r, a);
    forall q | Inserts(s, q, a) ensures q == r {
      assert RequestOk(s, q);
    }
  }

  /** A call makes at most ten INSERTs, and none unless the checks accept it, each but the
      last a collision, so it adds at most one row; a request without a key is answered 201
      exactly with the row it added, and exhaustion is reported only after ten collisions. */
  lemma CallsInsertAtMostOnce(s: State, r: nat)
    requires Reachable(s) && r in s.requests
    ensures var q := s.requests[r];
            && |q.inserts| <= 10 && (q.inserts != [] ==> Acceptable(q))
            && (forall i, j ::
                  0 <= i < |q.inserts| && 0 <= j < |q.inserts| && q.inserts[i].Inserted? && q.inserts[j].Inserted?
                  ==> i == j)
            && (q.pc == Finished(Rejected(Exhausted)) ==> |q.inserts| == 10 && AllCollisions(q.inserts))
            && (q.key.None? && q.pc.Finished? && q.pc.reply.Replied? ==>
                  q.pc.reply.status == 201 && Names(s, q.pc.reply.body, r))
  {
    ReachableInv(s);
    var q := s.requests[r];
    assert RequestOk(s, r);
  }

  /** Every JSON reply names the URL that its own request created or, with a key, the one request
      that created for the pair; and so does every completed record. */
  lemma ReplyNamesURL(s: State, r: nat)
    requires Inv(s) && r in s.requests && s.requests[r].pc.Finished? && s.requests[r].pc.reply.Replied?
    ensures s.requests[r].pc.reply.status == 201
    ensures exists c ::
              && Names(s, s.requests[r].pc.reply.body, c)
              && (if s.requests[r].key.Some? then
                    s.requests[c].key.Some? && PairOf(s.requests[c]) == PairOf(s.requests[r])
                  else c == r)
  {
    assert RequestOk(s, r);
    if s.requests[r].key.Some? {
      RecordNamesURL(s, PairOf(s.requests[r]));
    } else {
      assert Names(s, s.requests[r].pc.reply.body, r);
    }
  }

  lemma RecordNamesURL(s: State, k: Key)
    requires Inv(s) && k in s.records && s.records[k].state == Completed
    ensures s.records[k].status == 201 && k in s.owner && Names(s, s.records[k].body, s.owner[k])
    ensures s.requests[s.owner[k]].key.Some? && PairOf(s.requests[s.owner[k]]) == k
  {
    assert RecordOk(s, k);
  }

  /** All JSON replies to one pair are the same value with the same status, on every instance,
      whether the owner wrote it or it was replayed: they are the completed record. */
  lemma RepliesAgree(s: State, r: nat, q: nat)
    requires Reachable(s) && r in s.requests && q in s.requests
    requires s.requests[r].key.Some? && s.requests[q].key.Some? && PairOf(s.requests[r]) == PairOf(s.requests[q])
    requires s.requests[r].pc.Finished? && s.requests[r].pc.reply.Replied?
    requires s.requests[q].pc.Finished? && s.requests[q].pc.reply.Replied?
    ensures s.requests[r].pc.reply == s.requests[q].pc.reply && s.requests[r].pc.reply.status == CREATED
    ensures PairOf(s.requests[r]) in s.records
            && s.records[PairOf(s.requests[r])] == Record(s.requests[r].pc.reply.body, CREATED, Completed)
  {
    ReachableInv(s);
    assert RequestOk(s, r) && RequestOk(s, q);
    assert RecordOk(s, PairOf(s.requests[r]));
  }

  /** Only reservations and completions touch the records. */
  lemma RecordsTouched(s: State, a: Action)
    requires Enabled(s, a)
    ensures a.Reserve? || a.Complete? || (Do(s, a).records == s.records && Do(s, a).owner == s.owner)
  {
    match a
    case Insert(r, code, at, fate) => InsertShape(s, r, code, at, fate);
    case _ =>
  }

  lemma CompletedStays(s: State, a: Action, k: Key)
    requires Enabled(s, a) && k in s.records && s.records[k].state == Completed
    ensures k in Do(s, a).records && Do(s, a).records[k] == s.records[k]
  {
    if a.Reserve? {
      StatementsKeepCompleted(s.records, k, PairOf(s.requests[a.id]), EmptyObject, 0);
    } else if a.Complete? {
      StatementsKeepCompleted(s.records, k, PairOf(s.requests[a.id]), s.requests[a.id].pc.pending, CREATED);
    } else {
      RecordsTouched(s, a);
    }
  }

  /** A completed record never changes again. */
  lemma {:induction false} CompletedIsFinal(s: State, acts: seq<Action>, k: Key)
    requires Runs(s, acts) && k in s.records && s.records[k].state == Completed
    ensures k in After(s, acts).records && After(s, acts).records[k] == s.records[k]
    decreases |acts|
  {
    if acts == [] {
    } else {
      CompletedStays(s, acts[0], k);
      CompletedIsFinal(Do(s, acts[0]), acts[1..], k);
    }
  }
}
