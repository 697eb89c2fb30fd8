/** The idempotency_keys table (migration/004 and 005), its statements from
    repository/idempotency_repository.go, and the lock table of handler/url_handler.go. */
module IdempotencyStore {
  import opened Wrappers
  import opened Faults

  /** (user_id, idempotency_key), the UNIQUE pair. */
  datatype Key = Key(userID: int, text: string)

  /** A response body as a JSON value; JSONB does not keep its bytes. */
  datatype Body = EmptyObject | Created(id: int, shortCode: string, shortURL: string)

  datatype Progress = Pending | Completed

  datatype Record = Record(body: Body, status: int, state: Progress)

  type Rows = map<Key, Record>

  const RESERVATION: Record := Record(EmptyObject, 0, Pending)

  /** INSERT ... 'pending' ... ON CONFLICT DO NOTHING RETURNING id. */
  function ReserveRow(rows: Rows, k: Key): (Rows, bool) {
    if k in rows then (rows, false) else (rows[k := RESERVATION], true)
  }

  /** UPDATE ... SET state = 'completed' WHERE ... AND state = 'pending'; rows affected. */
  function CompleteRow(rows: Rows, k: Key, body: Body, status: int): (Rows, nat) {
    if k in rows && rows[k].state == Pending then (rows[k := Record(body, status, Completed)], 1) else (rows, 0)
  }

  /** No statement for any key changes a completed record. */
  lemma StatementsKeepCompleted(rows: Rows, k: Key, j: Key, body: Body, status: int)
    requires k in rows && rows[k].state == Completed
    ensures k in ReserveRow(rows, j).0 && ReserveRow(rows, j).0[k] == rows[k]
    ensures k in CompleteRow(rows, j, body, status).0 && CompleteRow(rows, j, body, status).0[k] == rows[k]
  {
  }

  /** Of any number of reservations one wins, and only the first completion after it counts. */
  lemma FirstReservationAndCompletionWin(rows: Rows, k: Key, body: Body, status: int, later: Body, laterStatus: int)
    ensures !ReserveRow(ReserveRow(rows, k).0, k).1
    ensures ReserveRow(ReserveRow(rows, k).0, k).0 == ReserveRow(rows, k).0
    ensures var done := CompleteRow(rows, k, body, status).0;
            CompleteRow(done, k, later, laterStatus) == (done, 0) && ReserveRow(done, k).0.Keys == rows.Keys + {k}
  {
  }

  datatype Statement = Reservation(key: Key) | Completion(key: Key, body: Body, status: int)

  function RunStatement(rows: Rows, s: Statement): Rows {
    match s
    case Reservation(k) => ReserveRow(rows, k).0
    case Completion(k, body, status) => CompleteRow(rows, k, body, status).0
  }

  function RunStatements(rows: Rows, later: seq<Statement>): Rows
    decreases |later|
  {
    if later == [] then rows else RunStatements(RunStatement(rows, later[0]), later[1..])
  }

  lemma {:induction false} CompletedReadsBack(rows: Rows, k: Key, later: seq<Statement>)
    requires k in rows && rows[k].state == Completed
    ensures k in RunStatements(rows, later) && RunStatements(rows, later)[k] == rows[k]
    decreases |later|
  {
    if later == [] {
    } else {
      CompletedReadsBack(RunStatement(rows, later[0]), k, later[1..]);
    }
  }

  /** Once a reservation has been completed, Get returns that body and status after whatever
      statements follow, for whatever keys. */
  lemma CompletionReadsBack(rows: Rows, k: Key, body: Body, status: int, later: seq<Statement>)
    requires k in rows && rows[k].state == Pending
    ensures var end := RunStatements(CompleteRow(rows, k, body, status).0, later);
            k in end && end[k] == Record(body, status, Completed)
  {
    CompletedReadsBack(CompleteRow(rows, k, body, status).0, k, later);
  }

  class IdempotencyRepository {
    var rows: Rows

    constructor ()
      ensures rows == map[]
    {
      rows := map[];
    }

    method Get(k: Key, fate: Fate) returns (r: Result<Option<Record>, ()>)
      ensures r == if fate != Normal then Err(()) else if k in rows then Ok(Some(rows[k])) else Ok(None)
    {
      if fate != Normal {
        return Err(());
      }
      if k in rows {
        r := Ok(Some(rows[k]));
      } else {
        r := Ok(None);
      }
    }

    /** Ok(true) means that this caller inserted the row. */
    method Reserve(k: Key, fate: Fate) returns (r: Result<bool, ()>)
      modifies this
      ensures rows == if fate == LostBefore then old(rows) else ReserveRow(old(rows), k).0
      ensures rows == if fate == LostBefore || k in old(rows) then old(rows)
                      else old(rows)[k := Record(EmptyObject, 0, Pending)]
      ensures r == if fate == Normal then Ok(k !in old(rows)) else Err(())
    {
      if fate != LostBefore && k !in rows {
        rows := rows[k := RESERVATION];
        return if fate == Normal then Ok(true) else Err(());
      }
      r := if fate == Normal then Ok(false) else Err(());
    }

    method Complete(k: Key, body: Body, status: int, fate: Fate) returns (r: Result<(), ()>)
      modifies this
      ensures rows == if fate == LostBefore then old(rows) else CompleteRow(old(rows), k, body, status).0
      ensures r.Ok? <==> fate == Normal && k in old(rows) && old(rows)[k].state == Pending
      ensures rows == if fate != LostBefore && k in old(rows) && old(rows)[k].state == Pending
                      then old(rows)[k := Record(body, status, Completed)] else old(rows)
    {
      r := Err(());
      if fate != LostBefore && k in rows && rows[k].state == Pending {
        rows := rows[k := Record(body, status, Completed)];
        if fate == Normal {
          r := Ok(());
        }
      }
    }
  }

  // ---- Lock keys ----

  /** fmt.Sprintf("%d", n) for n >= 0. */
  function Digits(n: nat): string {
    if n < 10 then [('0' as int + n) as char] else Digits(n / 10) + [('0' as int + n % 10) as char]
  }

  function Decimal(n: int): string {
    if n < 0 then "-" + Digits(-n) else Digits(n)
  }

  /** fmt.Sprintf("%d:%s", userID, key). */
  function LockKey(k: Key): string {
    Decimal(k.userID) + ":" + k.text
  }

  lemma {:induction false} DigitsAreDigits(n: nat)
    ensures |Digits(n)| >= 1
    ensures forall c <- Digits(n) :: '0' <= c <= '9'
    ensures n >= 10 ==> Digits(n)[..|Digits(n)| - 1] == Digits(n / 10)
  {
    if n < 10 {
    } else {
      DigitsAreDigits(n / 10);
      assert Digits(n)[..|Digits(n)| - 1] == Digits(n / 10);
    }
  }

  lemma {:induction false} DigitsInjective(a: nat, b: nat)
    requires Digits(a) == Digits(b)
    ensures a == b
  {
    DigitsAreDigits(a);
    DigitsAreDigits(b);
    assert a >= 10 ==> |Digits(a)| >= 2 by {
      if a >= 10 {
        DigitsAreDigits(a / 10);
      }
    }
    assert b >= 10 ==> |Digits(b)| >= 2 by {
      if b >= 10 {
        DigitsAreDigits(b / 10);
      }
    }
    if a >= 10 {
      DigitsInjective(a / 10, b / 10);
      assert Digits(a)[|Digits(a)| - 1] == Digits(b)[|Digits(b)| - 1];
    }
  }

  lemma DecimalHasNoColon(n: int)
    ensures forall c <- Decimal(n) :: c != ':'
  {
    DigitsAreDigits(if n < 0 then -n else n);
  }

  lemma DecimalInjective(a: int, b: int)
    requires Decimal(a) == Decimal(b)
    ensures a == b
  {
    var x, y := if a < 0 then -a else a, if b < 0 then -b else b;
    DigitsAreDigits(x);
    DigitsAreDigits(y);
    assert a < 0 <==> Decimal(a)[0] == '-' by {
      assert Digits(x)[0] in Digits(x);
    }
    assert b < 0 <==> Decimal(b)[0] == '-' by {
      assert Digits(y)[0] in Digits(y);
    }
    if a < 0 {
      assert Decimal(a)[1..] == Digits(x) && Decimal(b)[1..] == Digits(y);
    }
    DigitsInjective(x, y);
  }

  /** Two requests contend for one mutex exactly when they share user and key. */
  lemma LockKeyInjective(a: Key, b: Key)
    ensures LockKey(a) == LockKey(b) <==> a == b
  {
    if LockKey(a) == LockKey(b) {
      var da, db := Decimal(a.userID), Decimal(b.userID);
      DecimalHasNoColon(a.userID);
      DecimalHasNoColon(b.userID);
      assert LockKey(a)[|da|] == ':' && LockKey(b)[|db|] == ':';
      assert forall i :: 0 <= i < |da| ==> LockKey(a)[i] == da[i] && da[i] in da;
      assert forall i :: 0 <= i < |db| ==> LockKey(b)[i] == db[i] && db[i] in db;
      assert |da| == |db|;
      assert da == LockKey(a)[..|da|] == LockKey(b)[..|db|] == db;
      assert a.text == LockKey(a)[|da| + 1..] && b.text == LockKey(b)[|db| + 1..];
      DecimalInjective(a.userID, b.userID);
    }
  }

  // ---- The lock table ----

  class Mutex {
    constructor () {
    }
  }

  /** idempotencyLocks. Entries are only ever added, so a key keeps its mutex and two keys
      never share one. */
  class LockTable {
    var locks: map<string, Mutex>

    ghost predicate Valid()
      reads this
    {
      forall a <- locks, b <- locks :: locks[a] == locks[b] ==> a == b
    }

    constructor ()
      ensures Valid() && locks == map[]
    {
      locks := map[];
    }

    method GetIdempotencyLock(key: string) returns (lock: Mutex)
      requires Valid()
      modifies this
      ensures Valid()
      ensures key in locks && locks[key] == lock
      ensures key in old(locks) ==> locks == old(locks)
      ensures key !in old(locks) ==> fresh(lock) && locks == old(locks)[key := lock]
    {
      if key in locks {
        return locks[key];
      }
      lock := new Mutex();
      locks := locks[key := lock];
    }
  }
}
