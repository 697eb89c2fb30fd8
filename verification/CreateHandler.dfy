/** CreateURL of handler/url_handler.go, statement by statement, while other requests run.

    The method follows the Go control flow. Each database or lock operation is one action of
    CreateProtocol on the shared world, and before each of them the other requests take any
    steps the schedule asks for. That the reply the method returns is the one the protocol
    records shows that the protocol's program counters are this control flow. */
module CreateHandler {
  import opened Wrappers
  import opened Strings
  import opened Faults
  import UrlStore
  import opened ShortCodes
  import opened IdempotencyStore
  import opened CreateProtocol

  const MAX_KEY := 255

  /** What the surroundings decide for one call: the fate of each statement, the random bytes
      of each attempt, the clock, what the other requests do before each operation, and how
      often the mutex is looked at before the observation ends. */
  datatype Surroundings = Surroundings(
    get: Fate,
    reserve: Fate,
    getAgain: Fate,
    complete: Fate,
    inserts: seq<Fate>,
    draws: seq<seq<Byte>>,
    at: int,
    others: nat -> seq<Action>,
    patience: nat)

  predicate CoversAllAttempts(env: Surroundings) {
    |env.inserts| == |env.draws| == MAX_ATTEMPTS
  }

  /** The call's own data, which never changes. */
  predicate IsCall(q: Request, process: nat, user: int, key: Option<string>, valid: bool, destination: string,
                   alias: Option<string>, base: string) {
    && q.process == process && q.user == user && q.key == key && q.base == base
    && q.valid == valid && q.destination == destination && q.alias == alias
  }

  /** The request differs from q only in its program counter and history. */
  predicate Continues(q: Request, q': Request) {
    IsCall(q', q.process, q.user, q.key, q.valid, q.destination, q.alias, q.base)
  }

  class Server {
    var world: State

    constructor ()
      ensures Inv(world) && Initial(world)
    {
      world := State(map[], UrlStore.EMPTY, map[], map[], {}, map[], map[]);
    }

    ghost predicate Valid()
      reads this
    {
      Inv(world)
    }

    /** The request stands at pc. */
    predicate Stands(r: nat, pc: PC)
      reads this
    {
      At(world, r, pc)
    }

    method Others(r: nat, batch: seq<Action>)
      requires Valid() && r in world.requests
      modifies this
      ensures Valid() && r in world.requests && world.requests[r] == old(world).requests[r]
      ensures HoldsLock(old(world), r) ==> HoldsLock(world, r)
    {
      for i := 0 to |batch|
        invariant Valid() && r in world.requests && world.requests[r] == old(world).requests[r]
        invariant HoldsLock(old(world), r) ==> HoldsLock(world, r)
      {
        if Enabled(world, batch[i]) && !Concerns(world, batch[i], r) {
          StepKeepsInv(world, batch[i]);
          OthersLeaveAlone(world, batch[i], r);
          world := Do(world, batch[i]);
        }
      }
    }

    /** lock.Lock(): the others go on until the mutex is free. It ends without the mutex only
        while somebody holds it and the observation is over. */
    method Lock(r: nat, env: Surroundings) returns (ok: bool)
      requires Valid() && Stands(r, Arrived) && world.requests[r].key.Some?
      modifies this
      ensures Valid() && r in world.requests && Continues(old(world).requests[r], world.requests[r])
      ensures ok ==> Stands(r, Checking) && HoldsLock(world, r)
      ensures !ok ==> Stands(r, Arrived) && LockOf(world.requests[r]) in world.held
    {
      var looks := 0;
      while LockOf(world.requests[r]) in world.held
        invariant Valid() && r in world.requests && world.requests[r] == old(world).requests[r]
        invariant looks <= env.patience
        decreases env.patience - looks
      {
        if looks == env.patience {
          return false;
        }
        Others(r, env.others(20 + looks));
        looks := looks + 1;
      }
      StepKeepsInv(world, Acquire(r));
      world := Do(world, Acquire(r));
      ok := true;
    }

    method Unlock(r: nat)
      requires Valid() && HoldsLock(world, r) && world.requests[r].pc.Finished?
      modifies this
      ensures Valid() && r in world.requests && world.requests[r] == old(world).requests[r]
      ensures LockOf(world.requests[r]) !in world.held
    {
      StepKeepsInv(world, Release(r));
      world := Do(world, Release(r));
    }

    /** idempotencyRepo.Get, before the reservation or (again) after losing it. */
    method Get(r: nat, again: bool, fate: Fate) returns (found: Result<Option<Record>, ()>)
      requires Valid() && Stands(r, if again then Rechecking else Checking) && HoldsLock(world, r)
      modifies this
      ensures Valid() && HoldsLock(world, r) && Continues(old(world).requests[r], world.requests[r])
      ensures found == if fate == Normal then Ok(Find(world.records, PairOf(world.requests[r]))) else Err(())
      ensures world.records == old(world).records
      ensures Stands(r, match found
                        case Err(_) => Finished(ServerError)
                        case Ok(rec) => AfterRead(rec, if again then Finished(ServerError) else Reserving))
    {
      var a := if again then ReadAgain(r, fate) else Read(r, fate);
      found := if fate == Normal then Ok(Find(world.records, PairOf(world.requests[r]))) else Err(());
      StepKeepsInv(world, a);
      world := Do(world, a);
    }

    method Reserve(r: nat, fate: Fate) returns (reserved: Result<bool, ()>)
      requires Valid() && Stands(r, Reserving) && HoldsLock(world, r)
      modifies this
      ensures Valid() && HoldsLock(world, r) && Continues(old(world).requests[r], world.requests[r])
      ensures Stands(r, match reserved
                        case Err(_) => Finished(ServerError)
                        case Ok(won) => if won then Creating(0) else Rechecking)
    {
      var won := PairOf(world.requests[r]) !in world.records;
      ReserveKeepsInv(world, r, fate);
      world := DoReserve(world, r, fate);
      reserved := if fate == Normal then Ok(won) else Err(());
    }

    method Refuse(r: nat)
      requires Valid() && r in world.requests && world.requests[r].pc.Creating? && Refusable(world.requests[r])
      modifies this
      ensures Valid() && Stands(r, Finished(Rejected(Invalid))) && Continues(old(world).requests[r], world.requests[r])
      ensures HoldsLock(old(world), r) ==> HoldsLock(world, r)
    {
      StepKeepsInv(world, Action.Refuse(r));
      world := Do(world, Action.Refuse(r));
    }

    /** repository.Create for this code. */
    method InsertRow(r: nat, code: string, at: int, fate: Fate) returns (outcome: Outcome)
      requires Valid() && r in world.requests && world.requests[r].pc.Creating? && Insertable(world.requests[r], code)
      modifies this
      ensures Valid() && r in world.requests && Continues(old(world).requests[r], world.requests[r])
      ensures Stands(r, AfterInsert(old(world).requests[r], outcome, fate))
      ensures fate == Normal ==> !outcome.Lost?
      ensures HoldsLock(old(world), r) ==> HoldsLock(world, r)
    {
      outcome := OutcomeOf(world, world.requests[r], code, at, fate);
      InsertKeepsInv(world, r, code, at, fate);
      InsertShape(world, r, code, at, fate);
      world := DoInsert(world, r, code, at, fate);
    }

    method CompleteRecord(r: nat, fate: Fate) returns (ok: bool)
      requires Valid() && HoldsLock(world, r) && world.requests[r].pc.Completing?
      modifies this
      ensures Valid() && HoldsLock(world, r) && Continues(old(world).requests[r], world.requests[r])
      // The record was pending and still this owner's, so only a failing statement fails.
      ensures ok <==> fate == Normal
      ensures Stands(r, Finished(if ok then Replied(CREATED, old(world).requests[r].pc.pending) else ServerError))
    {
      assert RequestOk(world, r);
      CompleteKeepsInv(world, r, fate);
      world := DoComplete(world, r, fate);
      ok := fate == Normal;
    }

    /** How a service call leaves its request. */
    ghost predicate Answered(r: nat, created: Result<Body, Refusal>)
      reads this
    {
      && r in world.requests
      && match created
         case Err(refusal) => Stands(r, Finished(Rejected(refusal)))
         case Ok(body) => Stands(r, if world.requests[r].key.Some? then Completing(body)
             else Finished(Replied(CREATED, body)))
    }

    /** The request draws its n-th code next. */
    predicate Drawing(r: nat, n: nat)
      reads this
    {
      Stands(r, Creating(n)) && Acceptable(world.requests[r]) && world.requests[r].alias.None?
    }

    /** One turn of CreateShortURL's loop; None means a collision and another turn. */
    method Attempt(r: nat, n: nat, draws: seq<Byte>, at: int, fate: Fate)
      returns (answer: Option<Result<Body, Refusal>>)
      requires Valid() && Drawing(r, n)
      modifies this
      ensures Valid() && r in world.requests && Continues(old(world).requests[r], world.requests[r])
      ensures HoldsLock(old(world), r) ==> HoldsLock(world, r)
      ensures answer.Some? ==> Answered(r, answer.value)
      ensures answer.None? ==> n + 1 != MAX_ATTEMPTS && Drawing(r, n + 1)
    {
      var q := world.requests[r];
      var generated, used := GenerateShortCode(CODE_LENGTH, draws);
      if generated.Err? {
        Refuse(r);
        return Some(Err(Invalid));
      }
      DrawnCodesAreShaped(draws, generated.value);
      var outcome := InsertRow(r, generated.value, at, fate);
      if fate != Normal {
        return Some(Err(Unstored));
      }
      if outcome.Inserted? {
        return Some(Ok(BodyOf(outcome.url, q.base)));
      }
      answer := if n + 1 == MAX_ATTEMPTS then Some(Err(Exhausted)) else None;
    }

    /** CreateShortURL behind its checks: at most ten drawn codes. */
    method CreateDrawn(r: nat, env: Surroundings) returns (created: Result<Body, Refusal>)
      requires Valid() && Drawing(r, 0) && CoversAllAttempts(env)
      modifies this
      ensures Valid() && Answered(r, created) && Continues(old(world).requests[r], world.requests[r])
      ensures HoldsLock(old(world), r) ==> HoldsLock(world, r)
    {
      var attempt := 0;
      while true
        invariant attempt < MAX_ATTEMPTS && Valid() && Drawing(r, attempt)
        invariant Continues(old(world).requests[r], world.requests[r])
        invariant HoldsLock(old(world), r) ==> HoldsLock(world, r)
        decreases MAX_ATTEMPTS - attempt
      {
        Others(r, env.others(10 + attempt));
        var answer := Attempt(r, attempt, env.draws[attempt], env.at, env.inserts[attempt]);
        if answer.Some? {
          return answer.value;
        }
        attempt := attempt + 1;
      }
    }

    /** CreateShortURLWithAlias behind its checks: one INSERT. */
    method CreateNamed(r: nat, env: Surroundings) returns (created: Result<Body, Refusal>)
      requires Valid() && Stands(r, Creating(0)) && CoversAllAttempts(env)
      requires Acceptable(world.requests[r]) && world.requests[r].alias.Some?
      modifies this
      ensures Valid() && Answered(r, created) && Continues(old(world).requests[r], world.requests[r])
      ensures HoldsLock(old(world), r) ==> HoldsLock(world, r)
    {
      var q := world.requests[r];
      Others(r, env.others(10));
      var outcome := InsertRow(r, q.alias.value, env.at, env.inserts[0]);
      if env.inserts[0] != Normal {
        return Err(Unstored);
      }
      if outcome.Inserted? {
        return Ok(BodyOf(outcome.url, q.base));
      }
      created := Err(NameTaken);
    }

    /** createURLResponse: the checks, and the service call chosen by the alias. */
    method CreateResponse(r: nat, env: Surroundings) returns (created: Result<Body, Refusal>)
      requires Valid() && Stands(r, Creating(0)) && CoversAllAttempts(env)
      modifies this
      ensures Valid() && Answered(r, created) && Continues(old(world).requests[r], world.requests[r])
      ensures HoldsLock(old(world), r) ==> HoldsLock(world, r)
      ensures !Acceptable(world.requests[r]) ==> created == Err(Invalid)
    {
      if !Acceptable(world.requests[r]) {
        Refuse(r);
        created := Err(Invalid);
      } else if world.requests[r].alias.Some? {
        created := CreateNamed(r, env);
      } else {
        created := CreateDrawn(r, env);
      }
    }

    /** Lines 292-410, between lock.Lock and the deferred lock.Unlock. */
    method Guarded(r: nat, env: Surroundings) returns (reply: Reply)
      requires Valid() && Stands(r, Checking) && HoldsLock(world, r) && CoversAllAttempts(env)
      modifies this
      ensures Valid() && HoldsLock(world, r) && Continues(old(world).requests[r], world.requests[r])
      ensures Stands(r, Finished(reply))
    {
      Others(r, env.others(1));
      var record := Get(r, false, env.get);
      if record.Err? {
        return ServerError;
      }
      if record.value.Some? {
        if record.value.value.state == Pending {
          return InProgress;
        }
        return Replied(record.value.value.status, record.value.value.body);
      }
      Others(r, env.others(2));
      var reserved := Reserve(r, env.reserve);
      if reserved.Err? {
        return ServerError;
      }
      if !reserved.value {
        Others(r, env.others(3));
        var existing := Get(r, true, env.getAgain);
        if existing.Err? || existing.value.None? {
          return ServerError;
        }
        if existing.value.value.state == Pending {
          return InProgress;
        }
        return Replied(existing.value.value.status, existing.value.value.body);
      }
      var created := CreateResponse(r, env);
      if created.Err? {
        return Rejected(created.error);
      }
      Others(r, env.others(4));
      var completed := CompleteRecord(r, env.complete);
      if !completed {
        return ServerError;
      }
      reply := Replied(CREATED, created.value);
    }

    /** createURL: a request without a key. */
    method CreateUnkeyed(r: nat, env: Surroundings) returns (reply: Reply)
      requires Valid() && Stands(r, Creating(0)) && world.requests[r].key.None? && CoversAllAttempts(env)
      modifies this
      ensures Valid() && Stands(r, Finished(reply)) && Continues(old(world).requests[r], world.requests[r])
      ensures !Acceptable(world.requests[r]) ==> reply == Rejected(Invalid)
    {
      var created := CreateResponse(r, env);
      reply := if created.Ok? then Replied(CREATED, created.value) else Rejected(created.error);
    }

    /** Lines 282-410: a request with a key, from the mutex to the deferred unlock. None:
        somebody holds the mutex and the observation is over. */
    method CreateKeyed(r: nat, env: Surroundings) returns (reply: Option<Reply>)
      requires Valid() && Stands(r, Arrived) && world.requests[r].key.Some? && CoversAllAttempts(env)
      modifies this
      ensures Valid() && r in world.requests && Continues(old(world).requests[r], world.requests[r])
      ensures reply.Some? ==> Stands(r, Finished(reply.value)) && !HoldsLock(world, r)
      ensures reply.None? ==> Stands(r, Arrived) && LockOf(world.requests[r]) in world.held
    {
      var locked := Lock(r, env);
      if !locked {
        return None;
      }
      var answer := Guarded(r, env);
      Unlock(r);
      reply := Some(answer);
    }

    /** A body names the URL created for the call: by the request itself or, with a key, by the
        one request of its pair that created. */
    ghost predicate NamedFor(r: nat, body: Body)
      reads this
    {
      && r in world.requests
      && if world.requests[r].key.None? then Names(world, body, r)
         else exists c :: Names(world, body, c) && world.requests[c].key.Some?
                          && PairOf(world.requests[c]) == PairOf(world.requests[r])
    }

    /** A reply in JSON has status 201; with a key it is the completed record of the pair. */
    lemma ReplyIsStored(r: nat)
      requires Valid() && r in world.requests && world.requests[r].pc.Finished? && world.requests[r].pc.reply.Replied?
      ensures world.requests[r].pc.reply.status == 201 && NamedFor(r, world.requests[r].pc.reply.body)
      ensures world.requests[r].key.Some? ==>
                && PairOf(world.requests[r]) in world.records
                && world.records[PairOf(world.requests[r])]
                    == Record(world.requests[r].pc.reply.body, CREATED, Completed)
    {
      assert RequestOk(world, r);
      ReplyNamesURL(world, r);
      if world.requests[r].key.Some? {
        assert RecordOk(world, PairOf(world.requests[r]));
      }
    }

    /** URLHandler.CreateURL for an authenticated user. */
    method CreateURL(r: nat, process: nat, user: int, header: string, valid: bool, destination: string,
                     rawAlias: string, base: string, env: Surroundings)
      returns (reply: Option<Reply>)
      requires Valid() && r !in world.requests && process !in world.dead && CoversAllAttempts(env)
      modifies this
      ensures Valid()
      ensures ByteLength(TrimSpace(header)) > 255 ==> reply == Some(Rejected(Invalid)) && world == old(world)
      ensures ByteLength(TrimSpace(header)) <= 255 ==>
                && r in world.requests
                && IsCall(world.requests[r], process, user, NonEmpty(TrimSpace(header)), valid, destination,
                          NonEmpty(TrimSpace(rawAlias)), base)
                && Stands(r, if reply.Some? then Finished(reply.value) else Arrived)
                && (reply.Some? ==> !HoldsLock(world, r))
                && (reply.None? ==> TrimSpace(header) != "" && LockOf(world.requests[r]) in world.held)
      // A body that the checks refuse creates nothing, and without a key the caller is told so.
      ensures r in world.requests && Made(world.requests[r]).Some? ==> valid && user > 0
      ensures !(valid && user > 0) && TrimSpace(header) == "" ==> reply == Some(Rejected(Invalid))
      // A JSON reply names the one URL of its pair, and is what the completed record stores.
      ensures reply.Some? && reply.value.Replied? ==>
                && reply.value.status == 201 && NamedFor(r, reply.value.body)
                && (TrimSpace(header) != "" ==>
                      && Key(user, TrimSpace(header)) in world.records
                      && world.records[Key(user, TrimSpace(header))] == Record(reply.value.body, CREATED, Completed))
    {
      var key := TrimSpace(header);
      if ByteLength(key) > MAX_KEY {
        return Some(Rejected(Invalid));
      }
      Arrive(r, process, user, NonEmpty(key), valid, destination, NonEmpty(TrimSpace(rawAlias)), base);
      Others(r, env.others(0));
      if key == "" {
        var answer := CreateUnkeyed(r, env);
        reply := Some(answer);
      } else {
        reply := CreateKeyed(r, env);
      }
      if reply.Some? && reply.value.Replied? {
        ReplyIsStored(r);
      }
      assert RequestOk(world, r);
    }

    method Arrive(r: nat, process: nat, user: int, key: Option<string>, valid: bool, destination: string,
                  alias: Option<string>, base: string)
      requires Valid() && r !in world.requests && process !in world.dead
      modifies this
      ensures Valid() && Stands(r, if key.Some? then Arrived else Creating(0))
      ensures IsCall(world.requests[r], process, user, key, valid, destination, alias, base)
    {
      StepKeepsInv(world, Action.Arrive(r, process, user, key, valid, destination, alias, base));
      world := Do(world, Action.Arrive(r, process, user, key, valid, destination, alias, base));
    }
  }

  /** "" means that the header or field is absent. */
  function NonEmpty(s: string): Option<string> {
    if s == "" then None else Some(s)
  }
}
