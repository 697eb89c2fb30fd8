/** What the single steps of handler/url_handler.go, repository/idempotency_repository.go and
    service/url_service.go do for a request, in terms of the tables before and after. */
module CreateSteps {
  import opened Wrappers
  import opened Faults
  import opened UrlStore
  import opened ShortCodes
  import opened IdempotencyStore
  import opened CreateProtocol

  /** Request r now stands at pc, and is otherwise the same call. */
  predicate MovesTo(s: State, s': State, r: nat, pc: PC) {
    && r in s.requests && s'.requests.Keys == s.requests.Keys
    && s'.requests[r].pc == pc && SameCall(s.requests[r], s'.requests[r])
    && forall q <- s.requests :: q != r ==> s'.requests[q] == s.requests[q]
  }

  predicate SameTables(s: State, s': State) {
    s'.records == s.records && s'.urls == s.urls && s'.held == s.held
  }

  /** An arriving request waits for its mutex when it has a key, and creates at once without. */
  lemma ArrivalStands(s: State, a: Action)
    requires Enabled(s, a) && a.Arrive?
    ensures a.id !in s.requests && a.process !in s.dead && SameTables(s, Do(s, a))
    ensures var s' := Do(s, a);
            && s'.requests.Keys == s.requests.Keys + {a.id}
            && (forall q <- s.requests :: s'.requests[q] == s.requests[q])
            && var q := s'.requests[a.id];
               && q.process == a.process && q.user == a.user && q.key == a.key
               && q.valid == a.valid && q.destination == a.destination && q.alias == a.alias
               && q.base == a.base && q.inserts == [] && !q.faulted
               && (if a.key.Some? then q.pc == Arrived else q.pc == Creating(0))
  {
  }

  /** A waiting request takes its mutex exactly when nobody holds it, and a finished one frees it. */
  lemma MutexExcludes(s: State, r: nat)
    requires r in s.requests && s.requests[r].key.Some?
    ensures s.requests[r].pc == Arrived ==>
              (Enabled(s, Acquire(r)) <==> Lock(s.requests[r].process, LockKey(PairOf(s.requests[r]))) !in s.held)
    ensures Enabled(s, Acquire(r)) ==>
              && MovesTo(s, Do(s, Acquire(r)), r, Checking) && HoldsLock(Do(s, Acquire(r)), r)
              && Do(s, Acquire(r)).records == s.records && Do(s, Acquire(r)).urls == s.urls
    ensures Enabled(s, Release(r)) <==> s.requests[r].pc.Finished? && HoldsLock(s, r)
    ensures Enabled(s, Release(r)) ==>
              && MovesTo(s, Do(s, Release(r)), r, s.requests[r].pc)
              && Do(s, Release(r)).held == s.held - {LockOf(s.requests[r])}
  {
  }

  /** What the reply to a lookup means: a failing one is a 500, a pending record a 409, a completed
      one is replayed, and without a record the request goes on to reserve; after a lost
      reservation that would be a 500. */
  lemma LookupDecides(s: State, r: nat, again: bool, fate: Fate)
    requires At(s, r, if again then Rechecking else Checking) && s.requests[r].key.Some?
    ensures var s', k := Do(s, if again then ReadAgain(r, fate) else Read(r, fate)), PairOf(s.requests[r]);
            && SameTables(s, s')
            && (fate != Normal ==> MovesTo(s, s', r, Finished(ServerError)))
            && (fate == Normal && k !in s.records ==>
                  MovesTo(s, s', r, if again then Finished(ServerError) else Reserving))
            && (fate == Normal && k in s.records && s.records[k].state == Pending ==>
                  MovesTo(s, s', r, Finished(InProgress)))
            && (fate == Normal && k in s.records && s.records[k].state == Completed ==>
                  MovesTo(s, s', r, Finished(Replied(s.records[k].status, s.records[k].body))))
  {
  }

  /** A reservation inserts the pending record exactly when there is none and the statement ran;
      the request that was told so creates, one that was told otherwise looks again, and one
      that was told nothing gives up. */
  lemma ReservationDecides(s: State, r: nat, fate: Fate)
    requires At(s, r, Reserving) && s.requests[r].key.Some?
    ensures var s', k := Do(s, Action.Reserve(r, fate)), PairOf(s.requests[r]);
            && s'.urls == s.urls && s'.held == s.held
            && (if k !in s.records && fate != LostBefore then
                  && s'.records == s.records[k := Record(EmptyObject, 0, Pending)]
                  && k in s'.owner && s'.owner[k] == r
                else s'.records == s.records && s'.owner == s.owner)
            && MovesTo(s, s', r, if fate != Normal then Finished(ServerError)
                                 else if k in s.records then Rechecking else Creating(0))
  {
    assert Do(s, Action.Reserve(r, fate)) == DoReserve(s, r, fate);
  }

  /** An INSERT that runs adds a row exactly when its code is free. The request that was told so
      goes on with a body that names the row; a collision leads to the next of ten attempts
      or, with an alias, to a refusal; anything else is a failure. */
  lemma InsertDecides(s: State, r: nat, code: string, at: int, fate: Fate)
    requires Inv(s) && Enabled(s, Insert(r, code, at, fate))
    ensures var s' := Do(s, Insert(r, code, at, fate));
            && s'.records == s.records && s'.held == s.held
            && (if code !in s.urls.codes && fate != LostBefore then
                  && s.urls.nextId in s'.urls.rows
                  && s'.urls.rows == s.urls.rows[s.urls.nextId := s'.urls.rows[s.urls.nextId]]
                  && IsLink(s'.urls.rows[s.urls.nextId], code, s.requests[r].alias, s.requests[r].destination,
                            s.requests[r].user)
                  && s'.urls.rows[s.urls.nextId].createdAt == at
                  && Made(s'.requests[r]) == Some(s'.urls.rows[s.urls.nextId])
                else s'.urls == s.urls)
            && (fate != Normal ==> MovesTo(s, s', r, Finished(Rejected(Unstored))))
            && (fate == Normal && code in s.urls.codes ==>
                  MovesTo(s, s', r, if s.requests[r].alias.Some? then Finished(Rejected(NameTaken))
                                    else if s.requests[r].pc.attempt == 9 then Finished(Rejected(Exhausted))
                                    else Creating(s.requests[r].pc.attempt + 1)))
  {
    InsertShape(s, r, code, at, fate);
    assert RequestOk(s, r);
    InserterFacts(s.requests[r], OutcomeOf(s, s.requests[r], code, at, fate), fate);
  }

  lemma InsertSucceeds(s: State, r: nat, code: string, at: int)
    requires Inv(s) && Enabled(s, Insert(r, code, at, Normal)) && code !in s.urls.codes
    ensures var s' := Do(s, Insert(r, code, at, Normal));
            if s.requests[r].key.Some? then s'.requests[r].pc.Completing? && Names(s', s'.requests[r].pc.pending, r)
            else
              && s'.requests[r].pc.Finished? && s'.requests[r].pc.reply.Replied?
              && s'.requests[r].pc.reply.status == 201 && Names(s', s'.requests[r].pc.reply.body, r)
  {
    InsertShape(s, r, code, at, Normal);
    assert RequestOk(s, r);
    InserterFacts(s.requests[r], OutcomeOf(s, s.requests[r], code, at, Normal), Normal);
  }

  lemma CompletedWith(s: State, r: nat, fate: Fate)
    requires r in s.requests && s.requests[r].pc.Completing? && s.requests[r].key.Some? && RequestOk(s, r)
    ensures var s', body := DoComplete(s, r, fate), s.requests[r].pc.pending;
            && s'.urls == s.urls && s'.held == s.held
            && s'.records == (if fate == LostBefore then s.records
                              else s.records[PairOf(s.requests[r]) := Record(body, 201, Completed)])
            && MovesTo(s, s', r, Finished(if fate == Normal then Replied(201, body) else ServerError))
  {
  }

  /** A completion that runs stores the owner's body with status 201, and the owner that was told
      so replies it. */
  lemma CompletionDecides(s: State, r: nat, fate: Fate)
    requires Inv(s) && r in s.requests && s.requests[r].pc.Completing? && s.requests[r].key.Some?
    ensures var s', body := Do(s, Action.Complete(r, fate)), s.requests[r].pc.pending;
            && s'.urls == s.urls && s'.held == s.held
            && s'.records == (if fate == LostBefore then s.records
                              else s.records[PairOf(s.requests[r]) := Record(body, 201, Completed)])
            && MovesTo(s, s', r, Finished(if fate == Normal then Replied(201, body) else ServerError))
  {
    CompletedWith(s, r, fate);
    assert Do(s, Action.Complete(r, fate)) == DoComplete(s, r, fate);
  }

  /** A refusal happens exactly before a creation that the checks do not accept, or that finds no
      random code; it writes nothing. */
  lemma RefusalWritesNothing(s: State, r: nat)
    requires r in s.requests && s.requests[r].pc.Creating?
    ensures Enabled(s, Refuse(r)) <==>
              var q := s.requests[r];
              !q.valid || q.user <= 0 || (q.alias.Some? && !CodeShaped(q.alias.value)) || q.alias.None?
    ensures Enabled(s, Refuse(r)) ==>
              SameTables(s, Do(s, Refuse(r))) && MovesTo(s, Do(s, Refuse(r)), r, Finished(Rejected(Invalid)))
  {
  }

  /** A crash ends every unfinished request of the process, for good, and loses no stored row. */
  lemma CrashEndsRequests(s: State, p: nat)
    ensures var s' := Do(s, Crash(p));
            && SameTables(s, s') && s'.dead == s.dead + {p} && s'.requests.Keys == s.requests.Keys
            && forall r <- s.requests ::
                 if s.requests[r].process == p && !s.requests[r].pc.Finished?
                 then s'.requests[r].pc == Crashed && SameCall(s.requests[r], s'.requests[r])
                 else s'.requests[r] == s.requests[r]
  {
  }
}
