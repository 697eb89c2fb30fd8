/** What clients of handler/url_handler.go can count on: when a pending key can still be
    completed, and what a single process without failures replies. */
module CreateOutcomes {
  import opened Wrappers
  import opened Faults
  import opened UrlStore
  import opened ShortCodes
  import opened IdempotencyStore
  import opened CreateProtocol

  // ---- Keys that stay pending ----

  /** The request can still reach its completion. */
  predicate CanFinish(q: Request) {
    || q.pc.Completing?
    || (q.pc.Creating? && Acceptable(q))
  }

  /** The key is reserved, but its owner has failed, crashed or cannot succeed. */
  predicate Orphaned(s: State, k: Key) {
    && k in s.records && s.records[k].state == Pending
    && k in s.owner && s.owner[k] in s.requests && !CanFinish(s.requests[s.owner[k]])
  }

  /** An owner that cannot finish never creates anything further. */
  lemma OrphanRequestStays(s: State, a: Action, r: nat)
    requires Enabled(s, a) && r in s.requests && s.requests[r].key.Some? && RequestOk(s, r)
    requires !CanFinish(s.requests[r]) && PairOf(s.requests[r]) in s.owner && s.owner[PairOf(s.requests[r])] == r
    ensures r in Do(s, a).requests && !CanFinish(Do(s, a).requests[r])
        && Made(Do(s, a).requests[r]) == Made(s.requests[r])
  {
    if !Concerns(s, a, r) {
      OthersLeaveAlone(s, a, r);
    }
  }

  lemma OwnerKept(s: State, a: Action, k: Key)
    requires Enabled(s, a) && k in s.records && k in s.owner
    ensures k in Do(s, a).owner && Do(s, a).owner[k] == s.owner[k]
  {
    RecordsTouched(s, a);
    match a
    case Reserve(r, fate) => assert Do(s, a) == DoReserve(s, r, fate);
    case Complete(r, fate) => assert Do(s, a) == DoComplete(s, r, fate);
    case _ =>
  }

  /** Only its owner could complete the record, and an orphan's owner is not completing. */
  lemma OrphanRecordStays(s: State, a: Action, k: Key)
    requires Enabled(s, a) && Orphaned(s, k) && (a.Complete? ==> RequestOk(s, a.id))
    ensures k in Do(s, a).records && Do(s, a).records[k] == s.records[k]
  {
    if a.Reserve? {
      assert Do(s, a) == DoReserve(s, a.id, a.fate);
    } else if a.Complete? {
      assert Do(s, a) == DoComplete(s, a.id, a.fate);
    } else {
      RecordsTouched(s, a);
    }
  }

  lemma OrphanStays(s: State, a: Action, k: Key)
    requires Inv(s) && Enabled(s, a) && Orphaned(s, k)
    ensures Orphaned(Do(s, a), k) && Do(s, a).owner[k] == s.owner[k]
    ensures Made(Do(s, a).requests[s.owner[k]]) == Made(s.requests[s.owner[k]])
  {
    assert RecordOk(s, k) && RequestOk(s, s.owner[k]) && (a.Complete? ==> RequestOk(s, a.id));
    OrphanRequestStays(s, a, s.owner[k]);
    OrphanRecordStays(s, a, k);
    OwnerKept(s, a, k);
  }

  /** Once orphaned, a key stays pending for good, no further URL is created for it, and every
      other request with it that ends is told that one is in progress, or fails. */
  lemma {:induction false} OrphanedForever(s: State, acts: seq<Action>, k: Key)
    requires Inv(s) && Runs(s, acts) && Orphaned(s, k)
    ensures Orphaned(After(s, acts), k) && After(s, acts).records[k] == RESERVATION
    ensures Creators(After(s, acts), k) == Creators(s, k)
    ensures forall r <- After(s, acts).requests ::
              var q := After(s, acts).requests[r];
              q.key.Some? && PairOf(q) == k && q.pc.Finished? && r != s.owner[k] ==>
                  q.pc.reply in {InProgress, ServerError}
    decreases |acts|
  {
    if acts == [] {
      assert RecordOk(s, k);
      forall r <- s.requests
        ensures var q := s.requests[r];
                q.key.Some? && PairOf(q) == k && q.pc.Finished? && r != s.owner[k] ==>
                    q.pc.reply in {InProgress, ServerError}
      {
        assert RequestOk(s, r);
      }
    } else {
      OrphanStays(s, acts[0], k);
      StepKeepsInv(s, acts[0]);
      OrphanedForever(Do(s, acts[0]), acts[1..], k);
      CreatorIsOwner(s, k);
      CreatorIsOwner(Do(s, acts[0]), k);
    }
  }

  /** The only creator a pair can have is the owner of its reservation. */
  lemma CreatorIsOwner(s: State, k: Key)
    requires Inv(s) && k in s.records
    ensures Creators(s, k) == if Made(s.requests[s.owner[k]]).Some? then {s.owner[k]} else {}
  {
  }

  ghost predicate CanComplete(s: State, k: Key) {
    exists acts :: Runs(s, acts) && k in After(s, acts).records && After(s, acts).records[k].state == Completed
  }

  lemma StepThenRun(s: State, a: Action, acts: seq<Action>)
    requires Enabled(s, a) && Runs(Do(s, a), acts)
    ensures Runs(s, [a] + acts) && After(s, [a] + acts) == After(Do(s, a), acts)
  {
    assert ([a] + acts)[1..] == acts;
  }

  lemma CompletesAfterStep(s: State, a: Action, k: Key)
    requires Enabled(s, a) && CanComplete(Do(s, a), k)
    ensures CanComplete(s, k)
  {
    var acts :| Runs(Do(s, a), acts) && k in After(Do(s, a), acts).records
        && After(Do(s, a), acts).records[k].state == Completed;
    StepThenRun(s, a, acts);
  }

  lemma CompletesNow(s: State, k: Key)
    requires k in s.records && s.records[k].state == Completed
    ensures CanComplete(s, k)
  {
    assert Runs(s, []) && After(s, []) == s;
  }

  lemma CompletingCompletes(s: State, k: Key)
    requires Inv(s) && k in s.records && s.requests[s.owner[k]].pc.Completing?
    ensures CanComplete(s, k)
  {
    var o := s.owner[k];
    assert RecordOk(s, k) && RequestOk(s, o);
    var a := Action.Complete(o, Normal);
    assert Do(s, a) == DoComplete(s, o, Normal);
    CompletesNow(Do(s, a), k);
    CompletesAfterStep(s, a, k);
  }

  const SOME_CODE: string := "000000"

  lemma CreatingCompletes(s: State, k: Key, code: string)
    requires Inv(s) && k in s.records && s.requests[s.owner[k]].pc.Creating?
    requires Insertable(s.requests[s.owner[k]], code) && code !in s.urls.codes
    ensures CanComplete(s, k)
  {
    var o := s.owner[k];
    assert RecordOk(s, k) && RequestOk(s, o);
    var a := Action.Insert(o, code, 0, Normal);
    StepKeepsInv(s, a);
    assert Do(s, a) == DoInsert(s, o, code, 0, Normal);
    CompletingCompletes(Do(s, a), k);
    CompletesAfterStep(s, a, k);
  }

  /** A pending key can still be completed exactly while its owner is completing, or is
      creating and its body, user and alias pass the checks that come after the reservation. */
  lemma PendingKeyCompletesIff(s: State, k: Key)
    requires Reachable(s) && k in s.records && s.records[k].state == Pending
    ensures k in s.owner && s.owner[k] in s.requests
    ensures CanComplete(s, k) <==> CanFinish(s.requests[s.owner[k]])
  {
    ReachableInv(s);
    assert RecordOk(s, k);
    var o := s.owner[k];
    var q := s.requests[o];
    if !CanFinish(q) {
      forall acts | Runs(s, acts) ensures k in After(s, acts).records && After(s, acts).records[k].state == Pending {
        OrphanedForever(s, acts, k);
      }
    } else if q.pc.Completing? {
      CompletingCompletes(s, k);
    } else {
      var code := if q.alias.Some? then q.alias.value else SOME_CODE;
      if code !in s.urls.codes {
        CreatingCompletes(s, k, code);
      } else {
        var free := DeleteRow(s.urls.codes[code]);
        StepKeepsInv(s, free);
        CreatingCompletes(Do(s, free), k, code);
        CompletesAfterStep(s, free, k);
      }
    }
  }

  /** The request arrives with a new key and finds its mutex free. */
  predicate ComesFirst(s: State, r: nat, p: nat, k: Key) {
    r !in s.requests && p !in s.dead && k !in s.records && Lock(p, LockKey(k)) !in s.held
  }

  /** What a first request does whose body, user or alias the checks refuse: no statement
      fails and nothing crashes. */
  function RefusedSteps(r: nat): seq<Action> {
    [Read(r, Normal), Action.Reserve(r, Normal), Refuse(r)]
  }

  lemma RefusalOrphansFromLookup(s: State, r: nat)
    requires At(s, r, Checking) && s.requests[r].key.Some? && PairOf(s.requests[r]) !in s.records
    requires !Acceptable(s.requests[r])
    ensures Runs(s, RefusedSteps(r)) && Orphaned(After(s, RefusedSteps(r)), PairOf(s.requests[r]))
  {
    var s1 := Do(s, Read(r, Normal));
    assert s1 == Move(s, r, Reserving, Normal);
    var s2 := DoReserve(s1, r, Normal);
    assert At(s2, r, Creating(0)) && Enabled(s2, Refuse(r));
    StepThenRun(s2, Refuse(r), []);
    StepThenRun(s1, Action.Reserve(r, Normal), [Refuse(r)]);
    StepThenRun(s, Read(r, Normal), [Action.Reserve(r, Normal), Refuse(r)]);
    assert RefusedSteps(r) == [Read(r, Normal)] + [Action.Reserve(r, Normal), Refuse(r)];
    assert [Action.Reserve(r, Normal), Refuse(r)] == [Action.Reserve(r, Normal)] + [Refuse(r)];
  }

  /** A first request that the checks refuse orphans its key, because the reservation comes
      before the checks. */
  lemma RefusalOrphansTheKey(s: State, a: Action)
    requires a.Arrive? && a.key.Some? && ComesFirst(s, a.id, a.process, Key(a.user, a.key.value))
    requires !(a.valid && a.user > 0 && (a.alias.Some? ==> CodeShaped(a.alias.value)))
    ensures var acts := [a] + ([Acquire(a.id)] + RefusedSteps(a.id));
            Runs(s, acts) && Orphaned(After(s, acts), Key(a.user, a.key.value))
  {
    var s1 := Do(s, a);
    var s2 := Do(s1, Acquire(a.id));
    assert At(s2, a.id, Checking) && !Acceptable(s2.requests[a.id]);
    RefusalOrphansFromLookup(s2, a.id);
    StepThenRun(s1, Acquire(a.id), RefusedSteps(a.id));
    StepThenRun(s, a, [Acquire(a.id)] + RefusedSteps(a.id));
  }

  /** Every key can end up orphaned, and then never completes. */
  lemma OrphansOccur(k: Key) returns (s: State)
    ensures Reachable(s) && Orphaned(s, k) && !CanComplete(s, k)
  {
    var start := State(map[], EMPTY, map[], map[], {}, map[], map[]);
    var arrive := Arrive(0, 0, k.userID, Some(k.text), false, "", None, "");
    RefusalOrphansTheKey(start, arrive);
    s := After(start, [arrive] + ([Acquire(0)] + RefusedSteps(0)));
    assert Initial(start);
    PendingKeyCompletesIff(s, k);
  }

  // ---- One process, no failing owner ----

  /** A step of a run in which there is one process, `home`, and no owner's reservation,
      creation or completion fails. Lookups, and reservations before their commit, may fail. */
  predicate Smooth(s: State, home: nat, a: Action)
    requires Enabled(s, a)
  {
    match a
    case Arrive(_, p, _, _, _, _, _, _) => p == home
    case Reserve(_, fate) => fate != LostAfter
    case Refuse(r) => s.requests[r].key.None?
    case Insert(r, _, _, fate) => s.requests[r].key.Some? ==> fate == Normal && !Do(s, a).requests[r].pc.Finished?
    case Complete(_, fate) => fate == Normal
    case Crash(_) => false
    case _ => true
  }

  /** The request is inside the section guarded by its pair's mutex. */
  predicate Inside(q: Request) {
    q.key.Some? && (q.pc.Checking? || q.pc.Reserving? || q.pc.Creating? || q.pc.Completing?)
  }

  predicate SmoothRequest(s: State, home: nat, r: nat)
    requires r in s.requests
  {
    var q := s.requests[r];
    && q.process == home && !q.pc.Crashed? && !q.pc.Rechecking?
    && (Inside(q) ==> LockOf(q) in s.held && s.held[LockOf(q)] == r)
    && (q.key.Some? && q.pc.Reserving? ==> PairOf(q) !in s.records)
    && (q.key.Some? && q.faulted ==> q.pc.Finished?)
    && (q.key.Some? && q.pc.Finished? ==> q.pc.reply.Replied? || (q.pc.reply == ServerError && q.faulted))
  }

  predicate SmoothRecord(s: State, k: Key)
    requires k in s.records
  {
    s.records[k].state == Pending ==>
      k in s.owner && s.owner[k] in s.requests
          && (s.requests[s.owner[k]].pc.Creating? || s.requests[s.owner[k]].pc.Completing?)
  }

  /** A held mutex is held by a request with that pair that has entered the section. */
  predicate SmoothLock(s: State, l: Lock)
    requires l in s.held
  {
    && s.held[l] in s.requests
    && s.requests[s.held[l]].key.Some? && LockOf(s.requests[s.held[l]]) == l && !s.requests[s.held[l]].pc.Arrived?
  }

  ghost predicate SmoothInv(s: State, home: nat) {
    && (forall r <- s.requests :: SmoothRequest(s, home, r))
    && (forall k <- s.records :: SmoothRecord(s, k))
    && (forall l <- s.held :: SmoothLock(s, l))
  }

  /** While a key is pending its mutex is held by the owner, so no other request with the key
      is inside the guarded section. */
  lemma PendingMeansLocked(s: State, home: nat, k: Key)
    requires Inv(s) && SmoothInv(s, home) && k in s.records && s.records[k].state == Pending
    ensures Lock(home, LockKey(k)) in s.held && s.held[Lock(home, LockKey(k))] == s.owner[k]
    ensures forall r <- s.requests :: Inside(s.requests[r]) && PairOf(s.requests[r]) == k ==> r == s.owner[k]
  {
  }

  /** Locks of requests inside survive other requests' steps. */
  lemma HeldKept(s: State, home: nat, a: Action, r: nat)
    requires SmoothInv(s, home) && Enabled(s, a) && r in s.requests && Inside(s.requests[r]) && !a.Crash?
    ensures LockOf(s.requests[r]) in Do(s, a).held && Do(s, a).held[LockOf(s.requests[r])] == r
  {
    assert SmoothRequest(s, home, r);
    match a
    case Insert(q, code, at, fate) => InsertShape(s, q, code, at, fate);
    case _ =>
  }

  /** A key free for a request that is about to reserve it stays free under others' steps. */
  lemma KeyStaysFree(s: State, home: nat, a: Action, r: nat)
    requires Enabled(s, a) && Smooth(s, home, a) && SmoothInv(s, home)
    requires r in s.requests && s.requests[r].key.Some? && s.requests[r].pc.Reserving? && SmoothRequest(s, home, r)
    requires r in Do(s, a).requests && Do(s, a).requests[r].pc.Reserving?
    ensures PairOf(s.requests[r]) !in Do(s, a).records
  {
    if a.Reserve? {
      assert SmoothRequest(s, home, a.id);
      assert Do(s, a) == DoReserve(s, a.id, a.fate);
    } else if a.Complete? {
      assert Do(s, a) == DoComplete(s, a.id, a.fate);
    } else {
      RecordsTouched(s, a);
    }
  }

  lemma BystanderSmooth(s: State, home: nat, a: Action, r: nat)
    requires SmoothInv(s, home) && Enabled(s, a) && Smooth(s, home, a)
    requires r in s.requests && r in Do(s, a).requests && Do(s, a).requests[r] == s.requests[r]
    ensures SmoothRequest(Do(s, a), home, r)
  {
    var q := s.requests[r];
    assert SmoothRequest(s, home, r);
    if Inside(q) {
      HeldKept(s, home, a, r);
    }
    if q.key.Some? && q.pc.Reserving? {
      KeyStaysFree(s, home, a, r);
    }
  }

  /** A lookup under the lock never meets a pending record. */
  lemma ReadSmooth(s: State, home: nat, r: nat, fate: Fate)
    requires Inv(s) && SmoothInv(s, home) && Enabled(s, Read(r, fate))
    ensures SmoothRequest(Do(s, Read(r, fate)), home, r)
  {
    assert SmoothRequest(s, home, r) && RequestOk(s, r);
    var k := PairOf(s.requests[r]);
    if k in s.records && s.records[k].state == Pending {
      PendingMeansLocked(s, home, k);
    }
  }

  lemma ReserveSmooth(s: State, home: nat, r: nat, fate: Fate)
    requires Enabled(s, Action.Reserve(r, fate)) && fate != LostAfter && SmoothRequest(s, home, r)
    ensures SmoothRequest(DoReserve(s, r, fate), home, r)
  {
  }

  lemma InsertSmooth(s: State, home: nat, r: nat, code: string, at: int, fate: Fate)
    requires Enabled(s, Action.Insert(r, code, at, fate)) && Smooth(s, home, Action.Insert(r, code, at, fate))
    requires SmoothRequest(s, home, r)
    ensures SmoothRequest(DoInsert(s, r, code, at, fate), home, r)
  {
    InsertShape(s, r, code, at, fate);
  }

  lemma CompleteSmooth(s: State, home: nat, r: nat)
    requires Enabled(s, Action.Complete(r, Normal)) && RequestOk(s, r) && SmoothRequest(s, home, r)
    ensures SmoothRequest(DoComplete(s, r, Normal), home, r)
    ensures DoComplete(s, r, Normal).requests[r].pc == Finished(Replied(CREATED, s.requests[r].pc.pending))
  {
  }

  lemma AcquireSmooth(s: State, home: nat, r: nat)
    requires Enabled(s, Acquire(r)) && r in s.requests && SmoothRequest(s, home, r)
    ensures SmoothRequest(Do(s, Acquire(r)), home, r)
  {
  }

  lemma WriterSmooth(s: State, home: nat, a: Action)
    requires Enabled(s, a) && Smooth(s, home, a) && (a.Reserve? || a.Insert? || a.Complete?)
    requires RequestOk(s, a.id) && SmoothRequest(s, home, a.id)
    ensures a.id in Do(s, a).requests && SmoothRequest(Do(s, a), home, a.id)
    ensures forall r <- Do(s, a).requests :: r != a.id ==> r in s.requests && Do(s, a).requests[r] == s.requests[r]
  {
    match a
    case Reserve(r, fate) =>
      assert Do(s, a) == DoReserve(s, r, fate);
      ReserveSmooth(s, home, r, fate);
    case Insert(r, code, at, fate) =>
      InsertShape(s, r, code, at, fate);
      InsertSmooth(s, home, r, code, at, fate);
    case Complete(r, fate) =>
      assert Do(s, a) == DoComplete(s, r, fate);
      CompleteSmooth(s, home, r);
  }

  lemma ActorSmooth(s: State, home: nat, a: Action, r: nat)
    requires Inv(s) && SmoothInv(s, home) && Enabled(s, a) && Smooth(s, home, a)
    requires r in Do(s, a).requests && (r !in s.requests || Do(s, a).requests[r] != s.requests[r])
    ensures SmoothRequest(Do(s, a), home, r)
  {
    if r in s.requests {
      assert SmoothRequest(s, home, r) && RequestOk(s, r);
    }
    if a.Reserve? || a.Insert? || a.Complete? {
      assert SmoothRequest(s, home, a.id) && RequestOk(s, a.id);
      WriterSmooth(s, home, a);
    } else {
      match a
      case Read(_, fate) => ReadSmooth(s, home, r, fate);
      case Acquire(_) => AcquireSmooth(s, home, r);
      case _ =>
    }
  }

  /** An owner at work stays at work until it completes. */
  lemma OwnerStays(s: State, home: nat, a: Action, o: nat)
    requires Enabled(s, a) && Smooth(s, home, a) && o in s.requests && s.requests[o].key.Some?
    requires s.requests[o].pc.Creating? || s.requests[o].pc.Completing?
    requires !(a.Complete? && a.id == o)
    ensures o in Do(s, a).requests && (Do(s, a).requests[o].pc.Creating? || Do(s, a).requests[o].pc.Completing?)
  {
    if !Concerns(s, a, o) {
      OthersLeaveAlone(s, a, o);
    } else {
      assert a.Insert? || a.Release?;
      if a.Insert? {
        InsertShape(s, o, a.code, a.at, a.fate);
      }
    }
  }

  lemma NewRecordSmooth(s: State, home: nat, a: Action, k: Key)
    requires Enabled(s, a) && Smooth(s, home, a) && k !in s.records && k in Do(s, a).records
    ensures SmoothRecord(Do(s, a), k)
  {
    RecordsTouched(s, a);
    if a.Reserve? {
      assert Do(s, a) == DoReserve(s, a.id, a.fate);
    }
  }

  lemma OldRecordSmooth(s: State, home: nat, a: Action, k: Key)
    requires Enabled(s, a) && Smooth(s, home, a)
    requires k in s.records && k in Do(s, a).records && RecordOk(s, k) && RequestOk(s, s.owner[k]) && SmoothRecord(s, k)
    ensures SmoothRecord(Do(s, a), k)
  {
    var o := s.owner[k];
    if s.records[k].state == Completed {
      CompletedStays(s, a, k);
    } else if a.Complete? && a.id == o {
      CompleteCases(s, o, Normal);
      assert Do(s, a) == DoComplete(s, o, Normal);
    } else {
      OwnerStays(s, home, a, o);
      OwnerKept(s, a, k);
    }
  }

  /** A request that has entered the section stays the same call and never arrives again. */
  lemma EnteredStays(s: State, a: Action, r: nat)
    requires Enabled(s, a) && !a.Crash? && r in s.requests && !s.requests[r].pc.Arrived?
    ensures r in Do(s, a).requests && !Do(s, a).requests[r].pc.Arrived?
    ensures Do(s, a).requests[r].key == s.requests[r].key && Do(s, a).requests[r].user == s.requests[r].user
    ensures Do(s, a).requests[r].process == s.requests[r].process
  {
    if !Concerns(s, a, r) {
      OthersLeaveAlone(s, a, r);
    } else if a.Insert? {
      InsertShape(s, r, a.code, a.at, a.fate);
    }
  }

  lemma LockKept(s: State, home: nat, a: Action, l: Lock)
    requires SmoothInv(s, home) && Enabled(s, a) && Smooth(s, home, a) && l in Do(s, a).held
    ensures SmoothLock(Do(s, a), l)
  {
    if a.Acquire? && l == LockOf(s.requests[a.id]) {
    } else {
      HeldOnlyByAcquire(s, a, l);
      assert SmoothLock(s, l);
      EnteredStays(s, a, s.held[l]);
    }
  }

  lemma HeldOnlyByAcquire(s: State, a: Action, l: Lock)
    requires Enabled(s, a) && l in Do(s, a).held && !(a.Acquire? && l == LockOf(s.requests[a.id]))
    ensures l in s.held && Do(s, a).held[l] == s.held[l]
  {
    match a
    case Insert(r, code, at, fate) => InsertShape(s, r, code, at, fate);
    case _ =>
  }

  lemma SmoothStepKept(s: State, home: nat, a: Action)
    requires Inv(s) && SmoothInv(s, home) && Enabled(s, a) && Smooth(s, home, a)
    ensures SmoothInv(Do(s, a), home)
  {
    var s' := Do(s, a);
    forall r <- s'.requests ensures SmoothRequest(s', home, r) {
      if r in s.requests && s'.requests[r] == s.requests[r] {
        BystanderSmooth(s, home, a, r);
      } else {
        ActorSmooth(s, home, a, r);
      }
    }
    forall k <- s'.records ensures SmoothRecord(s', k) {
      if k in s.records {
        assert RecordOk(s, k) && SmoothRecord(s, k) && RequestOk(s, s.owner[k]);
        OldRecordSmooth(s, home, a, k);
      } else {
        NewRecordSmooth(s, home, a, k);
      }
    }
    forall l <- s'.held {
      LockKept(s, home, a, l);
    }
  }

  ghost predicate SmoothRun(s: State, home: nat, acts: seq<Action>)
    decreases |acts|
  {
    acts == [] || (Enabled(s, acts[0]) && Smooth(s, home, acts[0]) && SmoothRun(Do(s, acts[0]), home, acts[1..]))
  }

  lemma {:induction false} SmoothRunKeeps(s: State, home: nat, acts: seq<Action>)
    requires Inv(s) && SmoothInv(s, home) && SmoothRun(s, home, acts)
    ensures Runs(s, acts) && Inv(After(s, acts)) && SmoothInv(After(s, acts), home)
    decreases |acts|
  {
    if acts == [] {
    } else {
      StepKeepsInv(s, acts[0]);
      SmoothStepKept(s, home, acts[0]);
      SmoothRunKeeps(Do(s, acts[0]), home, acts[1..]);
    }
  }

  /** In one process whose owners never fail, nobody is told 409 and the branch after a lost
      reservation is never entered: every request with a key that ends, and met no failure of
      its own, replies 201 with the one body stored for its pair. */
  lemma SingleProcessReplies(s: State, home: nat, acts: seq<Action>, r: nat)
    requires Initial(s) && SmoothRun(s, home, acts)
    ensures Runs(s, acts)
    ensures r in After(s, acts).requests && After(s, acts).requests[r].key.Some? ==>
              var q := After(s, acts).requests[r];
              && !q.pc.Rechecking? && q.pc != Finished(InProgress)
              && (q.pc.Finished? && !q.faulted ==>
                    && PairOf(q) in After(s, acts).records
                    && q.pc.reply == Replied(CREATED, After(s, acts).records[PairOf(q)].body))
  {
    SmoothRunKeeps(s, home, acts);
    var end := After(s, acts);
    if r in end.requests && end.requests[r].key.Some? {
      assert SmoothRequest(end, home, r) && RequestOk(end, r);
      var k := PairOf(end.requests[r]);
      if k in end.records {
        assert RecordOk(end, k);
      }
    }
  }
}
