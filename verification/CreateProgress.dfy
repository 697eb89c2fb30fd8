/** Requests of a single process whose owners do not fail do come to an end: when a step is
    possible, and how each request can be brought to its reply. */
module CreateProgress {
  import opened Wrappers
  import opened Faults
  import opened UrlStore
  import opened ShortCodes
  import opened IdempotencyStore
  import opened CreateProtocol
  import opened CreateOutcomes

  // ---- When somebody can move ----

  /** The alias is free, or some code that can be drawn. */
  ghost predicate NameFree(codes: map<string, int>, alias: Option<string>) {
    if alias.Some? then alias.value !in codes else exists code :: GeneratedShape(code) && code !in codes
  }

  /** Creation can go on without failing: the checks pass, and there is a free name or another
      attempt left. */
  ghost predicate Proceeds(s: State, q: Request) {
    q.pc.Creating? ==>
      && Acceptable(q)
      && (NameFree(s.urls.codes, q.alias) || (q.alias.None? && q.pc.attempt + 1 != MAX_ATTEMPTS))
  }

  /** A step that request r takes itself. */
  predicate StepOf(a: Action, r: nat) {
    match a
    case Arrive(_, _, _, _, _, _, _, _) => false
    case UpdateRow(_) => false
    case DeleteRow(_) => false
    case Crash(_) => false
    case _ => a.id == r
  }

  /** Who is next for the request's pair: the holder of its mutex, or the request itself. */
  function Mover(s: State, r: nat): nat
    requires r in s.requests && s.requests[r].key.Some?
  {
    if LockOf(s.requests[r]) in s.held then s.held[LockOf(s.requests[r])] else r
  }

  ghost predicate CanStep(s: State, home: nat, r: nat) {
    exists a :: Enabled(s, a) && Smooth(s, home, a) && StepOf(a, r)
  }

  /** The holder has entered the section or, if the mutex is free, the request has arrived. */
  lemma MoverStands(s: State, home: nat, r: nat)
    requires SmoothInv(s, home) && r in s.requests && s.requests[r].key.Some? && !s.requests[r].pc.Finished?
    ensures Mover(s, r) in s.requests && s.requests[Mover(s, r)].key.Some?
    ensures LockOf(s.requests[Mover(s, r)]) == LockOf(s.requests[r])
    ensures LockOf(s.requests[r]) in s.held ==>
              Inside(s.requests[Mover(s, r)]) || s.requests[Mover(s, r)].pc.Finished?
    ensures LockOf(s.requests[r]) !in s.held ==> s.requests[r].pc == Arrived
    ensures Mover(s, r) != r ==> s.requests[r].pc == Arrived
  {
    assert SmoothRequest(s, home, r);
    if LockOf(s.requests[r]) in s.held {
      assert SmoothLock(s, LockOf(s.requests[r])) && SmoothRequest(s, home, Mover(s, r));
    }
  }

  /** An INSERT of a drawn code, or of the alias, that does not end the creation. */
  lemma CreatingSteps(s: State, home: nat, h: nat, code: string)
    requires h in s.requests && s.requests[h].key.Some? && s.requests[h].pc.Creating? && Insertable(s.requests[h], code)
    requires code !in s.urls.codes || (s.requests[h].alias.None? && s.requests[h].pc.attempt + 1 != MAX_ATTEMPTS)
    ensures Smooth(s, home, Insert(h, code, 0, Normal))
  {
    InsertShape(s, h, code, 0, Normal);
  }

  lemma CreatorSteps(s: State, home: nat, h: nat)
    requires h in s.requests && s.requests[h].key.Some? && s.requests[h].pc.Creating? && Proceeds(s, s.requests[h])
    ensures CanStep(s, home, h)
  {
    var q := s.requests[h];
    var code := SOME_CODE;
    if q.alias.Some? {
      code := q.alias.value;
    } else if c :| GeneratedShape(c) && c !in s.urls.codes {
      code := c;
    }
    CreatingSteps(s, home, h, code);
    assert StepOf(Insert(h, code, 0, Normal), h);
  }

  lemma OtherSteps(s: State, home: nat, h: nat)
    requires h in s.requests && s.requests[h].key.Some? && !s.requests[h].pc.Creating?
    requires Inside(s.requests[h]) || (s.requests[h].pc == Arrived && LockOf(s.requests[h]) !in s.held)
             || (s.requests[h].pc.Finished? && HoldsLock(s, h))
    ensures CanStep(s, home, h)
  {
    var a :=
      match s.requests[h].pc
      case Arrived => Acquire(h)
      case Checking => Read(h, Normal)
      case Reserving => Action.Reserve(h, Normal)
      case Completing(_) => Action.Complete(h, Normal)
      case _ => Release(h);
    assert Enabled(s, a) && Smooth(s, home, a) && StepOf(a, h);
  }

  lemma MoverSteps(s: State, home: nat, r: nat)
    requires SmoothInv(s, home) && r in s.requests && s.requests[r].key.Some? && !s.requests[r].pc.Finished?
    requires Mover(s, r) in s.requests && Proceeds(s, s.requests[Mover(s, r)])
    ensures CanStep(s, home, Mover(s, r))
  {
    MoverStands(s, home, r);
    if s.requests[Mover(s, r)].pc.Creating? {
      CreatorSteps(s, home, Mover(s, r));
    } else {
      OtherSteps(s, home, Mover(s, r));
    }
  }

  lemma OnlyProceedingSteps(s: State, home: nat, h: nat)
    requires h in s.requests && s.requests[h].key.Some? && s.requests[h].pc.Creating? && CanStep(s, home, h)
    ensures Proceeds(s, s.requests[h])
  {
    var a :| Enabled(s, a) && Smooth(s, home, a) && StepOf(a, h);
    InsertShape(s, h, a.code, a.at, a.fate);
  }

  lemma WaiterCannotStep(s: State, home: nat, r: nat)
    requires At(s, r, Arrived) && s.requests[r].key.Some? && LockOf(s.requests[r]) in s.held
    ensures !CanStep(s, home, r)
  {
  }

  /** While a request with a key has not ended, it or the holder of its mutex can take a step in
      which no owner fails, exactly unless the one that is next is creating and cannot succeed:
      its body, user or alias is refused, or no name is free for its last attempt. */
  lemma ProgressIff(s: State, home: nat, r: nat)
    requires SmoothInv(s, home) && r in s.requests && s.requests[r].key.Some? && !s.requests[r].pc.Finished?
    ensures Mover(s, r) in s.requests
    ensures CanStep(s, home, r) || CanStep(s, home, Mover(s, r)) <==> Proceeds(s, s.requests[Mover(s, r)])
  {
    MoverStands(s, home, r);
    var m := Mover(s, r);
    if Proceeds(s, s.requests[m]) {
      MoverSteps(s, home, r);
    } else {
      if CanStep(s, home, m) {
        OnlyProceedingSteps(s, home, m);
      }
      if m != r {
        WaiterCannotStep(s, home, r);
      }
    }
  }

  // ---- Coming to the end ----

  /** The request will have to create, and so needs a name. */
  predicate NeedsName(s: State, q: Request)
    requires q.key.Some?
  {
    q.pc.Creating? || q.pc.Reserving? || ((q.pc.Arrived? || q.pc.Checking?) && PairOf(q) !in s.records)
  }

  ghost predicate Ready(s: State, q: Request) {
    q.key.Some? && (NeedsName(s, q) ==> Acceptable(q) && NameFree(s.urls.codes, q.alias))
  }

  /** Steps of request h alone: everybody else stands where they stood. */
  predicate OnlyMoved(s: State, s': State, h: nat) {
    && h in s.requests && s'.requests.Keys == s.requests.Keys && s'.held == s.held
    && SameCall(s.requests[h], s'.requests[h]) && s'.requests[h].faulted == s.requests[h].faulted
    && forall r <- s.requests :: r != h ==> s'.requests[r] == s.requests[r]
  }

  /** Steps from the present one to the reply. */
  function Rank(pc: PC): nat {
    match pc
    case Checking => 4
    case Reserving => 3
    case Creating(_) => 2
    case Completing(_) => 1
    case _ => 0
  }

  /** The step of one request inside the section, towards its reply. */
  ghost predicate Brings(s: State, s': State, h: nat) {
    && OnlyMoved(s, s', h) && Ready(s', s'.requests[h])
    && (Inside(s'.requests[h]) || s'.requests[h].pc.Finished?)
    && Rank(s'.requests[h].pc) < Rank(s.requests[h].pc)
  }

  lemma ReadBrings(s: State, h: nat)
    requires At(s, h, Checking) && Ready(s, s.requests[h])
    ensures Brings(s, Move(s, h, Looked(s, h, Normal, Reserving), Normal), h)
  {
  }

  lemma ReserveBrings(s: State, h: nat)
    requires At(s, h, Reserving) && Ready(s, s.requests[h]) && PairOf(s.requests[h]) !in s.records
    ensures Brings(s, DoReserve(s, h, Normal), h)
  {
  }

  lemma InsertBrings(s: State, h: nat, code: string)
    requires h in s.requests && s.requests[h].key.Some? && s.requests[h].pc.Creating? && RequestOk(s, h)
    requires Insertable(s.requests[h], code) && code !in s.urls.codes
    ensures Brings(s, DoInsert(s, h, code, 0, Normal), h)
  {
    InsertShape(s, h, code, 0, Normal);
    InserterFacts(s.requests[h], OutcomeOf(s, s.requests[h], code, 0, Normal), Normal);
  }

  lemma CompleteBrings(s: State, h: nat)
    requires h in s.requests && s.requests[h].key.Some? && s.requests[h].pc.Completing? && RequestOk(s, h)
    ensures Brings(s, DoComplete(s, h, Normal), h)
  {
  }

  /** The next step of a request inside the section. */
  lemma InsideSteps(s: State, home: nat, h: nat) returns (a: Action)
    requires h in s.requests && Inside(s.requests[h]) && Ready(s, s.requests[h])
    requires RequestOk(s, h) && SmoothRequest(s, home, h)
    ensures Enabled(s, a) && Smooth(s, home, a) && Brings(s, Do(s, a), h)
  {
    var q := s.requests[h];
    if q.pc.Checking? {
      a := Read(h, Normal);
      ReadBrings(s, h);
    } else if q.pc.Reserving? {
      a := Action.Reserve(h, Normal);
      ReserveBrings(s, h);
    } else if q.pc.Creating? {
      var code :| Insertable(q, code) && code !in s.urls.codes;
      a := Insert(h, code, 0, Normal);
      CreatingSteps(s, home, h, code);
      InsertBrings(s, h, code);
    } else {
      a := Action.Complete(h, Normal);
      CompleteBrings(s, h);
    }
  }

  lemma OnlyMovedJoins(s: State, s1: State, s2: State, h: nat)
    requires OnlyMoved(s, s1, h) && OnlyMoved(s1, s2, h)
    ensures OnlyMoved(s, s2, h)
  {
  }

  /** What a run that is smooth to its end keeps. */
  ghost predicate Leads(s: State, home: nat, acts: seq<Action>, end: State) {
    SmoothRun(s, home, acts) && Runs(s, acts) && After(s, acts) == end && Inv(end) && SmoothInv(end, home)
  }

  lemma StepLeads(s: State, home: nat, a: Action, rest: seq<Action>, end: State)
    requires Inv(s) && SmoothInv(s, home) && Enabled(s, a) && Smooth(s, home, a)
    requires (rest == [] && end == Do(s, a)) || Leads(Do(s, a), home, rest, end)
    ensures Leads(s, home, [a] + rest, end)
  {
    StepKeepsInv(s, a);
    SmoothStepKept(s, home, a);
    assert ([a] + rest)[1..] == rest;
  }

  lemma {:induction false} LeadsJoin(s: State, home: nat, first: seq<Action>, middle: State, rest: seq<Action>,
                                     end: State)
    requires Leads(s, home, first, middle) && Leads(middle, home, rest, end)
    ensures Leads(s, home, first + rest, end)
    decreases |first|
  {
    if first == [] {
      assert first + rest == rest;
    } else {
      assert first[1..] + rest == (first + rest)[1..];
      LeadsJoin(Do(s, first[0]), home, first[1..], middle, rest, end);
    }
  }

  /** A request inside the section comes to its reply on its own. */
  lemma {:induction false} FinishInside(s: State, home: nat, h: nat) returns (acts: seq<Action>, end: State)
    requires Inv(s) && SmoothInv(s, home) && h in s.requests && Inside(s.requests[h]) && Ready(s, s.requests[h])
    ensures Leads(s, home, acts, end) && OnlyMoved(s, end, h) && end.requests[h].pc.Finished?
    decreases Rank(s.requests[h].pc)
  {
    assert RequestOk(s, h) && SmoothRequest(s, home, h);
    var a := InsideSteps(s, home, h);
    var s1 := Do(s, a);
    if s1.requests[h].pc.Finished? {
      acts, end := [a] + [], s1;
      StepLeads(s, home, a, [], end);
    } else {
      StepKeepsInv(s, a);
      SmoothStepKept(s, home, a);
      var rest;
      rest, end := FinishInside(s1, home, h);
      acts := [a] + rest;
      StepLeads(s, home, a, rest, end);
      OnlyMovedJoins(s, s1, end, h);
    }
  }

  /** The request has a reply in JSON, which is the completed record of its pair. */
  predicate Answered(s: State, r: nat) {
    && r in s.requests && s.requests[r].key.Some? && s.requests[r].pc.Finished? && s.requests[r].pc.reply.Replied?
    && PairOf(s.requests[r]) in s.records
    && s.records[PairOf(s.requests[r])] == Record(s.requests[r].pc.reply.body, CREATED, Completed)
  }

  lemma FinishedIsAnswered(s: State, home: nat, r: nat)
    requires Inv(s) && SmoothInv(s, home) && r in s.requests && s.requests[r].key.Some?
    requires s.requests[r].pc.Finished? && !s.requests[r].faulted
    ensures Answered(s, r)
  {
    assert SmoothRequest(s, home, r) && RequestOk(s, r);
    assert RecordOk(s, PairOf(s.requests[r]));
  }

  /** A request that finds its mutex free enters and comes to its reply. */
  lemma FinishArrived(s: State, home: nat, r: nat) returns (acts: seq<Action>, end: State)
    requires Inv(s) && SmoothInv(s, home) && At(s, r, Arrived) && s.requests[r].key.Some?
    requires LockOf(s.requests[r]) !in s.held && Ready(s, s.requests[r])
    ensures Leads(s, home, acts, end) && Answered(end, r)
  {
    var a := Acquire(r);
    assert SmoothRequest(s, home, r);
    StepKeepsInv(s, a);
    SmoothStepKept(s, home, a);
    var rest;
    rest, end := FinishInside(Do(s, a), home, r);
    FinishedIsAnswered(end, home, r);
    acts := [a] + rest;
    StepLeads(s, home, a, rest, end);
  }

  /** A holder that has its reply releases the mutex, and the next request comes to its own. */
  lemma FinishAfterRelease(s: State, home: nat, h: nat, r: nat) returns (acts: seq<Action>, end: State)
    requires Inv(s) && SmoothInv(s, home) && HoldsLock(s, h) && s.requests[h].pc.Finished?
    requires At(s, r, Arrived) && s.requests[r].key.Some? && LockOf(s.requests[r]) == LockOf(s.requests[h])
    requires Ready(s, s.requests[r])
    ensures Leads(s, home, acts, end) && Answered(end, r)
  {
    var a := Release(h);
    StepKeepsInv(s, a);
    SmoothStepKept(s, home, a);
    var rest;
    rest, end := FinishArrived(Do(s, a), home, r);
    acts := [a] + rest;
    StepLeads(s, home, a, rest, end);
  }

  lemma SameLockSamePair(q: Request, p: Request)
    requires q.key.Some? && p.key.Some? && LockOf(q) == LockOf(p)
    ensures PairOf(q) == PairOf(p)
  {
    LockKeyInjective(PairOf(q), PairOf(p));
  }

  /** Once the holder is answered, the request waiting for the same pair needs no name. */
  lemma AnsweredPairIsReady(s: State, h: nat, r: nat)
    requires Answered(s, h) && At(s, r, Arrived) && s.requests[r].key.Some?
    requires LockOf(s.requests[r]) == LockOf(s.requests[h])
    ensures Ready(s, s.requests[r])
  {
    SameLockSamePair(s.requests[r], s.requests[h]);
  }

  /** Every request with a key that is ready, behind a holder that is ready, can be brought to
      its 201 by steps in which no owner fails. */
  lemma RequestsCanFinish(s: State, home: nat, r: nat) returns (acts: seq<Action>, end: State)
    requires Inv(s) && SmoothInv(s, home) && r in s.requests && s.requests[r].key.Some? && !s.requests[r].pc.Finished?
    requires Ready(s, s.requests[r])
    requires Mover(s, r) in s.requests && Ready(s, s.requests[Mover(s, r)])
    ensures Leads(s, home, acts, end) && Answered(end, r)
  {
    MoverStands(s, home, r);
    var h := Mover(s, r);
    assert SmoothRequest(s, home, h);
    if LockOf(s.requests[r]) !in s.held {
      acts, end := FinishArrived(s, home, r);
    } else if s.requests[h].pc.Finished? {
      acts, end := FinishAfterRelease(s, home, h, r);
    } else {
      acts, end := FinishInside(s, home, h);
      FinishedIsAnswered(end, home, h);
      if h != r {
        AnsweredPairIsReady(end, h, r);
        var middle, rest := end, [];
        rest, end := FinishAfterRelease(middle, home, h, r);
        LeadsJoin(s, home, acts, middle, rest, end);
        acts := acts + rest;
      }
    }
  }

  /** In particular the first request with an accepted body is answered. */
  lemma FirstRequestIsAnswered(s: State, home: nat, a: Action) returns (acts: seq<Action>, end: State)
    requires Initial(s) && a.Arrive? && a.process == home && a.key.Some?
    requires a.valid && a.user > 0 && (a.alias.Some? ==> CodeShaped(a.alias.value))
    ensures Leads(s, home, acts, end) && Answered(end, a.id)
  {
    StepKeepsInv(s, a);
    SmoothStepKept(s, home, a);
    assert GeneratedShape(SOME_CODE) && SOME_CODE !in s.urls.codes;
    var rest;
    rest, end := FinishArrived(Do(s, a), home, a.id);
    acts := [a] + rest;
    StepLeads(s, home, a, rest, end);
  }
}
