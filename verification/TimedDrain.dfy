/** How long the worker pool needs to drain after close (worker/click_worker.go:82-135): every
    attempt lasts at most the timeout of its context, every pause as long as its backoff, and
    goroutines are scheduled at no cost. */
module TimedDrain {
  import opened Arithmetic
  import opened ClickWorker
  import opened Faults

  datatype Config = Config(maxRetries: nat, base: int)

  /** Idle: waiting at the channel. Trying: attempt number `attempt` of the event taken at
      `started` ends at instant `until`. Sleeping: the pause before attempt number `attempt`
      ends at `until`. */
  datatype Worker =
    | Idle
    | Trying(started: int, attempt: nat, until: int)
    | Sleeping(started: int, attempt: nat, until: int)
    | Gone

  /** The clock starts at the instant of close. */
  datatype State = State(now: int, queue: nat, workers: seq<Worker>)

  datatype Action =
    | Take(worker: nat, until: int)
    | Reply(worker: nat, fate: Fate)
    | Wake(worker: nat, until: int)
    | Leave(worker: nat)
    | Pass(dt: nat)
    | Accept

  predicate Busy(w: Worker) {
    w.Trying? || w.Sleeping?
  }

  predicate Prompt(s: State, until: int) {
    s.now <= until <= s.now + CREATE_TIMEOUT
  }

  /** What the workers can do, whether or not the channel is closed. */
  predicate Possible(s: State, a: Action) {
    match a
    case Take(w, until) => w < |s.workers| && s.workers[w].Idle? && s.queue > 0 && Prompt(s, until)
    case Reply(w, _) => w < |s.workers| && s.workers[w].Trying? && s.workers[w].attempt >= 1
        && s.workers[w].until == s.now
    case Wake(w, until) => w < |s.workers| && s.workers[w].Sleeping? && s.workers[w].until == s.now && Prompt(s, until)
    case Leave(w) => w < |s.workers| && s.workers[w].Idle? && s.queue == 0
    case Pass(dt) => forall w :: 0 <= w < |s.workers| && Busy(s.workers[w]) ==> s.now + dt <= s.workers[w].until
    case Accept => true
  }

  /** After close: time passes only when no worker can act, and freely once all have left. */
  predicate Enabled(s: State, a: Action) {
    && Possible(s, a) && !a.Accept?
    && (a.Pass? ==> forall w :: 0 <= w < |s.workers| ==> !s.workers[w].Idle?)
  }

  /** Before close: nobody leaves, and time passes only when no event waits for an idle worker. */
  predicate OpenEnabled(s: State, a: Action) {
    && Possible(s, a) && !a.Leave?
    && (a.Pass? && s.queue > 0 ==> forall w :: 0 <= w < |s.workers| ==> !s.workers[w].Idle?)
  }

  /** After an attempt the event is finished, or its next attempt is a pause away. */
  function AfterReply(cfg: Config, now: int, w: Worker, fate: Fate): Worker
    requires w.Trying? && w.attempt >= 1
  {
    if fate == Normal || w.attempt == cfg.maxRetries then Idle
    else Sleeping(w.started, w.attempt + 1, now + Max0(Backoff(cfg.base, w.attempt)))
  }

  function Do(cfg: Config, s: State, a: Action): State
    requires Possible(s, a)
  {
    match a
    case Take(w, until) => State(s.now, s.queue - 1, s.workers[w := Trying(s.now, 1, until)])
    case Reply(w, fate) => s.(workers := s.workers[w := AfterReply(cfg, s.now, s.workers[w], fate)])
    case Wake(w, until) => s.(workers := s.workers[w := Trying(s.workers[w].started, s.workers[w].attempt, until)])
    case Leave(w) => s.(workers := s.workers[w := Gone])
    case Pass(dt) => s.(now := s.now + dt)
    case Accept => s.(queue := s.queue + 1)
  }

  ghost predicate Runs(cfg: Config, s: State, acts: seq<Action>)
    decreases |acts|
  {
    acts == [] || (Enabled(s, acts[0]) && Runs(cfg, Do(cfg, s, acts[0]), acts[1..]))
  }

  ghost function After(cfg: Config, s: State, acts: seq<Action>): State
    requires Runs(cfg, s, acts)
    decreases |acts|
  {
    if acts == [] then s else After(cfg, Do(cfg, s, acts[0]), acts[1..])
  }

  // ---- The time of one event ----

  function EventTime(cfg: Config): int {
    TimeOf(cfg.base, cfg.maxRetries)
  }

  /** A busy worker is within the time of the attempts it has begun, and has made every pause
      between them in full. */
  predicate WithinTime(cfg: Config, w: Worker) {
    match w
    case Trying(started, n, until) =>
      && 1 <= n <= cfg.maxRetries
      && TotalSleep(cfg.base, n) <= until - started <= TotalSleep(cfg.base, n) + n * CREATE_TIMEOUT
    case Sleeping(started, n, until) =>
      && 2 <= n <= cfg.maxRetries
      && TotalSleep(cfg.base, n) <= until - started <= TotalSleep(cfg.base, n) + (n - 1) * CREATE_TIMEOUT
    case _ => true
  }

  /** So it ends before the time of one event is over. */
  lemma EndsInTime(cfg: Config, w: Worker)
    requires Busy(w) && WithinTime(cfg, w)
    ensures w.until <= w.started + EventTime(cfg)
  {
    TimesGrow(cfg.base, w.attempt, cfg.maxRetries);
  }

  lemma TakeWithinTime(cfg: Config, now: int, until: int)
    requires cfg.maxRetries >= 1 && now <= until <= now + CREATE_TIMEOUT
    ensures WithinTime(cfg, Trying(now, 1, until))
  {
  }

  lemma ReplyWithinTime(cfg: Config, now: int, w: Worker, fate: Fate)
    requires w.Trying? && w.until == now && WithinTime(cfg, w)
    ensures WithinTime(cfg, AfterReply(cfg, now, w, fate))
  {
    assert TotalSleep(cfg.base, w.attempt + 1) == TotalSleep(cfg.base, w.attempt) + Max0(Backoff(cfg.base, w.attempt));
  }

  // ---- When workers are free ----

  /** When the worker can take its next event at the latest, if one event takes at most `limit`;
      a worker that left never does, and counts as free in the past. */
  function FreeAt(limit: int, now: int, w: Worker): int {
    match w
    case Idle => now
    case Trying(started, _, _) => started + limit
    case Sleeping(started, _, _) => started + limit
    case Gone => 0
  }

  /** Workers free no later than `bound`. */
  function FreeBy(limit: int, now: int, workers: seq<Worker>, bound: int): nat {
    if workers == [] then 0
    else FreeBy(limit, now, workers[1..], bound) + if FreeAt(limit, now, workers[0]) <= bound then 1 else 0
  }

  lemma {:induction false} FreeByUpdate(limit: int, now: int, workers: seq<Worker>, bound: int, w: nat, x: Worker)
    requires w < |workers|
    ensures FreeBy(limit, now, workers[w := x], bound)
            == FreeBy(limit, now, workers, bound)
               - (if FreeAt(limit, now, workers[w]) <= bound then 1 else 0)
                   + (if FreeAt(limit, now, x) <= bound then 1 else 0)
  {
    if w == 0 {
      assert workers[w := x][1..] == workers[1..];
    } else {
      FreeByUpdate(limit, now, workers[1..], bound, w - 1, x);
      assert workers[w := x][1..] == workers[1..][w - 1 := x];
    }
  }

  lemma {:induction false} FreeByLater(limit: int, now: int, later: int, workers: seq<Worker>, bound: int)
    requires forall w :: 0 <= w < |workers| ==> !workers[w].Idle?
    ensures FreeBy(limit, now, workers, bound) == FreeBy(limit, later, workers, bound)
  {
    if workers == [] {
    } else {
      FreeByLater(limit, now, later, workers[1..], bound);
    }
  }

  lemma {:induction false} SomeoneFree(limit: int, now: int, workers: seq<Worker>, bound: int) returns (w: nat)
    requires FreeBy(limit, now, workers, bound) > 0
    ensures w < |workers| && FreeAt(limit, now, workers[w]) <= bound
  {
    if FreeAt(limit, now, workers[0]) <= bound {
      w := 0;
    } else {
      var rest := SomeoneFree(limit, now, workers[1..], bound);
      w := rest + 1;
    }
  }

  lemma {:induction false} AllFree(limit: int, now: int, workers: seq<Worker>, bound: int)
    requires forall w :: 0 <= w < |workers| ==> FreeAt(limit, now, workers[w]) <= bound
    ensures FreeBy(limit, now, workers, bound) == |workers|
  {
    if workers == [] {
    } else {
      AllFree(limit, now, workers[1..], bound);
    }
  }

  // ---- The schedule ----

  /** Events taken of those queued at close. */
  function Taken(total: nat, s: State): int {
    total - s.queue
  }

  function Rounds(total: nat, s: State): int
    requires |s.workers| >= 1
  {
    Taken(total, s) / |s.workers|
  }

  predicate WorkerClean(cfg: Config, limit: int, s: State, w: Worker) {
    && WithinTime(cfg, w)
    && (Busy(w) ==> s.now <= w.until <= w.started + limit)
    && (w.Gone? ==> s.queue == 0)
  }

  /** Nobody is busy in the past or beyond its time, and a worker leaves only an empty queue. */
  ghost predicate Clean(cfg: Config, limit: int, s: State) {
    forall w :: 0 <= w < |s.workers| ==> WorkerClean(cfg, limit, s, s.workers[w])
  }

  /** After round * n + r events have been taken, 0 <= r < n, at least n - r workers are free by
      (round + 1) * limit, and all by (round + 2) * limit. */
  ghost predicate OnSchedule(limit: int, total: nat, s: State) {
    var n := |s.workers|;
    && n >= 1 && limit >= 0 && 0 <= s.queue <= total && s.now >= 0
    && (s.queue > 0 ==>
          && FreeBy(limit, s.now, s.workers, (Rounds(total, s) + 1) * limit) >= n - Taken(total, s) % n
          && forall w :: 0 <= w < n ==> FreeAt(limit, s.now, s.workers[w]) <= (Rounds(total, s) + 2) * limit)
    && (s.queue == 0 ==> forall w :: 0 <= w < n ==>
        FreeAt(limit, s.now, s.workers[w]) <= (CeilDiv(total, n) + 1) * limit)
  }

  /** At close every worker is idle or busy with an event it took before. */
  ghost predicate AtClose(cfg: Config, s: State) {
    && s.now == 0 && |s.workers| >= 1 && cfg.maxRetries >= 1
    && forall w :: 0 <= w < |s.workers| ==>
         s.workers[w].Idle? || (Busy(s.workers[w]) && s.workers[w].started <= 0 <= s.workers[w].until
             && WithinTime(cfg, s.workers[w]))
  }

  // ---- Up to close ----

  /** The pool as Start leaves it; the clock is set so that close will be at 0. */
  ghost predicate Started(cfg: Config, s: State) {
    && |s.workers| >= 1 && cfg.maxRetries >= 1 && s.queue == 0
    && forall w :: 0 <= w < |s.workers| ==> s.workers[w].Idle?
  }

  predicate OpenRuns(cfg: Config, s: State, acts: seq<Action>)
    decreases |acts|
  {
    acts == [] || (OpenEnabled(s, acts[0]) && OpenRuns(cfg, Do(cfg, s, acts[0]), acts[1..]))
  }

  function OpenAfter(cfg: Config, s: State, acts: seq<Action>): State
    requires OpenRuns(cfg, s, acts)
    decreases |acts|
  {
    if acts == [] then s else OpenAfter(cfg, Do(cfg, s, acts[0]), acts[1..])
  }

  predicate WorkerOpen(cfg: Config, now: int, w: Worker) {
    w.Idle? || (Busy(w) && w.started <= now <= w.until && WithinTime(cfg, w))
  }

  lemma OpenStepKeepsWorker(cfg: Config, s: State, a: Action, w: nat)
    requires OpenEnabled(s, a) && cfg.maxRetries >= 1 && w < |s.workers| && WorkerOpen(cfg, s.now, s.workers[w])
    ensures w < |Do(cfg, s, a).workers| && WorkerOpen(cfg, Do(cfg, s, a).now, Do(cfg, s, a).workers[w])
  {
    match a
    case Take(_, until) => TakeWithinTime(cfg, s.now, until);
    case Reply(v, fate) =>
      if v == w {
        ReplyWithinTime(cfg, s.now, s.workers[w], fate);
      }
    case _ =>
  }

  lemma {:induction false} OpenRunKeepsWorkers(cfg: Config, s: State, acts: seq<Action>)
    requires OpenRuns(cfg, s, acts) && cfg.maxRetries >= 1
    requires forall w :: 0 <= w < |s.workers| ==> WorkerOpen(cfg, s.now, s.workers[w])
    ensures var end := OpenAfter(cfg, s, acts);
            |end.workers| == |s.workers| && forall w :: 0 <= w < |end.workers| ==>
                WorkerOpen(cfg, end.now, end.workers[w])
    decreases |acts|
  {
    if acts == [] {
    } else {
      forall w | 0 <= w < |s.workers| {
        OpenStepKeepsWorker(cfg, s, acts[0], w);
      }
      OpenRunKeepsWorkers(cfg, Do(cfg, s, acts[0]), acts[1..]);
    }
  }

  /** Whenever the started pool is closed, the drain begins as assumed. */
  lemma CloseFindsWorkersInTime(cfg: Config, s: State, acts: seq<Action>)
    requires Started(cfg, s) && OpenRuns(cfg, s, acts) && OpenAfter(cfg, s, acts).now == 0
    ensures AtClose(cfg, OpenAfter(cfg, s, acts))
  {
    OpenRunKeepsWorkers(cfg, s, acts);
    assert forall w :: 0 <= w < |OpenAfter(cfg, s, acts).workers| ==>
        WorkerOpen(cfg, 0, OpenAfter(cfg, s, acts).workers[w]);
  }

  // ---- From close on ----

  lemma FreeNotBeforeNow(cfg: Config, limit: int, s: State, w: nat)
    requires Clean(cfg, limit, s) && w < |s.workers| && !s.workers[w].Gone?
    ensures s.now <= FreeAt(limit, s.now, s.workers[w])
  {
    assert WorkerClean(cfg, limit, s, s.workers[w]);
  }

  /** While events are queued the next one is taken within the current round. */
  lemma NowIsEarly(cfg: Config, limit: int, total: nat, s: State)
    requires Clean(cfg, limit, s) && OnSchedule(limit, total, s) && s.queue > 0
    ensures s.now <= (Rounds(total, s) + 1) * limit
  {
    var w := SomeoneFree(limit, s.now, s.workers, (Rounds(total, s) + 1) * limit);
    assert WorkerClean(cfg, limit, s, s.workers[w]);
    FreeNotBeforeNow(cfg, limit, s, w);
  }

  lemma StartsClean(cfg: Config, s: State)
    requires AtClose(cfg, s)
    ensures Clean(cfg, EventTime(cfg), s) && EventTime(cfg) >= 0
  {
    TimesGrow(cfg.base, 0, cfg.maxRetries);
    forall w | 0 <= w < |s.workers| ensures WorkerClean(cfg, EventTime(cfg), s, s.workers[w]) {
      if Busy(s.workers[w]) {
        EndsInTime(cfg, s.workers[w]);
      }
    }
  }

  lemma OneMoreRound(k: int, limit: int)
    ensures (k + 2) * limit == (k + 1) * limit + limit
  {
  }

  lemma StartsOnSchedule(cfg: Config, s: State, limit: int)
    requires AtClose(cfg, s) && limit >= 0
    ensures OnSchedule(limit, s.queue, s)
  {
    var n := |s.workers|;
    assert forall w :: 0 <= w < n ==> FreeAt(limit, s.now, s.workers[w]) <= limit;
    if s.queue == 0 {
      Quotient(n - 1, n, 0, n - 1);
      assert (CeilDiv(0, n) + 1) * limit == limit;
    } else {
      Quotient(0, n, 0, 0);
      assert (Rounds(s.queue, s) + 1) * limit == limit;
      OneMoreRound(0, limit);
      AllFree(limit, s.now, s.workers, limit);
    }
  }

  lemma StepKeepsClean(cfg: Config, limit: int, s: State, a: Action)
    requires limit == EventTime(cfg) && cfg.maxRetries >= 1 && Clean(cfg, limit, s) && Enabled(s, a)
    ensures Clean(cfg, limit, Do(cfg, s, a))
  {
    var s' := Do(cfg, s, a);
    forall w | 0 <= w < |s'.workers| ensures WorkerClean(cfg, limit, s', s'.workers[w]) {
      assert WorkerClean(cfg, limit, s, s.workers[w]);
      match a {
        case Take(_, until) => TakeWithinTime(cfg, s.now, until);
        case Reply(v, fate) =>
          if v == w {
            ReplyWithinTime(cfg, s.now, s.workers[w], fate);
          }
        case _ =>
      }
      if Busy(s'.workers[w]) {
        EndsInTime(cfg, s'.workers[w]);
      }
    }
  }

  lemma TakeKeepsSchedule(cfg: Config, limit: int, total: nat, s: State, w: nat, until: int)
    requires Clean(cfg, limit, s) && OnSchedule(limit, total, s) && Enabled(s, Take(w, until))
    ensures OnSchedule(limit, total, Do(cfg, s, Take(w, until)))
  {
    var s' := Do(cfg, s, Take(w, until));
    var n, taken := |s.workers|, Taken(total, s);
    var round := Rounds(total, s);
    NowIsEarly(cfg, limit, total, s);
    OneMoreRound(round, limit);
    OneMoreRound(round + 1, limit);
    FreeByUpdate(limit, s.now, s.workers, (round + 1) * limit, w, Trying(s.now, 1, until));
    NextQuotient(taken, n);
    if s'.queue == 0 {
      LastRound(total, n);
    } else if taken % n + 1 == n {
      AllFree(limit, s'.now, s'.workers, (round + 2) * limit);
    }
  }

  /** A worker that is free no later than it was changes no bound. */
  lemma SoonerKeepsSchedule(limit: int, total: nat, s: State, w: nat, x: Worker)
    requires OnSchedule(limit, total, s) && w < |s.workers|
    requires FreeAt(limit, s.now, x) <= FreeAt(limit, s.now, s.workers[w])
    ensures OnSchedule(limit, total, s.(workers := s.workers[w := x]))
  {
    FreeByUpdate(limit, s.now, s.workers, (Rounds(total, s) + 1) * limit, w, x);
  }

  lemma PassKeepsSchedule(cfg: Config, limit: int, total: nat, s: State, dt: nat)
    requires OnSchedule(limit, total, s) && Enabled(s, Pass(dt))
    ensures OnSchedule(limit, total, Do(cfg, s, Pass(dt)))
  {
    FreeByLater(limit, s.now, s.now + dt, s.workers, (Rounds(total, s) + 1) * limit);
  }

  lemma StepKeepsSchedule(cfg: Config, limit: int, total: nat, s: State, a: Action)
    requires limit == EventTime(cfg) && cfg.maxRetries >= 1
    requires Clean(cfg, limit, s) && OnSchedule(limit, total, s) && Enabled(s, a)
    ensures Clean(cfg, limit, Do(cfg, s, a)) && OnSchedule(limit, total, Do(cfg, s, a))
    ensures |Do(cfg, s, a).workers| == |s.workers|
  {
    StepKeepsClean(cfg, limit, s, a);
    match a
    case Take(w, until) => TakeKeepsSchedule(cfg, limit, total, s, w, until);
    case Reply(w, fate) =>
      FreeNotBeforeNow(cfg, limit, s, w);
      SoonerKeepsSchedule(limit, total, s, w, AfterReply(cfg, s.now, s.workers[w], fate));
    case Wake(w, until) =>
      SoonerKeepsSchedule(limit, total, s, w, Trying(s.workers[w].started, s.workers[w].attempt, until));
    case Leave(w) => SoonerKeepsSchedule(limit, total, s, w, Gone);
    case Pass(dt) => PassKeepsSchedule(cfg, limit, total, s, dt);
  }

  lemma {:induction false} RunKeepsSchedule(cfg: Config, limit: int, total: nat, s: State, acts: seq<Action>)
    requires limit == EventTime(cfg) && cfg.maxRetries >= 1
    requires Clean(cfg, limit, s) && OnSchedule(limit, total, s) && Runs(cfg, s, acts)
    ensures Clean(cfg, limit, After(cfg, s, acts)) && OnSchedule(limit, total, After(cfg, s, acts))
    ensures |After(cfg, s, acts).workers| == |s.workers|
    decreases |acts|
  {
    if acts == [] {
    } else {
      StepKeepsSchedule(cfg, limit, total, s, acts[0]);
      RunKeepsSchedule(cfg, limit, total, Do(cfg, s, acts[0]), acts[1..]);
    }
  }

  // ---- Main results ----

  lemma RoundsAreFew(limit: int, total: nat, s: State)
    requires OnSchedule(limit, total, s) && s.queue > 0
    ensures (Rounds(total, s) + 1) * limit <= CeilDiv(total, |s.workers|) * limit
  {
    LastRound(total, |s.workers|);
    QuotientGrows(Taken(total, s), total - 1, |s.workers|);
    ProductGrows(Rounds(total, s) + 1, CeilDiv(total, |s.workers|), limit);
  }

  /** The deadlines in terms of the schedule. */
  lemma DeadlinesOnSchedule(cfg: Config, limit: int, total: nat, s: State)
    requires Clean(cfg, limit, s) && OnSchedule(limit, total, s)
    ensures s.queue > 0 ==> s.now <= CeilDiv(total, |s.workers|) * limit
    ensures (exists w :: 0 <= w < |s.workers| && s.workers[w] != Gone) ==>
        s.now <= (CeilDiv(total, |s.workers|) + 1) * limit
  {
    OneMoreRound(CeilDiv(total, |s.workers|) - 1, limit);
    if s.queue > 0 {
      NowIsEarly(cfg, limit, total, s);
      RoundsAreFew(limit, total, s);
    } else if w :| 0 <= w < |s.workers| && s.workers[w] != Gone {
      FreeNotBeforeNow(cfg, limit, s, w);
    }
  }

  /** With Q events queued at close and w workers, in every run the queue is non-empty only
      until ceil(Q / w) * T, and some worker is still there only until (ceil(Q / w) + 1) * T,
      where T is the time of maxRetries attempts and the pauses between them. */
  lemma DrainDeadlines(cfg: Config, s: State, acts: seq<Action>)
    requires AtClose(cfg, s) && Runs(cfg, s, acts)
    ensures var end, rounds, T := After(cfg, s, acts), CeilDiv(s.queue, |s.workers|), EventTime(cfg);
            && (end.queue > 0 ==> end.now <= rounds * T)
            && ((exists w :: 0 <= w < |end.workers| && end.workers[w] != Gone) ==> end.now <= (rounds + 1) * T)
  {
    StartsClean(cfg, s);
    StartsOnSchedule(cfg, s, EventTime(cfg));
    RunKeepsSchedule(cfg, EventTime(cfg), s.queue, s, acts);
    DeadlinesOnSchedule(cfg, EventTime(cfg), s.queue, After(cfg, s, acts));
  }

  /** The worker that can act next, after a wait that is possible. */
  lemma NextStep(cfg: Config, limit: int, s: State) returns (wait: nat, a: Action)
    requires Clean(cfg, limit, s)
    requires exists w :: 0 <= w < |s.workers| && s.workers[w] != Gone
    ensures wait > 0 ==> Enabled(s, Pass(wait))
    ensures Enabled(s.(now := s.now + wait), a) && !a.Pass?
  {
    if w :| 0 <= w < |s.workers| && s.workers[w].Idle? {
      wait, a := 0, if s.queue > 0 then Take(w, s.now) else Leave(w);
    } else {
      var w := EarliestBusy(s, |s.workers|);
      assert WorkerClean(cfg, limit, s, s.workers[w]);
      wait := s.workers[w].until - s.now;
      a := if s.workers[w].Trying? then Reply(w, Normal) else Wake(w, s.now + wait);
    }
  }

  /** Time cannot get stuck: until every worker has left, some step or a positive wait is
      possible, and afterwards any wait. */
  lemma DrainNeverStalls(cfg: Config, limit: int, s: State)
    requires Clean(cfg, limit, s)
    ensures exists a :: Enabled(s, a) && (a.Pass? ==> a.dt > 0)
  {
    if w :| 0 <= w < |s.workers| && s.workers[w] != Gone {
      var wait, a := NextStep(cfg, limit, s);
      assert Enabled(s, if wait > 0 then Pass(wait) else a);
    } else {
      assert Enabled(s, Pass(1));
    }
  }

  lemma {:induction false} EarliestBusy(s: State, n: nat) returns (w: nat)
    requires n <= |s.workers| && exists v :: 0 <= v < n && Busy(s.workers[v])
    ensures w < n && Busy(s.workers[w])
    ensures forall v :: 0 <= v < n && Busy(s.workers[v]) ==> s.workers[w].until <= s.workers[v].until
  {
    if exists v :: 0 <= v < n - 1 && Busy(s.workers[v]) {
      w := EarliestBusy(s, n - 1);
      if Busy(s.workers[n - 1]) && s.workers[n - 1].until < s.workers[w].until {
        w := n - 1;
      }
    } else {
      w := n - 1;
    }
  }
}
