/** The deadlines of TimedDrain are reached: for every number of events and workers there is a
    drain in which every attempt fails after its full five seconds and all workers keep step. */
module DrainReached {
  import opened Arithmetic
  import opened Faults
  import opened ClickWorker
  import opened TimedDrain

  lemma {:induction false} RunsJoin(cfg: Config, s: State, first: seq<Action>, rest: seq<Action>)
    requires Runs(cfg, s, first) && Runs(cfg, After(cfg, s, first), rest)
    ensures Runs(cfg, s, first + rest) && After(cfg, s, first + rest) == After(cfg, After(cfg, s, first), rest)
    decreases |first|
  {
    if first == [] {
      assert first + rest == rest;
    } else {
      RunsJoin(cfg, Do(cfg, s, first[0]), first[1..], rest);
      assert (first + rest)[1..] == first[1..] + rest;
    }
  }

  lemma OneStep(cfg: Config, s: State, a: Action)
    requires Enabled(s, a)
    ensures Runs(cfg, s, [a]) && After(cfg, s, [a]) == Do(cfg, s, a)
  {
    assert [a][1..] == [];
  }

  /** A run from one state to another. */
  ghost predicate Leads(cfg: Config, s: State, acts: seq<Action>, s': State) {
    Runs(cfg, s, acts) && After(cfg, s, acts) == s'
  }

  /** Worker 0 is at x, and every other worker too, unless it has left. */
  predicate InStep(s: State, x: Worker) {
    && |s.workers| >= 1 && s.workers[0] == x
    && forall w :: 0 <= w < |s.workers| ==> s.workers[w] == x || s.workers[w] == Gone
  }

  /** The end of a failed attempt, or of a pause, and where it leaves the worker. */
  predicate CanMove(s: State, x: Worker) {
    Busy(x) && x.until == s.now && x.attempt >= 1
  }

  function MoveOf(s: State, w: nat, x: Worker): Action {
    if x.Sleeping? then Wake(w, s.now + CREATE_TIMEOUT) else Reply(w, LostBefore)
  }

  function Moved(cfg: Config, s: State, x: Worker): Worker
    requires CanMove(s, x)
  {
    if x.Sleeping? then Trying(x.started, x.attempt, s.now + CREATE_TIMEOUT) else AfterReply(cfg, s.now, x, LostBefore)
  }

  /** The first m workers move, one after another. */
  lemma {:induction false} TheseMove(cfg: Config, s: State, x: Worker, m: nat) returns (acts: seq<Action>, s': State)
    requires m <= |s.workers| && CanMove(s, x)
    requires forall w :: 0 <= w < m ==> s.workers[w] == x || s.workers[w] == Gone
    ensures Leads(cfg, s, acts, s') && s'.now == s.now && s'.queue == s.queue && |s'.workers| == |s.workers|
    ensures forall w :: 0 <= w < m ==> s'.workers[w] == if s.workers[w] == x then Moved(cfg, s, x) else Gone
    ensures forall w :: m <= w < |s.workers| ==> s'.workers[w] == s.workers[w]
    decreases m
  {
    if m == 0 {
      acts, s' := [], s;
    } else if s.workers[m - 1] == Gone {
      acts, s' := TheseMove(cfg, s, x, m - 1);
    } else {
      var a := MoveOf(s, m - 1, x);
      OneStep(cfg, s, a);
      var rest;
      rest, s' := TheseMove(cfg, Do(cfg, s, a), x, m - 1);
      RunsJoin(cfg, s, [a], rest);
      acts := [a] + rest;
    }
  }

  lemma AllMove(cfg: Config, s: State, x: Worker) returns (acts: seq<Action>, s': State)
    requires InStep(s, x) && CanMove(s, x)
    ensures Leads(cfg, s, acts, s') && s'.now == s.now && s'.queue == s.queue && |s'.workers| == |s.workers|
    ensures InStep(s', Moved(cfg, s, x))
    ensures forall w :: 0 <= w < |s.workers| && s.workers[w] == x ==> s'.workers[w] == Moved(cfg, s, x)
  {
    acts, s' := TheseMove(cfg, s, x, |s.workers|);
  }

  lemma AllWait(cfg: Config, s: State, x: Worker, dt: nat) returns (s': State)
    requires InStep(s, x) && Busy(x) && x.until == s.now + dt
    ensures Leads(cfg, s, [Pass(dt)], s') && s' == s.(now := s.now + dt)
  {
    OneStep(cfg, s, Pass(dt));
    s' := Do(cfg, s, Pass(dt));
  }

  /** Attempts number k and later all fail, each after its full time: the event takes T. */
  lemma {:induction false} EventTakesAll(cfg: Config, s: State, started: int, k: nat)
    returns (acts: seq<Action>, s': State)
    requires 1 <= k <= cfg.maxRetries && InStep(s, Trying(started, k, s.now + CREATE_TIMEOUT))
    requires s.now == started + TotalSleep(cfg.base, k) + (k - 1) * CREATE_TIMEOUT
    ensures Leads(cfg, s, acts, s') && s'.queue == s.queue && |s'.workers| == |s.workers|
    ensures s'.now == started + EventTime(cfg) && InStep(s', Trying(started, cfg.maxRetries, s'.now))
    ensures forall w :: 0 <= w < |s.workers| && s.workers[w] != Gone ==> s'.workers[w] != Gone
    decreases cfg.maxRetries - k
  {
    var x := Trying(started, k, s.now + CREATE_TIMEOUT);
    var s1 := AllWait(cfg, s, x, CREATE_TIMEOUT);
    acts := [Pass(CREATE_TIMEOUT)];
    if k == cfg.maxRetries {
      s' := s1;
    } else {
      var reply, s2 := AllMove(cfg, s1, x);
      var pause: nat := Max0(Backoff(cfg.base, k));
      var s3 := AllWait(cfg, s2, Moved(cfg, s1, x), pause);
      var wake, s4 := AllMove(cfg, s3, Moved(cfg, s1, x));
      assert TotalSleep(cfg.base, k + 1) == TotalSleep(cfg.base, k) + pause;
      var rest;
      rest, s' := EventTakesAll(cfg, s4, started, k + 1);
      RunsJoin(cfg, s3, wake, rest);
      RunsJoin(cfg, s2, [Pass(pause)], wake + rest);
      RunsJoin(cfg, s1, reply, [Pass(pause)] + (wake + rest));
      RunsJoin(cfg, s, acts, reply + ([Pass(pause)] + (wake + rest)));
      acts := acts + (reply + ([Pass(pause)] + (wake + rest)));
    }
  }

  /** One event each, from the moment it is taken until all are idle again. */
  lemma RoundTakesAll(cfg: Config, s: State) returns (acts: seq<Action>, s': State)
    requires cfg.maxRetries >= 1 && AllStart(s)
    ensures Leads(cfg, s, acts, s') && s'.queue == s.queue && |s'.workers| == |s.workers|
    ensures s'.now == s.now + EventTime(cfg) && forall w :: 0 <= w < |s'.workers| ==> s'.workers[w] == Idle
  {
    var s1;
    acts, s1 := EventTakesAll(cfg, s, s.now, 1);
    var reply;
    reply, s' := AllMove(cfg, s1, Trying(s.now, cfg.maxRetries, s1.now));
    RunsJoin(cfg, s, acts, reply);
    acts := acts + reply;
  }

  /** Every worker has just taken an event. */
  predicate AllStart(s: State) {
    |s.workers| >= 1 && forall w :: 0 <= w < |s.workers| ==> s.workers[w] == Trying(s.now, 1, s.now + CREATE_TIMEOUT)
  }

  /** The idle workers from number j on take an event each, or leave when there is none. */
  lemma {:induction false} TheseTake(cfg: Config, s: State, j: nat) returns (acts: seq<Action>, s': State)
    requires j <= |s.workers| && forall w :: j <= w < |s.workers| ==> s.workers[w] == Idle
    ensures Leads(cfg, s, acts, s') && s'.now == s.now && |s'.workers| == |s.workers|
    ensures s'.queue == if s.queue >= |s.workers| - j then s.queue - (|s.workers| - j) else 0
    ensures forall w :: 0 <= w < j ==> s'.workers[w] == s.workers[w]
    ensures forall w :: j <= w < |s.workers| ==>
              s'.workers[w] == if w - j < s.queue then Trying(s.now, 1, s.now + CREATE_TIMEOUT) else Gone
    decreases |s.workers| - j
  {
    if j == |s.workers| {
      acts, s' := [], s;
    } else {
      var a := if s.queue > 0 then Take(j, s.now + CREATE_TIMEOUT) else Leave(j);
      OneStep(cfg, s, a);
      var rest;
      rest, s' := TheseTake(cfg, Do(cfg, s, a), j + 1);
      RunsJoin(cfg, s, [a], rest);
      acts := [a] + rest;
    }
  }

  /** The last event is taken ceil(Q / w) rounds after close, and its worker is there for one
      round more. */
  lemma {:induction false} RoundsTakeAll(cfg: Config, s: State)
    returns (acts: seq<Action>, s1: State, last: seq<Action>, s2: State)
    requires cfg.maxRetries >= 1 && AllStart(s)
    ensures Leads(cfg, s, acts, s1) && s1.now == s.now + CeilDiv(s.queue, |s.workers|) * EventTime(cfg)
    ensures s.queue > 0 ==> s1.queue > 0
    ensures Leads(cfg, s1, last, s2) && s2.now == s1.now + EventTime(cfg)
    ensures exists w :: 0 <= w < |s2.workers| && s2.workers[w] != Gone
    decreases s.queue
  {
    var n := |s.workers|;
    if s.queue == 0 {
      Quotient(n - 1, n, 0, n - 1);
      acts, s1 := [], s;
      last, s2 := EventTakesAll(cfg, s, s.now, 1);
    } else {
      var round, idle := RoundTakesAll(cfg, s);
      var take, next := TheseTake(cfg, idle, 0);
      if s.queue <= n {
        Quotient(s.queue + n - 1, n, 1, s.queue - 1);
        acts, s1 := round, idle;
        var rest;
        rest, s2 := EventTakesAll(cfg, next, next.now, 1);
        RunsJoin(cfg, idle, take, rest);
        last := take + rest;
      } else {
        var rest;
        rest, s1, last, s2 := RoundsTakeAll(cfg, next);
        OneRoundMore(s.queue, n, EventTime(cfg));
        RunsJoin(cfg, idle, take, rest);
        RunsJoin(cfg, s, round, take + rest);
        acts := round + (take + rest);
      }
    }
  }

  lemma OneRoundMore(q: nat, n: nat, limit: int)
    requires q > n >= 1
    ensures CeilDiv(q, n) * limit == CeilDiv(q - n, n) * limit + limit
  {
    var k, r := (q - 1) / n, (q - 1) % n;
    assert q - 1 == k * n + r && q + n - 1 == (k + 1) * n + r;
    Quotient(q + n - 1, n, k + 1, r);
  }

  /** Both deadlines are reached exactly: whatever the configuration, the number of workers and
      the number of queued events, in some drain an event is still queued when ceil(Q / w) * T
      have passed since close, and a worker is still there after (ceil(Q / w) + 1) * T. */
  lemma DeadlinesAreReached(cfg: Config, events: nat, workers: nat)
    returns (s: State, acts: seq<Action>, more: seq<Action>)
    requires cfg.maxRetries >= 1 && workers >= 1
    ensures AtClose(cfg, s) && s.queue == events && |s.workers| == workers
    ensures Runs(cfg, s, acts) && After(cfg, s, acts).now == CeilDiv(events, workers) * EventTime(cfg)
    ensures events > 0 ==> After(cfg, s, acts).queue > 0
    ensures Runs(cfg, s, acts + more)
    ensures var end := After(cfg, s, acts + more);
            && end.now == (CeilDiv(events, workers) + 1) * EventTime(cfg)
            && exists w :: 0 <= w < |end.workers| && end.workers[w] != Gone
  {
    s := State(0, events, seq(workers, _ => Trying(0, 1, CREATE_TIMEOUT)));
    var s1, s2;
    acts, s1, more, s2 := RoundsTakeAll(cfg, s);
    RunsJoin(cfg, s, acts, more);
    OneMoreRound(CeilDiv(events, workers) - 1, EventTime(cfg));
  }
}
