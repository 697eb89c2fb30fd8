/** Timed drains are drains of the pool: forgetting the clock turns a run of TimedDrain into a
    run of PoolProtocol, so what is proved about the pool's events holds by the deadlines. */
module DrainProjection {
  import opened Arithmetic
  import P = PoolProtocol
  import opened ClickWorker
  import T = TimedDrain

  predicate SameWorker(t: T.Worker, p: P.Worker) {
    match t
    case Idle => p.Idle?
    case Trying(_, n, _) => p.Busy? && p.attempt == n && !p.asleep
    case Sleeping(_, n, _) => p.Busy? && p.attempt == n && p.asleep
    case Gone => p.Exited?
  }

  /** The closed pool p is in the timed state s. */
  predicate Shows(s: T.State, p: P.State) {
    && p.closed && |p.queue| == s.queue && |p.workers| == |s.workers|
    && forall w :: 0 <= w < |s.workers| ==> SameWorker(s.workers[w], p.workers[w])
  }

  /** What the pool does in a timed step. */
  function Untimed(a: T.Action): seq<P.Action> {
    match a
    case Take(w, _) => [P.Take(w)]
    case Reply(w, fate) => [P.Attempt(w, fate)]
    case Wake(w, _) => [P.Wake(w)]
    case Leave(w) => [P.Exit(w)]
    case Pass(_) => []
    case Accept => []
  }

  function UntimedAll(acts: seq<T.Action>): seq<P.Action>
    decreases |acts|
  {
    if acts == [] then [] else Untimed(acts[0]) + UntimedAll(acts[1..])
  }

  lemma {:induction false} RunsJoin(cfg: P.Config, p: P.State, first: seq<P.Action>, rest: seq<P.Action>)
    requires P.Runs(cfg, p, first) && P.Runs(cfg, P.After(cfg, p, first), rest)
    ensures P.Runs(cfg, p, first + rest) && P.After(cfg, p, first + rest) == P.After(cfg, P.After(cfg, p, first), rest)
    decreases |first|
  {
    if first == [] {
      assert first + rest == rest;
    } else {
      RunsJoin(cfg, P.Do(cfg, p, first[0]), first[1..], rest);
      assert (first + rest)[1..] == first[1..] + rest;
    }
  }

  lemma OneStepRun(cfg: P.Config, p: P.State, a: P.Action)
    requires P.Enabled(cfg, p, a)
    ensures P.Runs(cfg, p, [a]) && P.After(cfg, p, [a]) == P.Do(cfg, p, a)
  {
    assert [a][1..] == [];
  }

  lemma StepProjects(cfg: T.Config, pool: P.Config, s: T.State, p: P.State, a: T.Action)
    requires cfg.maxRetries == pool.maxRetries && Shows(s, p) && P.Inv(pool, p) && T.Enabled(s, a)
    ensures P.Runs(pool, p, Untimed(a)) && Shows(T.Do(cfg, s, a), P.After(pool, p, Untimed(a)))
  {
    if !a.Pass? {
      assert P.WorkerOk(pool, p, a.worker) && SameWorker(s.workers[a.worker], p.workers[a.worker]);
      OneStepRun(pool, p, Untimed(a)[0]);
    }
  }

  /** A timed run is a run of the pool. */
  lemma {:induction false} RunProjects(cfg: T.Config, pool: P.Config, s: T.State, p: P.State, acts: seq<T.Action>)
    requires cfg.maxRetries == pool.maxRetries && P.GoodConfig(pool) && Shows(s, p) && P.Inv(pool, p)
        && T.Runs(cfg, s, acts)
    ensures P.Runs(pool, p, UntimedAll(acts)) && Shows(T.After(cfg, s, acts), P.After(pool, p, UntimedAll(acts)))
    decreases |acts|
  {
    if acts == [] {
    } else {
      StepProjects(cfg, pool, s, p, acts[0]);
      P.RunKeepsInv(pool, p, Untimed(acts[0]));
      RunProjects(cfg, pool, T.Do(cfg, s, acts[0]), P.After(pool, p, Untimed(acts[0])), acts[1..]);
      RunsJoin(pool, p, Untimed(acts[0]), UntimedAll(acts[1..]));
    }
  }

  lemma StillReachable(pool: P.Config, p: P.State, more: seq<P.Action>)
    requires P.Reachable(pool, p) && P.Runs(pool, p, more)
    ensures P.Reachable(pool, P.After(pool, p, more))
  {
    var start, acts :| P.Initial(pool, start) && P.Runs(pool, start, acts) && P.After(pool, start, acts) == p;
    RunsJoin(pool, start, acts, more);
  }

  /** The pool has just been closed: nobody has left. */
  predicate JustClosed(p: P.State) {
    p.closed && forall w :: 0 <= w < |p.workers| ==> p.workers[w] != P.Exited
  }

  /** Shutdown can come in every state of an open pool, also right after Start. */
  lemma OpenPoolsClose(pool: P.Config, p: P.State)
    requires P.GoodConfig(pool) && P.Reachable(pool, p) && !p.closed
    ensures P.Reachable(pool, P.Do(pool, p, P.Close)) && JustClosed(P.Do(pool, p, P.Close))
  {
    P.ReachableInv(pool, p);
    OneStepRun(pool, p, P.Close);
    StillReachable(pool, p, [P.Close]);
    forall w | 0 <= w < |p.workers| ensures p.workers[w] != P.Exited {
      assert P.WorkerOk(pool, p, w);
    }
  }

  /** A worker of a pool that is closed now, timed as if its attempts had failed at once and its
      last pause were over. */
  function Timed(base: int, w: P.Worker): T.Worker {
    match w
    case Idle => T.Idle
    case Busy(_, n, asleep) =>
      var started := 0 - TotalSleep(base, n);
      if asleep then T.Sleeping(started, n, 0) else T.Trying(started, n, 0)
    case Exited => T.Gone
  }

  /** Every closed pool has timed states in which it may have been closed. */
  lemma CloseHasTimes(cfg: T.Config, pool: P.Config, p: P.State) returns (s: T.State)
    requires cfg.maxRetries == pool.maxRetries && P.GoodConfig(pool) && P.Inv(pool, p) && JustClosed(p)
    ensures T.AtClose(cfg, s) && Shows(s, p)
  {
    s := T.State(0, |p.queue|, seq(|p.workers|, w requires 0 <= w < |p.workers| => Timed(cfg.base, p.workers[w])));
    forall w | 0 <= w < |s.workers| && T.Busy(s.workers[w])
      ensures s.workers[w].started <= 0 && T.WithinTime(cfg, s.workers[w])
    {
      assert P.WorkerOk(pool, p, w);
      TotalSleepBound(cfg.base, s.workers[w].attempt);
    }
  }

  lemma Waits(cfg: T.Config, limit: int, s: T.State, wait: nat)
    requires cfg.maxRetries >= 1 && limit == T.EventTime(cfg) && T.Clean(cfg, limit, s)
    requires wait > 0 ==> T.Enabled(s, T.Pass(wait))
    ensures T.Clean(cfg, limit, s.(now := s.now + wait))
  {
    if wait > 0 {
      T.StepKeepsClean(cfg, limit, s, T.Pass(wait));
    } else {
      assert s.(now := s.now + wait) == s;
    }
  }

  lemma PausedRun(cfg: T.Config, s: T.State, wait: nat, acts: seq<T.Action>)
    requires (wait > 0 ==> T.Enabled(s, T.Pass(wait))) && T.Runs(cfg, s.(now := s.now + wait), acts)
    ensures var all := (if wait > 0 then [T.Pass(wait)] else []) + acts;
            T.Runs(cfg, s, all) && T.After(cfg, s, all) == T.After(cfg, s.(now := s.now + wait), acts)
  {
    if wait > 0 {
      assert ([T.Pass(wait)] + acts)[1..] == acts;
    } else {
      assert [] + acts == acts && s.(now := s.now + wait) == s;
    }
  }

  /** A worker's step is one step of the pool. */
  lemma OnlyStep(pool: P.Config, p: P.State, a: T.Action)
    requires P.Runs(pool, p, Untimed(a)) && !a.Pass? && !a.Accept?
    ensures P.Enabled(pool, p, Untimed(a)[0]) && P.After(pool, p, Untimed(a)) == P.Do(pool, p, Untimed(a)[0])
  {
    assert Untimed(a)[1..] == [];
  }

  /** Whatever happened so far, the run can go on past any instant. */
  lemma {:induction false} TimeGoesOn(cfg: T.Config, pool: P.Config, s: T.State, p: P.State, limit: int, beyond: int)
    returns (acts: seq<T.Action>)
    requires cfg.maxRetries == pool.maxRetries && P.GoodConfig(pool) && limit == T.EventTime(cfg)
    requires T.Clean(cfg, limit, s) && Shows(s, p) && P.Inv(pool, p)
    ensures T.Runs(cfg, s, acts) && T.After(cfg, s, acts).now > beyond
    decreases P.Measure(pool, p)
  {
    P.MeasureIsNatural(pool, p);
    if w :| 0 <= w < |s.workers| && s.workers[w] != T.Gone {
      var wait, a := T.NextStep(cfg, limit, s);
      var pause: seq<T.Action> := if wait > 0 then [T.Pass(wait)] else [];
      var s1 := s.(now := s.now + wait);
      Waits(cfg, limit, s, wait);
      StepProjects(cfg, pool, s1, p, a);
      OnlyStep(pool, p, a);
      P.ClosedStepsDescend(pool, p, Untimed(a)[0]);
      P.StepKeepsInv(pool, p, Untimed(a)[0]);
      T.StepKeepsClean(cfg, limit, s1, a);
      var rest := TimeGoesOn(cfg, pool, T.Do(cfg, s1, a), P.Do(pool, p, Untimed(a)[0]), limit, beyond);
      acts := pause + ([a] + rest);
      assert ([a] + rest)[1..] == rest;
      PausedRun(cfg, s, wait, [a] + rest);
    } else {
      var wait := Max(0, beyond - s.now) + 1;
      acts := [T.Pass(wait)];
      assert acts[1..] == [];
    }
  }

  /** A pool closed with Q queued events and w workers has shut down once (ceil(Q / w) + 1) * T
      have passed, T being the time of one event, and then each accepted event has its row and
      succeeded, or all its maxRetries attempts failed. */
  lemma DrainedInTime(cfg: T.Config, pool: P.Config, s: T.State, p: P.State, acts: seq<T.Action>)
    requires cfg.maxRetries == pool.maxRetries && P.GoodConfig(pool) && P.Reachable(pool, p) && Shows(s, p)
    requires T.AtClose(cfg, s) && T.Runs(cfg, s, acts)
    requires T.After(cfg, s, acts).now > (CeilDiv(s.queue, |s.workers|) + 1) * T.EventTime(cfg)
    ensures P.Runs(pool, p, UntimedAll(acts))
    ensures var end := P.After(pool, p, UntimedAll(acts));
            && P.ShutDown(end) && end.queue == [] && |end.tickets| == |end.accepted|
            && forall i :: 0 <= i < |end.accepted| ==>
                 && end.tickets[i].event == end.accepted[i]
                 && (|| (end.tickets[i].status == P.Succeeded && end.accepted[i] in end.rows)
                     || (&& end.tickets[i].status == P.Failed
                         && |end.tickets[i].tries| == pool.maxRetries && P.AllFailed(end.tickets[i].tries)))
  {
    P.ReachableInv(pool, p);
    RunProjects(cfg, pool, s, p, acts);
    StillReachable(pool, p, UntimedAll(acts));
    T.DrainDeadlines(cfg, s, acts);
    var last, end := T.After(cfg, s, acts), P.After(pool, p, UntimedAll(acts));
    forall w | 0 <= w < |end.workers| ensures end.workers[w] == P.Exited {
      assert SameWorker(last.workers[w], end.workers[w]);
    }
    P.ShutdownDrains(pool, end);
  }

  /** That instant comes: every pool, whenever it is closed, has timed runs beyond it. */
  lemma DeadlineComes(cfg: T.Config, pool: P.Config, p: P.State) returns (s: T.State, acts: seq<T.Action>)
    requires cfg.maxRetries == pool.maxRetries && P.GoodConfig(pool) && P.Reachable(pool, p) && JustClosed(p)
    ensures T.AtClose(cfg, s) && Shows(s, p) && T.Runs(cfg, s, acts)
    ensures T.After(cfg, s, acts).now > (CeilDiv(s.queue, |s.workers|) + 1) * T.EventTime(cfg)
  {
    P.ReachableInv(pool, p);
    s := CloseHasTimes(cfg, pool, p);
    T.StartsClean(cfg, s);
    acts := TimeGoesOn(cfg, pool, s, p, T.EventTime(cfg), (CeilDiv(s.queue, |s.workers|) + 1) * T.EventTime(cfg));
  }
}
