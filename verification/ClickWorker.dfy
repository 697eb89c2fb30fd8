/** worker/click_worker.go as its own goroutine sees it: the constructor, Enqueue, the retry
    loop of process and the range loop of worker. */
module ClickWorker {
  import opened Arithmetic
  import opened Wrappers
  import opened Durations
  import opened Faults
  import opened ClickStore

  const MAX_BACKOFF: int := 5 * SECOND

  const CREATE_TIMEOUT: int := 5 * SECOND

  const TWO63: int := 0x8000_0000_0000_0000

  // ---- Backoff ----

  /** The value of an int64 computation. */
  function Wrap64(x: int): int {
    (x + TWO63) % (2 * TWO63) - TWO63
  }

  /** The sleep after failed attempt number `attempt`, in int64 arithmetic. */
  function Backoff(base: int, attempt: nat): int
    requires attempt >= 1
  {
    Min(Wrap64(base * Wrap64(Pow(2, attempt - 1))), MAX_BACKOFF)
  }

  /** The doubling schedule that is meant, capped at five seconds. */
  function Doubled(base: int, attempt: nat): int
    requires attempt >= 1
  {
    Min(base * Pow(2, attempt - 1), 5 * SECOND)
  }

  lemma BackoffIsDoubled(base: int, attempt: nat)
    requires base >= 1 && attempt >= 1 && base * Pow(2, attempt - 1) < TWO63
    ensures Backoff(base, attempt) == Doubled(base, attempt)
  {
    var p := Pow(2, attempt - 1);
    Pow2Grows(0, attempt - 1);
    assert (base - 1) * p >= 0;
    assert Wrap64(p) == p;
  }

  lemma OverflowingProduct(base: int, half: int)
    requires base >= 1 && half >= 1 && base * half < TWO63 <= base * (2 * half)
    ensures Wrap64(base * Wrap64(2 * half)) < 0
  {
  }

  /** The first product that leaves int64 comes out negative, so no sleep at all follows it. */
  lemma FirstOverflowIsNegative(base: int, attempt: nat)
    requires base >= 1 && attempt >= 2
    requires base * Pow(2, attempt - 2) < TWO63 <= base * Pow(2, attempt - 1)
    ensures Backoff(base, attempt) < 0 < Doubled(base, attempt)
  {
    Pow2Grows(0, attempt - 2);
    OverflowingProduct(base, Pow(2, attempt - 2));
  }

  lemma {:induction false} FindOverflow(base: int, n: nat) returns (attempt: nat)
    requires 1 <= base < TWO63 && n >= 2 && base * Pow(2, n - 2) >= TWO63
    ensures 2 <= attempt < n
    ensures base * Pow(2, attempt - 2) < TWO63 <= base * Pow(2, attempt - 1)
  {
    assert Pow(2, 0) == 1;
    if base * Pow(2, n - 3) < TWO63 {
      attempt := n - 1;
    } else {
      attempt := FindOverflow(base, n - 1);
    }
  }

  /** All n - 1 sleeps of n attempts are the doubled, capped ones exactly when the last product
      base * 2^(n-2) still fits int64. */
  lemma ScheduleIsDoubledIff(base: int, n: nat)
    requires 1 <= base < TWO63 && n >= 2
    ensures (forall k :: 1 <= k < n ==> Backoff(base, k) == Doubled(base, k)) <==> base * Pow(2, n - 2) < TWO63
  {
    if base * Pow(2, n - 2) < TWO63 {
      forall k | 1 <= k < n ensures Backoff(base, k) == Doubled(base, k) {
        ScaledPow2Grows(base, k - 1, n - 2);
        BackoffIsDoubled(base, k);
      }
    } else {
      var k := FindOverflow(base, n);
      FirstOverflowIsNegative(base, k);
    }
  }

  /** Total sleep of n attempts that all fail. */
  function TotalSleep(base: int, n: nat): int {
    if n <= 1 then 0 else TotalSleep(base, n - 1) + Max0(Backoff(base, n - 1))
  }

  /** time.Sleep returns at once for durations that are not positive. */
  function Max0(d: int): int {
    if d > 0 then d else 0
  }

  lemma DoubledGrows(base: int, k: nat)
    requires base >= 1 && k >= 1
    ensures 0 < Doubled(base, k) <= Doubled(base, k + 1) <= MAX_BACKOFF
  {
    ScaledPow2Grows(base, k - 1, k);
    ScaledPow2Grows(base, 0, k - 1);
  }

  lemma OneMoreDoubling(base: int, p: int)
    ensures base * (p - 1) + base * p == base * (2 * p - 1)
  {
  }

  /** While the cap is not reached the sleeps add up to base * (2^(n-1) - 1). */
  lemma {:induction false} UncappedTotal(base: int, n: nat)
    requires base >= 1 && n >= 1 && (n >= 2 ==> base * Pow(2, n - 2) <= MAX_BACKOFF)
    ensures TotalSleep(base, n) == base * (Pow(2, n - 1) - 1)
  {
    if n < 2 {
    } else {
      if n >= 3 {
        ScaledPow2Grows(base, n - 3, n - 2);
      }
      UncappedTotal(base, n - 1);
      BackoffIsDoubled(base, n - 1);
      ScaledPow2Grows(base, 0, n - 2);
      OneMoreDoubling(base, Pow(2, n - 2));
    }
  }

  /** In every case n attempts sleep at most 5 s between them. */
  lemma {:induction false} TotalSleepBound(base: int, n: nat)
    ensures 0 <= TotalSleep(base, n) <= if n == 0 then 0 else (n - 1) * MAX_BACKOFF
  {
    if n < 2 {
    } else {
      TotalSleepBound(base, n - 1);
    }
  }

  /** The configured pool: five attempts from 100 ms sleep 1.5 s in all. */
  lemma ConfiguredSleep()
    ensures TotalSleep(100 * MILLISECOND, 5) == 1500 * MILLISECOND
  {
    assert Pow(2, 3) == 8 && Pow(2, 4) == 16;
    UncappedTotal(100 * MILLISECOND, 5);
  }

  // ---- One event ----

  /** What an attempt meets: the fate of its INSERT and how long Create took. */
  datatype Try = Try(fate: Fate, took: int)

  /** Create honours its five-second context. */
  predicate Prompt(t: Try) {
    0 <= t.took <= CREATE_TIMEOUT
  }

  /** The script covers every attempt that may be made. */
  ghost predicate Covers(script: seq<Try>, maxRetries: nat) {
    maxRetries <= |script| && forall t <- script :: Prompt(t)
  }

  /** The first n attempts fail. */
  ghost predicate Failing(script: seq<Try>, n: nat) {
    n <= |script| && forall k :: 0 <= k < n ==> script[k].fate != Normal
  }

  /** The loop makes exactly this many attempts: up to the first that succeeds. */
  ghost predicate EndsAfter(script: seq<Try>, attempts: nat, maxRetries: nat) {
    && 1 <= attempts <= maxRetries <= |script| && Failing(script, attempts - 1)
    && (attempts < maxRetries ==> script[attempts - 1].fate == Normal)
  }

  /** Whether one of the first n attempts reached the table. */
  predicate Reached(script: seq<Try>, n: nat)
    requires n <= |script|
  {
    n > 0 && (Reached(script, n - 1) || script[n - 1].fate != LostBefore)
  }

  /** The table after the first n attempts. */
  function RowsAfter(rows: Rows, e: ClickEvent, script: seq<Try>, n: nat): Rows
    requires n <= |script|
  {
    if n == 0 then rows else TriedRows(RowsAfter(rows, e, script, n - 1), e, script[n - 1].fate)
  }

  /** However many attempts reached the table, the event has one row. */
  lemma {:induction false} AttemptsInsertOnce(rows: Rows, e: ClickEvent, script: seq<Try>, n: nat)
    requires n <= |script| && DistinctKeys(rows)
    ensures RowsAfter(rows, e, script, n) == if Reached(script, n) then InsertOnce(rows, e) else rows
    ensures n > 0 && script[n - 1].fate == Normal ==> e.key in Keys(RowsAfter(rows, e, script, n))
  {
    InsertOnceIsIdempotent(rows, e);
    if n == 0 {
    } else {
      AttemptsInsertOnce(rows, e, script, n - 1);
    }
  }

  /** The arguments of time.Sleep between the first n attempts. */
  function Schedule(base: int, n: nat): seq<int> {
    if n <= 1 then [] else Schedule(base, n - 1) + [Backoff(base, n - 1)]
  }

  /** They are the sleeps after attempts 1, 2, .., n - 1. */
  lemma {:induction false} ScheduleLists(base: int, n: nat)
    requires n >= 1
    ensures |Schedule(base, n)| == n - 1 && forall k :: 0 <= k < n - 1 ==> Schedule(base, n)[k] == Backoff(base, k + 1)
  {
    if n == 1 {
    } else {
      ScheduleLists(base, n - 1);
    }
  }

  /** What a list of pauses amounts to. */
  function Slept(sleeps: seq<int>): int {
    if sleeps == [] then 0 else Slept(sleeps[..|sleeps| - 1]) + Max0(sleeps[|sleeps| - 1])
  }

  lemma {:induction false} ScheduleAmounts(base: int, n: nat)
    ensures Slept(Schedule(base, n)) == TotalSleep(base, n)
  {
    if n <= 1 {
    } else {
      ScheduleAmounts(base, n - 1);
      assert Schedule(base, n)[..n - 2] == Schedule(base, n - 1) by {
        ScheduleLists(base, n - 1);
      }
      ScheduleLists(base, n);
    }
  }

  lemma {:induction false} TotalSleepGrows(base: int, a: nat, b: nat)
    requires a <= b
    ensures TotalSleep(base, a) <= TotalSleep(base, b)
    decreases b
  {
    if a == b {
    } else {
      TotalSleepGrows(base, a, b - 1);
    }
  }

  /** What n attempts and the pauses between them take at most. */
  function TimeOf(base: int, n: nat): int {
    n * CREATE_TIMEOUT + TotalSleep(base, n)
  }

  lemma TimesGrow(base: int, m: nat, n: nat)
    requires m <= n
    ensures 0 <= TimeOf(base, m) <= TimeOf(base, n)
  {
    TotalSleepBound(base, m);
    TotalSleepGrows(base, m, n);
  }

  lemma OneMoreAttempt(base: int, n: nat)
    requires n >= 1
    ensures TotalSleep(base, n + 1) == TotalSleep(base, n) + Max0(Backoff(base, n))
    ensures TimeOf(base, n + 1) == TimeOf(base, n) + Max0(Backoff(base, n)) + CREATE_TIMEOUT
  {
  }

  /** The sleep computed in lines 120-124. */
  method NextBackoff(base: int, attempt: nat) returns (backoff: int)
    requires attempt >= 1
    ensures backoff == Backoff(base, attempt) <= MAX_BACKOFF
  {
    backoff := Wrap64(base * Wrap64(Pow(2, attempt - 1)));
    if backoff > MAX_BACKOFF {
      backoff := MAX_BACKOFF;
    }
  }

  /** ClickWorkerPool.process. `sleeps` lists the arguments of time.Sleep. */
  method Process(repo: ClickEventRepository, e: ClickEvent, maxRetries: nat, base: int, script: seq<Try>)
    returns (ok: bool, attempts: nat, sleeps: seq<int>, elapsed: int)
    requires maxRetries >= 1 && Covers(script, maxRetries) && DistinctKeys(repo.rows)
    modifies repo
    ensures DistinctKeys(repo.rows)
    ensures EndsAfter(script, attempts, maxRetries)
    ensures ok <==> script[attempts - 1].fate == Normal
    ensures repo.rows == RowsAfter(old(repo.rows), e, script, attempts)
    ensures sleeps == Schedule(base, attempts)
    ensures 0 <= Slept(sleeps) <= elapsed <= TimeOf(base, attempts) <= TimeOf(base, maxRetries)
  {
    var attempt := 1;
    sleeps, elapsed, ok, attempts := [], 0, false, 0;
    while attempt <= maxRetries
      invariant 1 <= attempt <= maxRetries
      invariant sleeps == Schedule(base, attempt)
      invariant Failing(script, attempt - 1)
      invariant DistinctKeys(repo.rows)
      invariant repo.rows == RowsAfter(old(repo.rows), e, script, attempt - 1)
      invariant TotalSleep(base, attempt) <= elapsed <= TimeOf(base, attempt) - CREATE_TIMEOUT
    {
      var try := script[attempt - 1];
      assert Prompt(try);
      ok := repo.Create(e, try.fate);
      elapsed := elapsed + try.took;
      attempts := attempt;
      if ok || attempt == maxRetries {
        ScheduleAmounts(base, attempt);
        TotalSleepBound(base, attempt);
        TimesGrow(base, attempt, maxRetries);
        return;
      }
      var backoff := NextBackoff(base, attempt);
      OneMoreAttempt(base, attempt);
      sleeps := sleeps + [backoff];
      elapsed := elapsed + Max0(backoff);
      attempt := attempt + 1;
    }
  }

  /** The time limit of one event under the configured pool: 26.5 s. */
  lemma ConfiguredEventTime()
    ensures TimeOf(100 * MILLISECOND, 5) == 26_500 * MILLISECOND
  {
    ConfiguredSleep();
  }

  // ---- The pool object ----

  /** One event a worker took: its position in the queue, and whether process returned nil. */
  datatype Service = Service(position: nat, ok: bool)

  /** The event has its row, or all its attempts failed. */
  ghost predicate Handled(rows: Rows, e: ClickEvent, script: seq<Try>, ok: bool, maxRetries: nat) {
    if ok then e.key in Keys(rows) else EndsAfter(script, maxRetries, maxRetries)
  }

  /** A worker's services, in the order of the queue, each with its script. */
  ghost predicate Served(rows: Rows, queue: Rows, head: nat, scripts: nat -> seq<Try>, log: seq<Service>,
                         maxRetries: nat) {
    && (forall j, k :: 0 <= j < k < |log| ==> log[j].position < log[k].position)
    && (forall k :: 0 <= k < |log| ==>
          && log[k].position < head && log[k].position < |queue|
          && Handled(rows, queue[log[k].position], scripts(k), log[k].ok, maxRetries))
  }

  lemma ServedMore(rows: Rows, more: Rows, queue: Rows, head: nat, scripts: nat -> seq<Try>, log: seq<Service>,
                   ok: bool,
                   maxRetries: nat)
    requires Served(rows, queue, head, scripts, log, maxRetries) && Keys(rows) <= Keys(more) && head < |queue|
    requires Handled(more, queue[head], scripts(|log|), ok, maxRetries)
    ensures Served(more, queue, head + 1, scripts, log + [Service(head, ok)], maxRetries)
  {
  }

  lemma ServedStays(rows: Rows, more: Rows, queue: Rows, head: nat, later: nat, scripts: nat -> seq<Try>,
                    log: seq<Service>,
                    maxRetries: nat)
    requires Served(rows, queue, head, scripts, log, maxRetries) && Keys(rows) <= Keys(more) && head <= later
    ensures Served(more, queue, later, scripts, log, maxRetries)
  {
  }

  datatype EnqueueError = QueueFull | Cancelled

  class ClickWorkerPool {
    var queue: seq<ClickEvent>
    var closed: bool
    const repo: ClickEventRepository
    const workerCount: int
    const queueSize: int
    const maxRetries: int
    const baseBackoff: int

    constructor (repo: ClickEventRepository, workerCount: int, queueSize: int, maxRetries: int, baseBackoff: int)
      ensures this.repo == repo && queue == [] && !closed && Valid()
      ensures this.workerCount == if workerCount <= 0 then 4 else workerCount
      ensures this.queueSize == if queueSize <= 0 then 1000 else queueSize
      ensures this.maxRetries == if maxRetries <= 0 then 5 else maxRetries
      ensures this.baseBackoff == if baseBackoff <= 0 then 100 * MILLISECOND else baseBackoff
    {
      this.repo := repo;
      this.queue := [];
      this.closed := false;
      this.workerCount := if workerCount <= 0 then 4 else workerCount;
      this.queueSize := if queueSize <= 0 then 1000 else queueSize;
      this.maxRetries := if maxRetries <= 0 then 5 else maxRetries;
      this.baseBackoff := if baseBackoff <= 0 then 100 * MILLISECOND else baseBackoff;
    }

    ghost predicate Valid()
      reads this
    {
      workerCount >= 1 && maxRetries >= 1 && baseBackoff >= 1 && |queue| <= queueSize
    }

    /** `cancelled` says that the context is done; when the queue also has room, select takes
        either ready case, and `choose` is its coin. */
    method Enqueue(e: ClickEvent, cancelled: bool, choose: bool) returns (r: Result<(), EnqueueError>)
      requires Valid() && !closed
      modifies this`queue
      ensures Valid()
      ensures r.Ok? ==> |old(queue)| < queueSize && queue == old(queue) + [e]
      ensures r.Err? ==> queue == old(queue)
      ensures |old(queue)| < queueSize ==> (r.Ok? <==> !cancelled || choose)
      ensures r == Err(QueueFull) <==> |old(queue)| >= queueSize && !cancelled
      ensures r == Err(Cancelled) ==> cancelled
    {
      if |queue| < queueSize && (!cancelled || choose) {
        queue := queue + [e];
        return Ok(());
      }
      r := Err(if cancelled then Cancelled else QueueFull);
    }

    method Close()
      requires Valid() && !closed
      modifies this`closed
      ensures Valid() && closed
    {
      closed := true;
    }

    /** The body of a worker's loop. */
    method Serve(e: ClickEvent, script: seq<Try>) returns (ok: bool, elapsed: int)
      requires Valid() && Covers(script, maxRetries) && DistinctKeys(repo.rows)
      modifies repo
      ensures DistinctKeys(repo.rows) && old(repo.rows) <= repo.rows && Handled(repo.rows, e, script, ok, maxRetries)
      ensures Keys(old(repo.rows)) <= Keys(repo.rows) <= Keys(old(repo.rows)) + {e.key}
      ensures 0 <= elapsed <= TimeOf(baseBackoff, maxRetries)
    {
      var attempts, sleeps;
      ok, attempts, sleeps, elapsed := Process(repo, e, maxRetries, baseBackoff, script);
      InsertOnceIsIdempotent(old(repo.rows), e);
      AttemptsInsertOnce(old(repo.rows), e, script, attempts);
    }

    /** <-queue: the next of all the events that were queued at first. */
    method Receive(ghost all: Rows, ghost head: nat) returns (e: ClickEvent)
      requires queue != [] && head <= |all| && queue == all[head..]
      modifies this`queue
      ensures head < |all| && e == all[head] && queue == all[head + 1..]
      ensures e.key in Keys(all)
    {
      e := queue[0];
      assert e == all[head];
      queue := queue[1..];
    }

    /** Other workers take events from the front and insert rows for them; `fates` says how far
        each INSERT gets. */
    method OtherWorkers(ghost all: Rows, ghost head: nat, fates: seq<Fate>) returns (ghost later: nat)
      requires Valid() && DistinctKeys(repo.rows) && head <= |all| && queue == all[head..]
      modifies this`queue, repo
      ensures Valid() && head <= later <= |all| && queue == all[later..]
      ensures DistinctKeys(repo.rows) && old(repo.rows) <= repo.rows
      ensures Keys(old(repo.rows)) <= Keys(repo.rows) <= Keys(old(repo.rows)) + Keys(all)
    {
      later := head;
      var n := 0;
      while n < |fates| && queue != []
        invariant n <= |fates| && Valid() && head <= later <= |all| && queue == all[later..]
        invariant DistinctKeys(repo.rows) && old(repo.rows) <= repo.rows
        invariant Keys(old(repo.rows)) <= Keys(repo.rows) <= Keys(old(repo.rows)) + Keys(all)
      {
        var e := Receive(all, later);
        InsertOnceIsIdempotent(repo.rows, e);
        var ok := repo.Create(e, fates[n]);
        n, later := n + 1, later + 1;
      }
    }

    /** One worker of the closed pool; `others(k)` is what the others do before its k-th
        receive, and `scripts(k)` what the event meets that it then takes. */
    method RunWorker(scripts: nat -> seq<Try>, others: nat -> seq<Fate>) returns (ghost log: seq<Service>)
      requires Valid() && closed && DistinctKeys(repo.rows)
      requires forall k :: Covers(scripts(k), maxRetries)
      modifies this`queue, repo
      ensures queue == [] && Served(repo.rows, old(queue), |old(queue)|, scripts, log, maxRetries)
      ensures DistinctKeys(repo.rows) && old(repo.rows) <= repo.rows
      ensures Keys(repo.rows) <= Keys(old(repo.rows)) + Keys(old(queue))
    {
      ghost var all := queue;
      var served := 0;
      log := [];
      ghost var head := OtherWorkers(all, 0, others(0));
      while queue != []
        invariant Valid() && head <= |all| && queue == all[head..] && served == |log|
        invariant Served(repo.rows, all, head, scripts, log, maxRetries)
        invariant DistinctKeys(repo.rows) && old(repo.rows) <= repo.rows
        invariant Keys(repo.rows) <= Keys(old(repo.rows)) + Keys(all)
        decreases |queue|
      {
        var e := Receive(all, head);
        assert Covers(scripts(served), maxRetries);
        ghost var before := repo.rows;
        var ok, elapsed := Serve(e, scripts(served));
        ServedMore(before, repo.rows, all, head, scripts, log, ok, maxRetries);
        log, served := log + [Service(head, ok)], served + 1;
        ghost var between := repo.rows;
        ghost var later := OtherWorkers(all, head + 1, others(served));
        ServedStays(between, repo.rows, all, head + 1, later, scripts, log, maxRetries);
        head := later;
      }
    }
  }
}
