/** The click worker pool with all its goroutines: producers, workers and Shutdown.

    One action is one channel operation, one INSERT or the end of one sleep. Each event taken
    from the channel gets the next ticket; tickets are history and record what Create
    replied for the event and who holds it. Start is called once, Shutdown once, Enqueue
    never after close, and event keys are distinct. */
module PoolProtocol {
  import opened Faults
  import opened ClickStore

  datatype Config = Config(capacity: nat, workers: nat, maxRetries: nat)

  /** Busy: about to make attempt number `attempt` for the ticket's event, or sleeping
      before it. */
  datatype Worker = Idle | Busy(ticket: nat, attempt: nat, asleep: bool) | Exited

  datatype Status = With(worker: nat) | Succeeded | Failed

  datatype Ticket = Ticket(event: ClickEvent, tries: seq<Fate>, status: Status)

  datatype State = State(
    queue: seq<ClickEvent>,
    closed: bool,
    workers: seq<Worker>,
    rows: Rows,
    accepted: seq<ClickEvent>,
    tickets: seq<Ticket>)

  datatype Action =
    | Accept(event: ClickEvent)
    | Close
    | Take(worker: nat)
    | Exit(worker: nat)
    | Attempt(worker: nat, fate: Fate)
    | Wake(worker: nat)

  ghost predicate GoodConfig(cfg: Config) {
    cfg.capacity >= 1 && cfg.workers >= 1 && cfg.maxRetries >= 1
  }

  ghost predicate Initial(cfg: Config, s: State) {
    && s.queue == [] && !s.closed && s.rows == [] && s.accepted == [] && s.tickets == []
    && |s.workers| == cfg.workers && forall w :: 0 <= w < |s.workers| ==> s.workers[w] == Idle
  }

  predicate Enabled(cfg: Config, s: State, a: Action) {
    match a
    case Accept(e) => !s.closed && |s.queue| < cfg.capacity && e.key !in Keys(s.accepted)
    case Close => !s.closed
    case Take(w) => w < |s.workers| && s.workers[w].Idle? && s.queue != []
    case Exit(w) => w < |s.workers| && s.workers[w].Idle? && s.queue == [] && s.closed
    case Attempt(w, _) => w < |s.workers| && s.workers[w].Busy? && !s.workers[w].asleep
        && s.workers[w].ticket < |s.tickets|
    case Wake(w) => w < |s.workers| && s.workers[w].Busy? && s.workers[w].asleep
  }

  /** Where attempt number n leaves the worker and the ticket. */
  function NextWorker(cfg: Config, i: nat, n: nat, fate: Fate): Worker {
    if fate == Normal || n == cfg.maxRetries then Idle else Busy(i, n + 1, true)
  }

  function TriedTicket(cfg: Config, t: Ticket, n: nat, fate: Fate): Ticket {
    var tries := t.tries + [fate];
    if fate == Normal then Ticket(t.event, tries, Succeeded)
    else if n == cfg.maxRetries then Ticket(t.event, tries, Failed)
    else Ticket(t.event, tries, t.status)
  }

  function Do(cfg: Config, s: State, a: Action): State
    requires Enabled(cfg, s, a)
  {
    match a
    case Accept(e) => s.(queue := s.queue + [e], accepted := s.accepted + [e])
    case Close => s.(closed := true)
    case Take(w) =>
      s.(queue := s.queue[1..],
         workers := s.workers[w := Busy(|s.tickets|, 1, false)],
         tickets := s.tickets + [Ticket(s.queue[0], [], With(w))])
    case Exit(w) => s.(workers := s.workers[w := Exited])
    case Attempt(w, fate) =>
      var i, n := s.workers[w].ticket, s.workers[w].attempt;
      s.(rows := TriedRows(s.rows, s.tickets[i].event, fate),
         workers := s.workers[w := NextWorker(cfg, i, n, fate)],
         tickets := s.tickets[i := TriedTicket(cfg, s.tickets[i], n, fate)])
    case Wake(w) => s.(workers := s.workers[w := s.workers[w].(asleep := false)])
  }

  predicate Runs(cfg: Config, s: State, acts: seq<Action>)
    decreases |acts|
  {
    acts == [] || (Enabled(cfg, s, acts[0]) && Runs(cfg, Do(cfg, s, acts[0]), acts[1..]))
  }

  function After(cfg: Config, s: State, acts: seq<Action>): State
    requires Runs(cfg, s, acts)
    decreases |acts|
  {
    if acts == [] then s else After(cfg, Do(cfg, s, acts[0]), acts[1..])
  }

  // ---- Invariant ----

  /** None of the attempts returned nil. */
  predicate AllFailed(tries: seq<Fate>) {
    forall k :: 0 <= k < |tries| ==> tries[k] != Normal
  }

  /** Some attempt committed, whether or not it said so. */
  predicate SomeCommitted(tries: seq<Fate>) {
    exists k :: 0 <= k < |tries| && tries[k] != LostBefore
  }

  /** The event has its row exactly when some attempt committed. */
  predicate RowMatches(rows: Rows, e: ClickEvent, tries: seq<Fate>) {
    && (SomeCommitted(tries) <==> e.key in Keys(rows))
    && (SomeCommitted(tries) ==> e in rows)
  }

  predicate StatusOk(cfg: Config, workers: seq<Worker>, t: Ticket, i: nat) {
    match t.status
    case With(w) =>
      && w < |workers| && workers[w].Busy? && workers[w].ticket == i
      && |t.tries| == workers[w].attempt - 1 && AllFailed(t.tries)
    case Succeeded =>
      && 1 <= |t.tries| <= cfg.maxRetries
      && t.tries[|t.tries| - 1] == Normal && AllFailed(t.tries[..|t.tries| - 1])
    case Failed =>
      |t.tries| == cfg.maxRetries && AllFailed(t.tries)
  }

  predicate TicketOk(cfg: Config, s: State, i: nat)
    requires i < |s.tickets|
  {
    RowMatches(s.rows, s.tickets[i].event, s.tickets[i].tries) && StatusOk(cfg, s.workers, s.tickets[i], i)
  }

  ghost predicate WorkerOk(cfg: Config, s: State, w: nat)
    requires w < |s.workers|
  {
    match s.workers[w]
    case Idle => true
    case Busy(i, n, asleep) =>
      i < |s.tickets| && s.tickets[i].status == With(w) && 1 <= n <= cfg.maxRetries && (asleep ==> n >= 2)
    case Exited => s.closed && s.queue == []
  }

  /** The accepted events are the tickets' events followed by the queue. */
  ghost predicate InOrder(s: State) {
    && |s.accepted| == |s.tickets| + |s.queue|
    && (forall i :: 0 <= i < |s.tickets| ==> s.tickets[i].event == s.accepted[i])
    && s.queue == s.accepted[|s.tickets|..]
  }

  ghost predicate RowsOk(s: State) {
    && DistinctKeys(s.rows)
    && forall r <- s.rows :: exists i :: 0 <= i < |s.tickets| && s.tickets[i].event == r
  }

  ghost predicate Inv(cfg: Config, s: State) {
    && |s.queue| <= cfg.capacity
    && |s.workers| == cfg.workers
    && DistinctKeys(s.accepted)
    && InOrder(s)
    && RowsOk(s)
    && (forall i :: 0 <= i < |s.tickets| ==> TicketOk(cfg, s, i))
    && (forall w :: 0 <= w < |s.workers| ==> WorkerOk(cfg, s, w))
  }

  lemma InitInv(cfg: Config, s: State)
    requires Initial(cfg, s)
    ensures Inv(cfg, s)
  {
  }

  lemma AcceptKeepsInv(cfg: Config, s: State, e: ClickEvent)
    requires Inv(cfg, s) && Enabled(cfg, s, Accept(e))
    ensures Inv(cfg, Do(cfg, s, Accept(e)))
  {
    var s' := Do(cfg, s, Accept(e));
    forall i, j | 0 <= i < j < |s'.accepted| ensures s'.accepted[i].key != s'.accepted[j].key {
      assert s.accepted[i] in s.accepted;
    }
    forall i | 0 <= i < |s'.tickets| ensures TicketOk(cfg, s', i) {
      assert TicketOk(cfg, s, i);
    }
    forall w | 0 <= w < |s'.workers| ensures WorkerOk(cfg, s', w) {
      assert WorkerOk(cfg, s, w);
    }
  }

  /** No row carries the key of an event that is still queued. */
  lemma QueuedHasNoRow(cfg: Config, s: State)
    requires Inv(cfg, s) && s.queue != []
    ensures s.queue[0].key !in Keys(s.rows)
  {
  }

  lemma TakeKeepsInv(cfg: Config, s: State, w: nat)
    requires GoodConfig(cfg) && Inv(cfg, s) && Enabled(cfg, s, Take(w))
    ensures Inv(cfg, Do(cfg, s, Take(w)))
  {
    var s' := Do(cfg, s, Take(w));
    QueuedHasNoRow(cfg, s);
    forall i | 0 <= i < |s'.tickets| ensures TicketOk(cfg, s', i) {
      if i < |s.tickets| {
        assert TicketOk(cfg, s, i);
      }
    }
    forall v | 0 <= v < |s'.workers| ensures WorkerOk(cfg, s', v) {
      assert WorkerOk(cfg, s, v);
    }
    forall r <- s'.rows ensures exists i :: 0 <= i < |s'.tickets| && s'.tickets[i].event == r {
      var i :| 0 <= i < |s.tickets| && s.tickets[i].event == r;
      assert s'.tickets[i].event == r;
    }
  }

  lemma OneMoreTry(tries: seq<Fate>, fate: Fate)
    ensures SomeCommitted(tries + [fate]) <==> SomeCommitted(tries) || fate != LostBefore
    ensures AllFailed(tries + [fate]) <==> AllFailed(tries) && fate != Normal
    ensures (tries + [fate])[..|tries|] == tries
  {
    var more := tries + [fate];
    assert more[|tries|] == fate;
    assert forall k :: 0 <= k < |tries| ==> more[k] == tries[k];
  }

  /** The row of the event that was tried. */
  lemma OwnRowMatches(rows: Rows, e: ClickEvent, tries: seq<Fate>, fate: Fate)
    requires DistinctKeys(rows) && RowMatches(rows, e, tries)
    ensures RowMatches(TriedRows(rows, e, fate), e, tries + [fate])
  {
    InsertOnceIsIdempotent(rows, e);
    OneMoreTry(tries, fate);
  }

  /** The row of any other event. */
  lemma OtherRowMatches(rows: Rows, other: ClickEvent, tries: seq<Fate>, e: ClickEvent, fate: Fate)
    requires DistinctKeys(rows) && RowMatches(rows, other, tries) && other.key != e.key
    ensures RowMatches(TriedRows(rows, e, fate), other, tries)
  {
    InsertOnceIsIdempotent(rows, e);
  }

  lemma OwnStatusOk(cfg: Config, workers: seq<Worker>, t: Ticket, i: nat, w: nat, fate: Fate)
    requires t.status == With(w) && StatusOk(cfg, workers, t, i) && 1 <= workers[w].attempt <= cfg.maxRetries
    ensures StatusOk(cfg, workers[w := NextWorker(cfg, i, workers[w].attempt, fate)],
                     TriedTicket(cfg, t, workers[w].attempt, fate), i)
  {
    OneMoreTry(t.tries, fate);
  }

  lemma OtherStatusOk(cfg: Config, workers: seq<Worker>, t: Ticket, j: nat, w: nat, x: Worker)
    requires w < |workers| && workers[w].Busy? && workers[w].ticket != j && StatusOk(cfg, workers, t, j)
    ensures StatusOk(cfg, workers[w := x], t, j)
  {
  }

  lemma AttemptKeepsOwnTicket(cfg: Config, s: State, w: nat, fate: Fate)
    requires Enabled(cfg, s, Attempt(w, fate)) && DistinctKeys(s.rows)
    requires WorkerOk(cfg, s, w) && TicketOk(cfg, s, s.workers[w].ticket)
    ensures TicketOk(cfg, Do(cfg, s, Attempt(w, fate)), s.workers[w].ticket)
  {
    var i := s.workers[w].ticket;
    OwnRowMatches(s.rows, s.tickets[i].event, s.tickets[i].tries, fate);
    OwnStatusOk(cfg, s.workers, s.tickets[i], i, w, fate);
  }

  lemma AttemptKeepsOtherTicket(cfg: Config, s: State, w: nat, fate: Fate, j: nat)
    requires Enabled(cfg, s, Attempt(w, fate)) && DistinctKeys(s.rows)
    requires j < |s.tickets| && j != s.workers[w].ticket && TicketOk(cfg, s, j)
    requires s.tickets[j].event.key != s.tickets[s.workers[w].ticket].event.key
    ensures TicketOk(cfg, Do(cfg, s, Attempt(w, fate)), j)
  {
    var i := s.workers[w].ticket;
    OtherRowMatches(s.rows, s.tickets[j].event, s.tickets[j].tries, s.tickets[i].event, fate);
    OtherStatusOk(cfg, s.workers, s.tickets[j], j, w, NextWorker(cfg, i, s.workers[w].attempt, fate));
  }

  lemma AttemptKeepsRows(cfg: Config, s: State, w: nat, fate: Fate)
    requires RowsOk(s) && Enabled(cfg, s, Attempt(w, fate))
    ensures RowsOk(Do(cfg, s, Attempt(w, fate)))
  {
    var s' := Do(cfg, s, Attempt(w, fate));
    var i := s.workers[w].ticket;
    InsertOnceIsIdempotent(s.rows, s.tickets[i].event);
    forall r <- s'.rows ensures exists j :: 0 <= j < |s'.tickets| && s'.tickets[j].event == r {
      var j :| 0 <= j < |s.tickets| && s.tickets[j].event == if r in s.rows then r else s.tickets[i].event;
      assert s'.tickets[j].event == r;
    }
  }

  /** Other workers keep their tickets. */
  lemma AttemptKeepsWorker(cfg: Config, s: State, w: nat, fate: Fate, v: nat)
    requires Enabled(cfg, s, Attempt(w, fate)) && v < |s.workers| && WorkerOk(cfg, s, w) && WorkerOk(cfg, s, v)
    ensures WorkerOk(cfg, Do(cfg, s, Attempt(w, fate)), v)
  {
  }

  lemma AttemptKeepsInv(cfg: Config, s: State, w: nat, fate: Fate)
    requires GoodConfig(cfg) && Inv(cfg, s) && Enabled(cfg, s, Attempt(w, fate))
    ensures Inv(cfg, Do(cfg, s, Attempt(w, fate)))
  {
    var s', i := Do(cfg, s, Attempt(w, fate)), s.workers[w].ticket;
    assert WorkerOk(cfg, s, w);
    forall j | 0 <= j < |s'.tickets| ensures TicketOk(cfg, s', j) {
      assert TicketOk(cfg, s, j);
      if j == i {
        AttemptKeepsOwnTicket(cfg, s, w, fate);
      } else {
        assert s.accepted[i].key != s.accepted[j].key;
        AttemptKeepsOtherTicket(cfg, s, w, fate, j);
      }
    }
    forall v | 0 <= v < |s'.workers| ensures WorkerOk(cfg, s', v) {
      assert WorkerOk(cfg, s, v);
      AttemptKeepsWorker(cfg, s, w, fate, v);
    }
    AttemptKeepsRows(cfg, s, w, fate);
  }

  lemma QuietStepKeepsInv(cfg: Config, s: State, a: Action)
    requires Inv(cfg, s) && Enabled(cfg, s, a) && (a.Close? || a.Exit? || a.Wake?)
    ensures Inv(cfg, Do(cfg, s, a))
  {
    var s' := Do(cfg, s, a);
    forall i | 0 <= i < |s'.tickets| ensures TicketOk(cfg, s', i) {
      assert TicketOk(cfg, s, i);
    }
    forall v | 0 <= v < |s'.workers| ensures WorkerOk(cfg, s', v) {
      assert WorkerOk(cfg, s, v);
    }
  }

  lemma StepKeepsInv(cfg: Config, s: State, a: Action)
    requires GoodConfig(cfg) && Inv(cfg, s) && Enabled(cfg, s, a)
    ensures Inv(cfg, Do(cfg, s, a))
  {
    match a
    case Accept(e) => AcceptKeepsInv(cfg, s, e);
    case Take(w) => TakeKeepsInv(cfg, s, w);
    case Attempt(w, fate) => AttemptKeepsInv(cfg, s, w, fate);
    case _ => QuietStepKeepsInv(cfg, s, a);
  }

  lemma {:induction false} RunKeepsInv(cfg: Config, s: State, acts: seq<Action>)
    requires GoodConfig(cfg) && Inv(cfg, s) && Runs(cfg, s, acts)
    ensures Inv(cfg, After(cfg, s, acts))
    decreases |acts|
  {
    if acts == [] {
    } else {
      StepKeepsInv(cfg, s, acts[0]);
      RunKeepsInv(cfg, Do(cfg, s, acts[0]), acts[1..]);
    }
  }

  // ---- What each step does ----

  /** Worker w holds accepted event number i. */
  predicate Holds(s: State, w: nat, i: nat) {
    w < |s.workers| && s.workers[w].Busy? && s.workers[w].ticket == i
  }

  /** An open pool accepts an event exactly while the queue has room, and queues it last. */
  lemma AcceptQueues(cfg: Config, s: State, e: ClickEvent)
    requires e.key !in Keys(s.accepted)
    ensures Enabled(cfg, s, Accept(e)) <==> !s.closed && |s.queue| < cfg.capacity
    ensures Enabled(cfg, s, Accept(e)) ==>
              var s' := Do(cfg, s, Accept(e));
              && s'.queue == s.queue + [e] && s'.accepted == s.accepted + [e]
              && s'.rows == s.rows && s'.workers == s.workers && s'.tickets == s.tickets
  {
  }

  /** An idle worker takes the event that has waited longest, closed or not, and leaves only a
      closed and empty queue. */
  lemma TakeIsFirst(cfg: Config, s: State, w: nat)
    requires w < |s.workers| && s.workers[w].Idle?
    ensures Enabled(cfg, s, Take(w)) <==> s.queue != []
    ensures Enabled(cfg, s, Exit(w)) <==> s.queue == [] && s.closed
    ensures s.queue != [] ==>
              var s' := Do(cfg, s, Take(w));
              && [s'.tickets[|s.tickets|].event] + s'.queue == s.queue && s'.rows == s.rows
              && Holds(s', w, |s.tickets|) && s'.workers[w].attempt == 1 && !s'.workers[w].asleep
  {
  }

  /** An attempt that replies nil ends the event with its row stored; after an error the event
      sleeps before its next attempt, unless that was the last. */
  lemma AttemptDecides(cfg: Config, s: State, w: nat, fate: Fate)
    requires GoodConfig(cfg) && Inv(cfg, s) && Enabled(cfg, s, Attempt(w, fate))
    ensures var i, s' := s.workers[w].ticket, Do(cfg, s, Attempt(w, fate));
            var n, ticket := s.workers[w].attempt, s'.tickets[i];
            && ticket.event == s.tickets[i].event && ticket.tries == s.tickets[i].tries + [fate]
            && (fate != LostBefore ==> ticket.event in s'.rows)
            && (fate == LostBefore ==> s'.rows == s.rows)
            && (if fate == Normal then s'.workers[w] == Idle && ticket.status == Succeeded
                else if n < cfg.maxRetries then s'.workers[w] == Busy(i, n + 1, true) && ticket.status == With(w)
                else s'.workers[w] == Idle && ticket.status == Failed)
  {
    AttemptKeepsInv(cfg, s, w, fate);
    assert WorkerOk(cfg, s, w);
    assert TicketOk(cfg, Do(cfg, s, Attempt(w, fate)), s.workers[w].ticket);
    OneMoreTry(s.tickets[s.workers[w].ticket].tries, fate);
  }

  // ---- Main results ----

  ghost predicate Reachable(cfg: Config, s: State) {
    exists s0, acts :: Initial(cfg, s0) && Runs(cfg, s0, acts) && After(cfg, s0, acts) == s
  }

  lemma ReachableInv(cfg: Config, s: State)
    requires GoodConfig(cfg) && Reachable(cfg, s)
    ensures Inv(cfg, s)
  {
    var s0, acts :| Initial(cfg, s0) && Runs(cfg, s0, acts) && After(cfg, s0, acts) == s;
    InitInv(cfg, s0);
    RunKeepsInv(cfg, s0, acts);
  }

  /** Each accepted event is in exactly one place: in the queue, in one worker's hands, or
      finished. */
  lemma EachEventInOnePlace(cfg: Config, s: State, i: nat)
    requires GoodConfig(cfg) && Reachable(cfg, s) && i < |s.accepted|
    ensures |s.accepted| == |s.tickets| + |s.queue|
    ensures i >= |s.tickets| ==> s.queue[i - |s.tickets|] == s.accepted[i] && forall w :: !Holds(s, w, i)
    ensures i < |s.tickets| ==> s.tickets[i].event == s.accepted[i] && s.accepted[i] !in s.queue
    ensures i < |s.tickets| && s.tickets[i].status.With? ==>
        forall w :: Holds(s, w, i) <==> w == s.tickets[i].status.worker
    ensures i < |s.tickets| && !s.tickets[i].status.With? ==> forall w :: !Holds(s, w, i)
  {
    ReachableInv(cfg, s);
    forall w | Holds(s, w, i) ensures i < |s.tickets| && s.tickets[i].status == With(w) {
      assert WorkerOk(cfg, s, w);
    }
    if i < |s.tickets| {
      assert TicketOk(cfg, s, i);
      forall q | 0 <= q < |s.queue| ensures s.queue[q] != s.accepted[i] {
        assert s.queue[q] == s.accepted[|s.tickets| + q];
      }
    }
  }

  /** The table never holds a key twice or a row that was not accepted; an event has its row
      exactly when one of its attempts committed, so in particular when process returned nil
      or when a commit was reported as an error. */
  lemma RowsMatchEvents(cfg: Config, s: State)
    requires GoodConfig(cfg) && Reachable(cfg, s)
    ensures DistinctKeys(s.rows) && |s.queue| <= cfg.capacity
    ensures forall r <- s.rows :: r in s.accepted
    ensures forall i :: 0 <= i < |s.tickets| ==> (s.tickets[i].event in s.rows <==> SomeCommitted(s.tickets[i].tries))
    ensures forall i :: 0 <= i < |s.tickets| && s.tickets[i].status == Succeeded ==> s.tickets[i].event in s.rows
  {
    ReachableInv(cfg, s);
    forall r <- s.rows ensures r in s.accepted {
      var i :| 0 <= i < |s.tickets| && s.tickets[i].event == r;
      assert s.accepted[i] == r;
    }
    forall i | 0 <= i < |s.tickets|
      ensures s.tickets[i].event in s.rows <==> SomeCommitted(s.tickets[i].tries)
      ensures s.tickets[i].status == Succeeded ==> s.tickets[i].event in s.rows
    {
      assert TicketOk(cfg, s, i);
      if s.tickets[i].status == Succeeded {
        var tries := s.tickets[i].tries;
        assert tries[|tries| - 1] != LostBefore;
      }
    }
  }

  /** wg.Wait returns when every worker has exited. */
  predicate ShutDown(s: State) {
    s.closed && forall w :: 0 <= w < |s.workers| ==> s.workers[w] == Exited
  }

  /** When Shutdown returns nothing is left over: events were taken in the order they were
      accepted, and each ended in a success or in exactly maxRetries failed attempts. */
  lemma ShutdownDrains(cfg: Config, s: State)
    requires GoodConfig(cfg) && Reachable(cfg, s) && ShutDown(s)
    ensures s.queue == [] && |s.tickets| == |s.accepted|
    ensures forall i :: 0 <= i < |s.accepted| ==>
              && s.tickets[i].event == s.accepted[i]
              && (|| (s.tickets[i].status == Succeeded && s.accepted[i] in s.rows)
                  || (s.tickets[i].status == Failed && |s.tickets[i].tries| == cfg.maxRetries
                      && AllFailed(s.tickets[i].tries)))
  {
    ReachableInv(cfg, s);
    RowsMatchEvents(cfg, s);
    assert WorkerOk(cfg, s, 0);
    forall i | 0 <= i < |s.accepted|
      ensures s.tickets[i].status == Succeeded
              || (s.tickets[i].status == Failed && |s.tickets[i].tries| == cfg.maxRetries
                  && AllFailed(s.tickets[i].tries))
    {
      assert TicketOk(cfg, s, i);
    }
  }

  // ---- Termination ----

  /** Steps a worker can still take without a new event. */
  function WorkerCost(cfg: Config, w: Worker): int {
    match w
    case Idle => 1
    case Busy(_, n, asleep) => 2 * (cfg.maxRetries - n) + 2 + if asleep then 1 else 0
    case Exited => 0
  }

  function TotalCost(cfg: Config, workers: seq<Worker>): int {
    if workers == [] then 0 else WorkerCost(cfg, workers[0]) + TotalCost(cfg, workers[1..])
  }

  /** Attempts and sleeps left over queued and held events, plus live workers. */
  function Measure(cfg: Config, s: State): int {
    2 * cfg.maxRetries * |s.queue| + TotalCost(cfg, s.workers)
  }

  lemma {:induction false} CostOfUpdate(cfg: Config, workers: seq<Worker>, w: nat, x: Worker)
    requires w < |workers|
    ensures TotalCost(cfg, workers[w := x]) == TotalCost(cfg, workers) - WorkerCost(cfg, workers[w])
        + WorkerCost(cfg, x)
  {
    if w == 0 {
      assert workers[w := x][1..] == workers[1..];
    } else {
      CostOfUpdate(cfg, workers[1..], w - 1, x);
      assert workers[w := x][1..] == workers[1..][w - 1 := x];
    }
  }

  lemma {:induction false} CostIsNatural(cfg: Config, workers: seq<Worker>)
    requires forall w :: 0 <= w < |workers| && workers[w].Busy? ==> workers[w].attempt <= cfg.maxRetries
    ensures TotalCost(cfg, workers) >= 0
    ensures TotalCost(cfg, workers) == 0 ==> forall w :: 0 <= w < |workers| ==> workers[w] == Exited
  {
    if workers == [] {
    } else {
      CostIsNatural(cfg, workers[1..]);
      assert forall w :: 1 <= w < |workers| ==> workers[w] == workers[1..][w - 1];
    }
  }

  lemma MeasureIsNatural(cfg: Config, s: State)
    requires Inv(cfg, s)
    ensures Measure(cfg, s) >= 0
  {
    forall w | 0 <= w < |s.workers| && s.workers[w].Busy? ensures s.workers[w].attempt <= cfg.maxRetries {
      assert WorkerOk(cfg, s, w);
    }
    CostIsNatural(cfg, s.workers);
    assert cfg.maxRetries * |s.queue| >= 0;
  }

  lemma OneEventLess(maxRetries: nat, n: nat)
    ensures 2 * maxRetries * (n + 1) == 2 * maxRetries * n + 2 * maxRetries
  {
  }

  /** After close every step that is possible brings the measure down. */
  lemma ClosedStepsDescend(cfg: Config, s: State, a: Action)
    requires GoodConfig(cfg) && Inv(cfg, s) && s.closed && Enabled(cfg, s, a)
    ensures Measure(cfg, Do(cfg, s, a)) < Measure(cfg, s) && Do(cfg, s, a).closed
  {
    assert WorkerOk(cfg, s, a.worker);
    WorkerStepDescends(cfg, s, a);
  }

  lemma WorkerStepDescends(cfg: Config, s: State, a: Action)
    requires GoodConfig(cfg) && Enabled(cfg, s, a) && !a.Accept? && !a.Close? && WorkerOk(cfg, s, a.worker)
    ensures Measure(cfg, Do(cfg, s, a)) < Measure(cfg, s) && Do(cfg, s, a).closed == s.closed
  {
    var s' := Do(cfg, s, a);
    CostOfUpdate(cfg, s.workers, a.worker, s'.workers[a.worker]);
    if a.Take? {
      assert |s.queue| == |s'.queue| + 1;
      OneEventLess(cfg.maxRetries, |s'.queue|);
      assert Measure(cfg, s') == Measure(cfg, s) - 1;
    } else {
      assert s'.queue == s.queue;
    }
  }

  /** So no run after close is longer than the measure. */
  lemma {:induction false} DrainIsBounded(cfg: Config, s: State, acts: seq<Action>)
    requires GoodConfig(cfg) && Inv(cfg, s) && s.closed && Runs(cfg, s, acts)
    ensures |acts| <= Measure(cfg, s)
    decreases |acts|
  {
    MeasureIsNatural(cfg, s);
    if acts == [] {
    } else {
      ClosedStepsDescend(cfg, s, acts[0]);
      StepKeepsInv(cfg, s, acts[0]);
      DrainIsBounded(cfg, Do(cfg, s, acts[0]), acts[1..]);
    }
  }

  /** And a run can only stop once every worker has exited. */
  lemma OnlyShutdownStops(cfg: Config, s: State)
    requires GoodConfig(cfg) && Inv(cfg, s) && s.closed
    ensures (exists a :: Enabled(cfg, s, a)) <==> !ShutDown(s)
  {
    if w :| 0 <= w < |s.workers| && s.workers[w] != Exited {
      assert WorkerOk(cfg, s, w);
      var a := if s.workers[w].Busy? then
          if s.workers[w].asleep then Wake(w) else Attempt(w, Normal)
        else
          if s.queue == [] then Exit(w) else Take(w);
      assert Enabled(cfg, s, a);
    } else {
      forall a ensures !Enabled(cfg, s, a) {
      }
    }
  }
}
