/** The fixed-window limiter of security/rate_limiter.go.

    A request reads the clock first and takes the mutex afterwards, so requests enter the
    critical section in lock order while their stamps may be out of order. */
module RateLimiting {
  import opened Arithmetic
  import opened Durations
  import opened Wrappers

  datatype Window = Window(count: int, start: int)

  datatype Config = Config(max: int, window: int)

  /** One request: who, the clock reading, and the later instant at which the lock was taken. */
  datatype Request = Request(client: string, stamp: int, lockedAt: int)

  datatype Response = Passed | TooManyRequests(retryAfter: int)

  type Clients = map<string, Window>

  /** Lines 42-52: the window entry the request leaves behind. */
  function Enter(cfg: Config, clients: Clients, client: string, stamp: int): Window {
    if client !in clients || stamp - clients[client].start >= cfg.window
    then Window(1, stamp)
    else Window(clients[client].count + 1, clients[client].start)
  }

  /** The Retry-After value: whole seconds until the window ends, at least one. `seconds`
      truncates toward zero like int(float64). */
  function RetryAfter(cfg: Config, start: int, clock: int): (seconds: int)
    ensures start + cfg.window - clock < SECOND ==> seconds == 1
    ensures start + cfg.window - clock >= SECOND ==>
              seconds >= 1 && seconds * SECOND <= start + cfg.window - clock < (seconds + 1) * SECOND
  {
    var left := start + cfg.window - clock;
    if left < SECOND then 1 else left / SECOND
  }

  // ---- Runs ----

  /** The windows after a run of requests in lock order. */
  function After(cfg: Config, run: seq<Request>): Clients {
    if run == [] then map[]
    else
      var before, q := After(cfg, run[..|run| - 1]), run[|run| - 1];
      before[q.client := Enter(cfg, before, q.client, q.stamp)]
  }

  /** Whether request k of the run is let through. */
  predicate Admitted(cfg: Config, run: seq<Request>, k: nat)
    requires k < |run|
  {
    Enter(cfg, After(cfg, run[..k]), run[k].client, run[k].stamp).count <= cfg.max
  }

  /** Request k opens a window of its client. */
  predicate OpensWindow(cfg: Config, run: seq<Request>, k: nat)
    requires k < |run|
  {
    var before := After(cfg, run[..k]);
    run[k].client !in before || run[k].stamp - before[run[k].client].start >= cfg.window
  }

  // ---- Windows by position ----

  /** The last of the first n requests that opened a window of the client: its first request, or
      one stamped at least a window after the opening before. */
  function LastOpening(cfg: Config, run: seq<Request>, client: string, n: nat): (last: Option<nat>)
    requires n <= |run|
    ensures last.Some? ==> last.value < n && run[last.value].client == client
  {
    if n == 0 then None
    else
      var last := LastOpening(cfg, run, client, n - 1);
      if run[n - 1].client == client && (last.None? || run[n - 1].stamp - run[last.value].stamp >= cfg.window)
      then Some(n - 1)
      else last
  }

  /** How many of the requests i, .., n - 1 are the client's. */
  function RequestsFrom(run: seq<Request>, client: string, i: nat, n: nat): nat
    requires n <= |run|
  {
    if n <= i then 0 else RequestsFrom(run, client, i, n - 1) + if run[n - 1].client == client then 1 else 0
  }

  /** The entry kept for a client: it starts at the stamp of the client's last opening request
      and counts the client's requests from that one on, let through or not. */
  lemma {:induction false} EntryByPosition(cfg: Config, run: seq<Request>, client: string, n: nat)
    requires n <= |run|
    ensures var last := LastOpening(cfg, run, client, n);
            && (client in After(cfg, run[..n]) <==> last.Some?)
            && (last.Some? ==>
                  After(cfg, run[..n])[client]
                  == Window(RequestsFrom(run, client, last.value, n), run[last.value].stamp))
  {
    if n == 0 {
    } else {
      assert run[..n][..n - 1] == run[..n - 1];
      EntryByPosition(cfg, run, client, n - 1);
    }
  }

  /** Whether a request passes: one that opens a window does, when anybody may; any other
      exactly while fewer than max requests of the client came before it in its window. */
  predicate PassesAt(cfg: Config, run: seq<Request>, client: string, stamp: int) {
    var last := LastOpening(cfg, run, client, |run|);
    if last.None? || stamp - run[last.value].stamp >= cfg.window then cfg.max >= 1
    else RequestsFrom(run, client, last.value, |run|) < cfg.max
  }

  /** Admission depends on the positions and stamps of the client's requests as just said. In
      particular a request stamped a window or more after the client's last opening passes,
      whatever was rejected in between. */
  lemma AdmittedByPosition(cfg: Config, run: seq<Request>, k: nat)
    requires k < |run|
    ensures Admitted(cfg, run, k) <==> PassesAt(cfg, run[..k], run[k].client, run[k].stamp)
    ensures OpensWindow(cfg, run, k) <==> LastOpening(cfg, run, run[k].client, k + 1) == Some(k)
  {
    assert run[..k][..k] == run[..k];
    EntryByPosition(cfg, run[..k], run[k].client, k);
    EntryByPosition(cfg, run, run[k].client, k);
  }

  /** Both know the same clients, with the same windows, and with the same counts as long as
      those matter. */
  ghost predicate Alike(cfg: Config, x: Clients, y: Clients) {
    forall c :: (c in x <==> c in y) && (c in x ==>
      x[c].start == y[c].start && (x[c].count == y[c].count || (x[c].count >= cfg.max && y[c].count >= cfg.max)))
  }

  lemma {:induction false} LikeRunsStayAlike(cfg: Config, a: seq<Request>, a': seq<Request>, b: seq<Request>)
    requires Alike(cfg, After(cfg, a), After(cfg, a'))
    ensures Alike(cfg, After(cfg, a + b), After(cfg, a' + b))
  {
    if b == [] {
      assert a + b == a && a' + b == a';
    } else {
      var front := b[..|b| - 1];
      assert (a + b)[..|a + b| - 1] == a + front && (a' + b)[..|a' + b| - 1] == a' + front;
      LikeRunsStayAlike(cfg, a, a', front);
    }
  }

  /** A rejected request leaves no trace: had it not been made, every later request, of this or
      any other client, would be decided the same. Retrying too early costs nothing. */
  lemma RejectionsLeaveNoTrace(cfg: Config, a: seq<Request>, q: Request, b: seq<Request>, next: Request)
    requires !Admitted(cfg, a + [q], |a|)
    ensures Admitted(cfg, a + [q] + b + [next], |a| + 1 + |b|) <==> Admitted(cfg, a + b + [next], |a| + |b|)
  {
    if cfg.max >= 1 {
      assert (a + [q])[..|a|] == a;
      LikeRunsStayAlike(cfg, a + [q], a, b);
    } else {
      CountsArePositive(cfg, a + [q] + b, next.client);
      CountsArePositive(cfg, a + b, next.client);
    }
    assert (a + [q] + b + [next])[..|a| + 1 + |b|] == a + [q] + b;
    assert (a + b + [next])[..|a| + |b|] == a + b;
  }

  // ---- The limiter itself ----

  class RateLimiter {
    var clients: Clients
    const cfg: Config
    /** The requests so far, in lock order. */
    ghost var served: seq<Request>

    ghost predicate Valid()
      reads this
    {
      clients == After(cfg, served)
    }

    constructor (max: int, window: int)
      ensures Valid() && served == [] && cfg == Config(max, window)
    {
      clients := map[];
      cfg := Config(max, window);
      served := [];
    }

    /** Middleware up to the decision; `clock` is the reading of time.Until after the unlock. */
    method Handle(client: string, stamp: int, ghost lockedAt: int, clock: int) returns (r: Response)
      requires Valid()
      modifies this
      ensures Valid() && served == old(served) + [Request(client, stamp, lockedAt)]
      ensures r.Passed? <==> PassesAt(cfg, old(served), client, stamp)
      ensures r.Passed? <==> Admitted(cfg, served, |old(served)|)
      ensures client in clients && (forall other <- clients :: other != client ==>
                other in old(clients) && clients[other] == old(clients)[other])
      ensures r.TooManyRequests? ==> r.retryAfter == RetryAfter(cfg, clients[client].start, clock)
    {
      var entry := Window(0, stamp);
      if client in clients && stamp - clients[client].start < cfg.window {
        entry := clients[client];
      }
      entry := entry.(count := entry.count + 1);
      clients := clients[client := entry];
      served := served + [Request(client, stamp, lockedAt)];
      ghost var k := |served| - 1;
      assert served[..k] == old(served);
      AdmittedByPosition(cfg, served, k);
      if entry.count > cfg.max {
        var retryAfter := (entry.start + cfg.window - clock) / SECOND;
        if retryAfter < 1 {
          retryAfter := 1;
        }
        return TooManyRequests(retryAfter);
      }
      r := Passed;
    }
  }

  // ---- The bound over intervals ----

  /** Requests of a client let through with lock times in [from, from + length). */
  function AdmittedIn(cfg: Config, run: seq<Request>, client: string, from: int, length: int): nat {
    if run == [] then 0
    else
      var q := run[|run| - 1];
      AdmittedIn(cfg, run[..|run| - 1], client, from, length)
      + if q.client == client && from <= q.lockedAt < from + length && Admitted(cfg, run, |run| - 1) then 1 else 0
  }

  /** Lock times never decrease, and a stamp is at most `delay` older than its lock time. */
  ghost predicate Timely(run: seq<Request>, delay: int) {
    && (forall k :: 0 <= k < |run| ==> run[k].stamp <= run[k].lockedAt <= run[k].stamp + delay)
    && (forall i, k :: 0 <= i < k < |run| ==> run[i].lockedAt <= run[k].lockedAt)
  }

  lemma {:induction false} CountsArePositive(cfg: Config, run: seq<Request>, client: string)
    ensures client in After(cfg, run) ==> After(cfg, run)[client].count >= 1
  {
    if run == [] {
    } else {
      CountsArePositive(cfg, run[..|run| - 1], client);
      CountsArePositive(cfg, run[..|run| - 1], run[|run| - 1].client);
    }
  }

  lemma {:induction false} NoneBefore(cfg: Config, run: seq<Request>, client: string, from: int, length: int)
    requires forall q <- run :: q.lockedAt < from
    ensures AdmittedIn(cfg, run, client, from, length) == 0
  {
    if run == [] {
    } else {
      NoneBefore(cfg, run[..|run| - 1], client, from, length);
    }
  }

  /** Progress inside the interval: `admitted` requests so far, `windows` windows opened by
      requests of the interval, `w` the client's window now. `carried` says that the window
      found at the start, which an earlier request opened, has admitted somebody: then at most
      max - 1 of its admissions are left, and the next window opens after the earliest stamp. */
  ghost predicate Tracks(cfg: Config, w: Window, admitted: int, windows: nat, carried: bool, earliest: int, end: int) {
    if windows == 0 then
      if carried then admitted <= Min(w.count, cfg.max) - 1 && w.start + cfg.window > earliest else admitted == 0
    else
      && admitted <= (if carried then cfg.max - 1 else 0) + cfg.max * (windows - 1) + Min(w.count, cfg.max)
      && earliest + (if carried then 1 else 0) + (windows - 1) * cfg.window <= w.start < end
  }

  /** A request of the interval keeps the tracking. */
  lemma TracksStep(cfg: Config, w: Window, admitted: int, windows: nat, carried: bool, earliest: int, end: int,
                   stamp: int)
    returns (windows': nat, carried': bool)
    requires cfg.max >= 1 && cfg.window > 0 && w.count >= 1
    requires Tracks(cfg, w, admitted, windows, carried, earliest, end) && earliest <= stamp < end
    ensures var w' := if stamp - w.start >= cfg.window then Window(1, stamp) else Window(w.count + 1, w.start);
            Tracks(cfg, w', if w'.count <= cfg.max then admitted + 1 else admitted, windows', carried', earliest, end)
  {
    windows', carried' := windows, carried;
    if stamp - w.start >= cfg.window {
      windows' := windows + 1;
      assert cfg.max * windows == cfg.max * (windows - 1) + cfg.max;
      assert windows * cfg.window == (windows - 1) * cfg.window + cfg.window;
    } else if windows == 0 && w.count < cfg.max {
      carried' := true;
    }
  }

  lemma {:induction false} WindowsInInterval(cfg: Config, run: seq<Request>, client: string, from: int, length: int,
                                             delay: int)
    returns (windows: nat, carried: bool)
    requires cfg.max >= 1 && cfg.window > 0
    requires Timely(run, delay)
    requires forall q <- run :: q.lockedAt < from + length
    ensures client !in After(cfg, run) ==> AdmittedIn(cfg, run, client, from, length) == 0
    ensures client in After(cfg, run) ==>
              Tracks(cfg, After(cfg, run)[client], AdmittedIn(cfg, run, client, from, length), windows, carried,
                     from - delay, from + length)
  {
    windows, carried := 0, false;
    if run == [] {
    } else {
      var front, q := run[..|run| - 1], run[|run| - 1];
      if q.lockedAt < from {
        NoneBefore(cfg, run, client, from, length);
      } else {
        windows, carried := WindowsInInterval(cfg, front, client, from, length, delay);
        var before := After(cfg, front);
        if q.client == client {
          if client in before {
            CountsArePositive(cfg, front, client);
            windows, carried := TracksStep(cfg, before[client], AdmittedIn(cfg, front, client, from, length), windows,
                                           carried, from - delay, from + length, q.stamp);
          } else {
            windows, carried := 1, false;
          }
        }
      }
    }
  }

  /** Admissions when every window of the interval is opened inside it, */
  function FreshBound(cfg: Config, length: int, delay: int): int
    requires cfg.window > 0
  {
    CeilDiv(length + delay, cfg.window) * cfg.max
  }

  /** and when the first of them was opened before. */
  function CarriedBound(cfg: Config, length: int, delay: int): int
    requires cfg.window > 0
  {
    (CeilDiv(length + delay - 1, cfg.window) + 1) * cfg.max - 1
  }

  function Bound(cfg: Config, length: int, delay: int): int
    requires cfg.window > 0
  {
    if length <= 0 then 0 else Max(FreshBound(cfg, length, delay), CarriedBound(cfg, length, delay))
  }

  /** What the tracking allows. */
  lemma TrackedBound(cfg: Config, w: Window, admitted: int, windows: nat, carried: bool, from: int, length: int,
                     delay: int)
    requires cfg.max >= 1 && cfg.window > 0 && length >= 1 && delay >= 0
    requires Tracks(cfg, w, admitted, windows, carried, from - delay, from + length)
    ensures admitted <= if carried then CarriedBound(cfg, length, delay) else FreshBound(cfg, length, delay)
  {
    var span := length + delay - if carried then 1 else 0;
    MultiplesFit(windows, span, cfg.window);
    ProductGrows(windows, CeilDiv(span, cfg.window), cfg.max);
    assert cfg.max * (windows - 1) == cfg.max * windows - cfg.max;
    assert cfg.max * (CeilDiv(span, cfg.window) + 1) == cfg.max * CeilDiv(span, cfg.window) + cfg.max;
    ProductGrows(0, windows, cfg.max);
  }

  /** Over any interval [from, from + length) of lock times at most
      max(max * ceil((L + D) / W), max * (ceil((L + D - 1) / W) + 1) - 1) requests of one client
      pass, whatever the order of their stamps. */
  lemma {:induction false} SlidingBound(cfg: Config, run: seq<Request>, client: string, from: int, length: int,
                                        delay: int)
    requires cfg.max >= 1 && cfg.window > 0 && delay >= 0
    requires Timely(run, delay)
    ensures AdmittedIn(cfg, run, client, from, length) <= Bound(cfg, length, delay)
  {
    if run == [] {
      BoundsAreNatural(cfg, length, delay);
    } else if length <= 0 || run[|run| - 1].lockedAt >= from + length {
      SlidingBound(cfg, run[..|run| - 1], client, from, length, delay);
    } else {
      BoundsAreNatural(cfg, length, delay);
      var windows, carried := WindowsInInterval(cfg, run, client, from, length, delay);
      if client in After(cfg, run) {
        TrackedBound(cfg, After(cfg, run)[client], AdmittedIn(cfg, run, client, from, length), windows, carried,
                     from, length, delay);
      }
    }
  }

  lemma BoundsAreNatural(cfg: Config, length: int, delay: int)
    requires cfg.max >= 1 && cfg.window > 0 && delay >= 0
    ensures Bound(cfg, length, delay) >= 0
  {
    if length > 0 {
      CeilCovers(length + delay, cfg.window);
      if CeilDiv(length + delay, cfg.window) < 0 {
        ProductGrows(CeilDiv(length + delay, cfg.window), -1, cfg.window);
      }
      ProductGrows(0, CeilDiv(length + delay, cfg.window), cfg.max);
    }
  }

  /** The simpler form: never more than max * (ceil((L + D) / W) + 1) - 1. */
  lemma SimpleBound(cfg: Config, length: int, delay: int)
    requires cfg.max >= 1 && cfg.window > 0 && length >= 1 && delay >= 0
    ensures Bound(cfg, length, delay) <= cfg.max * (CeilDiv(length + delay, cfg.window) + 1) - 1
  {
    var less, more := CeilDiv(length + delay - 1, cfg.window), CeilDiv(length + delay, cfg.window);
    QuotientGrows(length + delay - 1 + cfg.window - 1, length + delay + cfg.window - 1, cfg.window);
    ProductGrows(less + 1, more + 1, cfg.max);
    assert cfg.max * (more + 1) == cfg.max * more + cfg.max;
  }

  /** With max <= 0 nobody is ever let through. */
  lemma {:induction false} NothingPassesWithoutQuota(cfg: Config, run: seq<Request>, client: string, from: int,
                                                     length: int)
    requires cfg.max <= 0
    ensures AdmittedIn(cfg, run, client, from, length) == 0
  {
    if run == [] {
    } else {
      var front, q := run[..|run| - 1], run[|run| - 1];
      NothingPassesWithoutQuota(cfg, front, client, from, length);
      CountsArePositive(cfg, front, q.client);
    }
  }

  // ---- The bound is reached ----

  /** n copies of a request. */
  function Copies(q: Request, n: nat): (run: seq<Request>)
    ensures |run| == n && forall k :: 0 <= k < n ==> run[k] == q
  {
    seq(n, _ => q)
  }

  /** A request that stays within the client's open window and quota passes. */
  lemma OnePasses(cfg: Config, run: seq<Request>, q: Request, from: int, length: int)
    requires q.client in After(cfg, run) && q.stamp - After(cfg, run)[q.client].start < cfg.window
    requires After(cfg, run)[q.client].count + 1 <= cfg.max
    requires from <= q.lockedAt < from + length
    ensures q.client in After(cfg, run + [q])
    ensures After(cfg, run + [q])[q.client] == After(cfg, run)[q.client].(count := After(cfg, run)[q.client].count + 1)
    ensures AdmittedIn(cfg, run + [q], q.client, from, length) == AdmittedIn(cfg, run, q.client, from, length) + 1
  {
  }

  lemma {:induction false} CopiesPass(cfg: Config, run: seq<Request>, q: Request, n: nat, from: int, length: int)
    requires q.client in After(cfg, run) && q.stamp - After(cfg, run)[q.client].start < cfg.window
    requires After(cfg, run)[q.client].count + n <= cfg.max
    requires from <= q.lockedAt < from + length
    ensures q.client in After(cfg, run + Copies(q, n))
    ensures After(cfg, run + Copies(q, n))[q.client]
        == After(cfg, run)[q.client].(count := After(cfg, run)[q.client].count + n)
    ensures AdmittedIn(cfg, run + Copies(q, n), q.client, from, length)
        == AdmittedIn(cfg, run, q.client, from, length) + n
  {
    if n == 0 {
      assert run + Copies(q, n) == run;
    } else {
      CopiesPass(cfg, run, q, n - 1, from, length);
      var front := run + Copies(q, n - 1);
      OnePasses(cfg, front, q, from, length);
      assert run + Copies(q, n) == front + [q];
    }
  }

  /** A request that opens a window passes when the quota is at least one. */
  lemma OpenerPasses(cfg: Config, run: seq<Request>, q: Request, from: int, length: int)
    requires cfg.max >= 1
    requires q.client in After(cfg, run) ==> q.stamp - After(cfg, run)[q.client].start >= cfg.window
    ensures q.client in After(cfg, run + [q]) && After(cfg, run + [q])[q.client] == Window(1, q.stamp)
    ensures AdmittedIn(cfg, run + [q], q.client, from, length)
            == AdmittedIn(cfg, run, q.client, from, length) + if from <= q.lockedAt < from + length then 1 else 0
  {
  }

  /** A request stamped before `from` gets the lock at `from`. */
  function At(from: int, stamp: int): Request {
    Request("c", stamp, Max(from, stamp))
  }

  /** The run, then max requests of one client at one instant, then again a window later, and so
      on, n times. */
  function Volleys(cfg: Config, run: seq<Request>, from: int, stamp: int, n: nat): seq<Request>
    requires cfg.max >= 1
    decreases n
  {
    if n == 0 then run
    else Volleys(cfg, run + Copies(At(from, stamp), cfg.max), from, stamp + cfg.window, n - 1)
  }

  /** The next request of the client opens a window. */
  predicate Opens(cfg: Config, run: seq<Request>, stamp: int) {
    "c" in After(cfg, run) ==> stamp - After(cfg, run)["c"].start >= cfg.window
  }

  /** All n volleys begin before `end`. */
  predicate Fits(window: int, stamp: int, n: nat, end: int)
    decreases n
  {
    n == 0 || (stamp < end && Fits(window, stamp + window, n - 1, end))
  }

  lemma {:induction false} LastFits(window: int, stamp: int, n: nat, end: int)
    requires window > 0 && (n > 0 ==> stamp + (n - 1) * window < end)
    ensures Fits(window, stamp, n, end)
    decreases n
  {
    if n == 0 {
    } else {
      ProductGrows(0, n - 1, window);
      OneMoreProduct(n - 2, window);
      LastFits(window, stamp + window, n - 1, end);
    }
  }

  lemma VolleyFires(cfg: Config, run: seq<Request>, q: Request, from: int, length: int)
    requires cfg.max >= 1 && cfg.window > 0 && q.client == "c" && Opens(cfg, run, q.stamp)
        && from <= q.lockedAt < from + length
    ensures Opens(cfg, run + Copies(q, cfg.max), q.stamp + cfg.window)
    ensures AdmittedIn(cfg, run + Copies(q, cfg.max), "c", from, length)
        == AdmittedIn(cfg, run, "c", from, length) + cfg.max
  {
    OpenerPasses(cfg, run, q, from, length);
    CopiesPass(cfg, run + [q], q, cfg.max - 1, from, length);
    assert run + [q] + Copies(q, cfg.max - 1) == run + Copies(q, cfg.max);
  }

  lemma {:induction false} VolleysPass(cfg: Config, run: seq<Request>, from: int, length: int, stamp: int, n: nat)
    requires cfg.max >= 1 && cfg.window > 0 && length >= 1
    requires Opens(cfg, run, stamp) && Fits(cfg.window, stamp, n, from + length)
    ensures AdmittedIn(cfg, Volleys(cfg, run, from, stamp, n), "c", from, length)
            == AdmittedIn(cfg, run, "c", from, length) + n * cfg.max
    decreases n
  {
    if n == 0 {
    } else {
      VolleyFires(cfg, run, At(from, stamp), from, length);
      VolleysPass(cfg, run + Copies(At(from, stamp), cfg.max), from, length, stamp + cfg.window, n - 1);
      OneMoreProduct(n - 1, cfg.max);
    }
  }

  /** Timely, and no lock so far was taken after `latest`. */
  ghost predicate TimelyUntil(run: seq<Request>, delay: int, latest: int) {
    Timely(run, delay) && forall q <- run :: q.lockedAt <= latest
  }

  lemma MoreIsTimely(run: seq<Request>, delay: int, q: Request, n: nat)
    requires TimelyUntil(run, delay, q.lockedAt) && q.stamp <= q.lockedAt <= q.stamp + delay
    ensures TimelyUntil(run + Copies(q, n), delay, q.lockedAt)
  {
  }

  lemma {:induction false} VolleysAreTimely(cfg: Config, run: seq<Request>, from: int, stamp: int, n: nat, delay: int)
    requires cfg.max >= 1 && cfg.window > 0 && delay >= 0 && from - delay <= stamp
    requires TimelyUntil(run, delay, Max(from, stamp))
    ensures Timely(Volleys(cfg, run, from, stamp, n), delay)
    decreases n
  {
    if n == 0 {
    } else {
      MoreIsTimely(run, delay, At(from, stamp), cfg.max);
      VolleysAreTimely(cfg, run + Copies(At(from, stamp), cfg.max), from, stamp + cfg.window, n - 1, delay);
    }
  }

  /** Every window of the interval is opened inside it. */
  lemma FreshRun(cfg: Config, length: int, delay: int) returns (run: seq<Request>)
    requires cfg.max >= 1 && cfg.window > 0 && length >= 1 && delay >= 0
    ensures Timely(run, delay) && AdmittedIn(cfg, run, "c", 0, length) == FreshBound(cfg, length, delay)
  {
    CeilIsTight(length + delay, cfg.window);
    var n: nat := CeilDiv(length + delay, cfg.window);
    LastFits(cfg.window, -delay, n, length);
    VolleysPass(cfg, [], 0, length, -delay, n);
    VolleysAreTimely(cfg, [], 0, -delay, n, delay);
    run := Volleys(cfg, [], 0, -delay, n);
  }

  lemma CarriedStart(cfg: Config, opener: Request, q: Request, length: int)
    requires cfg.max >= 1 && cfg.window > 0 && length >= 1 && q.lockedAt == 0 && opener.lockedAt < 0
    requires opener.client == q.client == "c" && q.stamp == opener.stamp + cfg.window - 1
    ensures var run := [opener] + Copies(q, cfg.max - 1);
            Opens(cfg, run, q.stamp + 1) && AdmittedIn(cfg, run, "c", 0, length) == cfg.max - 1
  {
    OpenerPasses(cfg, [], opener, 0, length);
    assert [] + [opener] == [opener];
    CopiesPass(cfg, [opener], q, cfg.max - 1, 0, length);
  }

  /** Windows that follow, as soon as they can, one that carried over into the interval. */
  lemma AfterCarriedStart(cfg: Config, start: seq<Request>, length: int, delay: int) returns (run: seq<Request>)
    requires cfg.max >= 1 && cfg.window > 0 && length >= 1 && delay >= 0
    requires Opens(cfg, start, 1 - delay) && TimelyUntil(start, delay, Max(0, 1 - delay))
    requires AdmittedIn(cfg, start, "c", 0, length) == cfg.max - 1
    ensures Timely(run, delay) && AdmittedIn(cfg, run, "c", 0, length) == CarriedBound(cfg, length, delay)
  {
    CeilIsTight(length + delay - 1, cfg.window);
    var n: nat := CeilDiv(length + delay - 1, cfg.window);
    LastFits(cfg.window, 1 - delay, n, length);
    VolleysPass(cfg, start, 0, length, 1 - delay, n);
    VolleysAreTimely(cfg, start, 0, 1 - delay, n, delay);
    OneMoreProduct(n, cfg.max);
    run := Volleys(cfg, start, 0, 1 - delay, n);
  }

  /** A window is opened before the interval, and max - 1 requests use it up at the earliest
      stamp of the interval. */
  lemma CarriedRun(cfg: Config, length: int, delay: int) returns (run: seq<Request>)
    requires cfg.max >= 1 && cfg.window > 0 && length >= 1 && delay >= 0 && cfg.window + delay >= 2
    ensures Timely(run, delay) && AdmittedIn(cfg, run, "c", 0, length) == CarriedBound(cfg, length, delay)
  {
    var opener, q := Request("c", 1 - delay - cfg.window, 1 - delay - cfg.window), At(0, -delay);
    CarriedStart(cfg, opener, q, length);
    assert TimelyUntil([opener], delay, q.lockedAt);
    MoreIsTimely([opener], delay, q, cfg.max - 1);
    run := AfterCarriedStart(cfg, [opener] + Copies(q, cfg.max - 1), length, delay);
  }

  /** A window of one instant cannot reach into the interval from before. */
  lemma InstantWindow(cfg: Config, length: int)
    requires cfg.max >= 1 && cfg.window == 1
    ensures CarriedBound(cfg, length, 0) < FreshBound(cfg, length, 0)
  {
  }

  /** The bound is the maximum: for every length and delay some run reaches it. */
  lemma BoundIsReached(cfg: Config, length: int, delay: int) returns (run: seq<Request>)
    requires cfg.max >= 1 && cfg.window > 0 && delay >= 0
    ensures Timely(run, delay) && AdmittedIn(cfg, run, "c", 0, length) == Bound(cfg, length, delay)
  {
    if cfg.window == 1 && delay == 0 {
      InstantWindow(cfg, length);
    }
    if length <= 0 {
      run := [];
    } else if FreshBound(cfg, length, delay) >= CarriedBound(cfg, length, delay) {
      run := FreshRun(cfg, length, delay);
    } else {
      run := CarriedRun(cfg, length, delay);
    }
  }

  /** In particular an interval as long as the window can see 2 * max - 1 admissions, even with
      stamps read under the lock: 119 for the global limit of 60 a minute. */
  lemma WindowBound(cfg: Config)
    requires cfg.max >= 1 && cfg.window >= 2
    ensures Bound(cfg, cfg.window, 0) == 2 * cfg.max - 1
  {
    var w := cfg.window;
    assert w + w - 1 == 1 * w + (w - 1) && w - 1 + w - 1 == 1 * w + (w - 2);
    Quotient(w + w - 1, w, 1, w - 1);
    Quotient(w - 1 + w - 1, w, 1, w - 2);
  }

  // ---- Successive windows ----

  /** A client's window starts no earlier than any it had before. */
  lemma {:induction false} StartsGrow(cfg: Config, run: seq<Request>, i: nat, k: nat)
    requires cfg.window > 0 && i < k <= |run| && OpensWindow(cfg, run, i)
    ensures run[i].client in After(cfg, run[..k]) && After(cfg, run[..k])[run[i].client].start >= run[i].stamp
    decreases k
  {
    assert run[..k][..k - 1] == run[..k - 1];
    if k == i + 1 {
    } else {
      StartsGrow(cfg, run, i, k - 1);
    }
  }

  /** Windows that a client opens in a run start at least a window's length apart, even if their
      requests' stamps are out of order with others. */
  lemma OpeningsAreApart(cfg: Config, run: seq<Request>, i: nat, k: nat)
    requires cfg.window > 0 && i < k < |run| && run[i].client == run[k].client
    requires OpensWindow(cfg, run, i) && OpensWindow(cfg, run, k)
    ensures run[k].stamp - run[i].stamp >= cfg.window
  {
    StartsGrow(cfg, run, i, k);
  }

  // ---- Clients do not influence each other ----

  /** The requests of one client. */
  function Only(run: seq<Request>, client: string): seq<Request> {
    if run == [] then []
    else
      var q := run[|run| - 1];
      Only(run[..|run| - 1], client) + if q.client == client then [q] else []
  }

  /** A client's window and admissions are those of its own requests alone. */
  lemma {:induction false} ClientsAreIndependent(cfg: Config, run: seq<Request>, client: string, from: int, length: int)
    ensures client in After(cfg, run) <==> client in After(cfg, Only(run, client))
    ensures client in After(cfg, run) ==> After(cfg, run)[client] == After(cfg, Only(run, client))[client]
    ensures AdmittedIn(cfg, run, client, from, length) == AdmittedIn(cfg, Only(run, client), client, from, length)
  {
    if run == [] {
    } else {
      var front, q := run[..|run| - 1], run[|run| - 1];
      ClientsAreIndependent(cfg, front, client, from, length);
      if q.client == client {
        var mine := Only(run, client);
        assert mine[..|mine| - 1] == Only(front, client) && mine[|mine| - 1] == q;
      } else {
        assert Only(run, client) == Only(front, client);
      }
    }
  }

  // ---- Retry-After ----

  /** What is left of the client's window when the header is written. */
  function Left(cfg: Config, run: seq<Request>, client: string, clock: int): int
    requires client in After(cfg, run)
  {
    After(cfg, run)[client].start + cfg.window - clock
  }

  /** The header covers the rest of the window exactly when that was at most one second or a
      whole number of seconds, because it is truncated to whole seconds. */
  lemma HeaderCoversWindowIff(cfg: Config, start: int, clock: int)
    ensures var left, back := start + cfg.window - clock, clock + RetryAfter(cfg, start, clock) * SECOND;
            back - start >= cfg.window <==> left <= SECOND || left % SECOND == 0
  {
  }

  /** A client that was just rejected and comes back exactly when the header says is admitted
      if and only if at most one second, or a whole number of seconds, was left. */
  lemma WaitingRetryAfter(cfg: Config, run: seq<Request>, clock: int, again: Request)
    requires cfg.max >= 1 && run != [] && !Admitted(cfg, run, |run| - 1) && again.client == run[|run| - 1].client
    requires again.client in After(cfg, run)
    requires again.stamp == clock + RetryAfter(cfg, After(cfg, run)[again.client].start, clock) * SECOND
    ensures Admitted(cfg, run + [again], |run|)
            <==> Left(cfg, run, again.client, clock) <= SECOND || Left(cfg, run, again.client, clock) % SECOND == 0
  {
    assert (run + [again])[..|run|] == run;
    HeaderCoversWindowIff(cfg, After(cfg, run)[again.client].start, clock);
  }

  /** With 1.5 s left the header says one second, and the client is rejected again. */
  lemma EarlyRetryIsRejected() returns (cfg: Config, run: seq<Request>, clock: int)
    ensures Timely(run, 0) && |run| == 3
    ensures "c" in After(cfg, run[..2]) && Left(cfg, run[..2], "c", clock) == 3 * SECOND / 2
    ensures run[2].client == "c" && run[2].stamp
        == clock + RetryAfter(cfg, After(cfg, run[..2])["c"].start, clock) * SECOND
    ensures Admitted(cfg, run, 0) && !Admitted(cfg, run, 1) && !Admitted(cfg, run, 2)
  {
    var half := SECOND / 2;
    cfg, clock := Config(1, 4 * half), half;
    var first, second, third := Request("c", 0, 0), Request("c", half, half), Request("c", 3 * half, 3 * half);
    run := [first, second, third];
    assert run[..1] == [] + [first] && run[..2] == [first] + [second];
    OpenerPasses(cfg, [], first, 0, 1);
    assert [first, second][..1] == [first];
    assert After(cfg, [first, second])["c"] == Window(2, 0);
    assert Left(cfg, [first, second], "c", clock) == 3 * half;
    assert !Admitted(cfg, [first, second], 1);
    WaitingRetryAfter(cfg, [first, second], clock, third);
    assert [first, second] + [third] == run;
  }
}
