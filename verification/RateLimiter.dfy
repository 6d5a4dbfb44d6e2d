/** The webhook's fixed-window rate limiter, over a monotone clock. */
module RateLimiter {

  /** Times are ticks of the process clock, in nanoseconds. */
  const WINDOW: nat := 60_000_000_000
  const MAX_REQUESTS: nat := 60

  /** Each request reads the clock once to test the window and, if it is over, once more to restart it. */
  datatype Request = Request(checked: nat, stamped: nat)

  datatype Limiter = Limiter(start: nat, count: nat)

  predicate Expired(l: Limiter, r: Request) {
    r.checked > l.start + WINDOW
  }

  /** The counter a request finds, once an expired window is restarted. */
  function Entered(l: Limiter, r: Request): Limiter {
    if Expired(l, r) then Limiter(r.stamped, 0) else l
  }

  predicate Passes(l: Limiter, r: Request) {
    Entered(l, r).count < MAX_REQUESTS
  }

  function Next(l: Limiter, r: Request): Limiter {
    var e := Entered(l, r);
    e.(count := e.count + 1)
  }

  class WebhookLimiter {
    var counter: nat
    var windowStart: nat

    function View(): Limiter
      reads this
    {
      Limiter(windowStart, counter)
    }

    constructor (now: nat)
      ensures View() == Limiter(now, 0)
    {
      counter, windowStart := 0, now;
    }

    method Admit(r: Request) returns (ok: bool)
      modifies this
      ensures ok == Passes(old(View()), r)
      ensures View() == Next(old(View()), r)
      ensures var over := r.checked > old(windowStart) + 60_000_000_000;
              && windowStart == (if over then r.stamped else old(windowStart))
              && counter == (if over then 1 else old(counter) + 1)
              && (ok <==> over || old(counter) < 60)
    {
      if r.checked > windowStart + WINDOW {
        windowStart := r.stamped;
        counter := 0;
      }
      var count := counter;
      counter := counter + 1;
      ok := count < MAX_REQUESTS;
    }
  }

  // ── Traces ──────────────────────────────────────────────────────

  /** Clock reads happen in order, within a request and from one request to the next. */
  ghost predicate Monotone(l: Limiter, trace: seq<Request>) {
    && (forall i :: 0 <= i < |trace| ==> trace[i].checked <= trace[i].stamped)
    && (forall i, j :: 0 <= i < j < |trace| ==> trace[i].stamped <= trace[j].checked)
    && (forall i :: 0 <= i < |trace| ==> l.start <= trace[i].checked)
  }

  /** The limiter before request `i`. */
  function At(l: Limiter, trace: seq<Request>, i: nat): Limiter
    requires i <= |trace|
  {
    if i == 0 then l else Next(At(l, trace, i - 1), trace[i - 1])
  }

  predicate PassesAt(l: Limiter, trace: seq<Request>, i: nat)
    requires i < |trace|
  {
    Passes(At(l, trace, i), trace[i])
  }

  predicate ResetsAt(l: Limiter, trace: seq<Request>, i: nat)
    requires i < |trace|
  {
    Expired(At(l, trace, i), trace[i])
  }

  /** How many of the requests `lo..hi` pass. */
  function Passed(l: Limiter, trace: seq<Request>, lo: nat, hi: nat): nat
    requires lo <= hi <= |trace|
    decreases hi - lo
  {
    if lo == hi then 0
    else Passed(l, trace, lo, hi - 1) + if PassesAt(l, trace, hi - 1) then 1 else 0
  }

  /** Requests `lo..hi` share one window: only the first of them may have started it. */
  ghost predicate OneWindow(l: Limiter, trace: seq<Request>, lo: nat, hi: nat)
    requires lo <= hi <= |trace|
  {
    forall i :: lo < i < hi ==> !ResetsAt(l, trace, i)
  }

  function Min(a: nat, b: nat): nat { if a <= b then a else b }

  /** How many more requests the window in force at request `lo` lets pass. */
  function Room(l: Limiter, trace: seq<Request>, lo: nat): nat
    requires lo < |trace|
  {
    var count := Entered(At(l, trace, lo), trace[lo]).count;
    if count < 60 then 60 - count else 0
  }

  /** Within a window every request is counted, and as many pass as there was room for. */
  lemma {:induction false} WindowCount(l: Limiter, trace: seq<Request>, lo: nat, hi: nat)
    requires lo < hi <= |trace| && OneWindow(l, trace, lo, hi)
    ensures At(l, trace, hi).count == Entered(At(l, trace, lo), trace[lo]).count + hi - lo
    ensures Passed(l, trace, lo, hi) == Min(hi - lo, Room(l, trace, lo))
    decreases hi - lo
  {
    if lo + 1 < hi {
      WindowCount(l, trace, lo, hi - 1);
      assert !ResetsAt(l, trace, hi - 1);
    }
  }

  lemma WindowBound(l: Limiter, trace: seq<Request>, lo: nat, hi: nat)
    requires lo <= hi <= |trace| && OneWindow(l, trace, lo, hi)
    ensures Passed(l, trace, lo, hi) <= 60
  {
    if lo < hi {
      WindowCount(l, trace, lo, hi);
    }
  }

  lemma {:induction false} PassedSplit(l: Limiter, trace: seq<Request>, lo: nat, mid: nat, hi: nat)
    requires lo <= mid <= hi <= |trace|
    ensures Passed(l, trace, lo, hi) == Passed(l, trace, lo, mid) + Passed(l, trace, mid, hi)
    decreases hi - mid
  {
    if mid < hi {
      PassedSplit(l, trace, lo, mid, hi - 1);
    }
  }

  /** The window in force was never restarted before the last restart that happened. */
  lemma {:induction false} StartAfterReset(l: Limiter, trace: seq<Request>, r: nat, i: nat)
    requires Monotone(l, trace) && r < i <= |trace| && ResetsAt(l, trace, r)
    ensures At(l, trace, i).start >= trace[r].stamped
    decreases i
  {
    if r + 1 < i {
      StartAfterReset(l, trace, r, i - 1);
    }
  }

  /** The first restart strictly after `lo`, or `hi`. */
  function FirstReset(l: Limiter, trace: seq<Request>, lo: nat, hi: nat): (r: nat)
    requires lo < hi <= |trace|
    ensures lo < r <= hi && OneWindow(l, trace, lo, r)
    ensures r < hi ==> ResetsAt(l, trace, r)
    decreases hi - lo
  {
    if lo + 1 == hi then hi
    else
      var r := FirstReset(l, trace, lo, hi - 1);
      if r < hi - 1 then r
      else if ResetsAt(l, trace, hi - 1) then hi - 1
      else hi
  }

  /**
   * What requests `lo..hi` get through when a restart at `r` divides them: the room left in the
   * window they begin in, and after the restart a full one.
   */
  function Quota(l: Limiter, trace: seq<Request>, lo: nat, r: nat, hi: nat): nat
    requires lo < r <= hi <= |trace|
  {
    Min(r - lo, Room(l, trace, lo)) + Min(hi - r, 60)
  }

  /** Requests within 60 seconds of each other meet one restart at most. */
  lemma SpanCount(l: Limiter, trace: seq<Request>, lo: nat, hi: nat)
    requires Monotone(l, trace) && lo < hi <= |trace|
    requires trace[hi - 1].checked <= trace[lo].checked + WINDOW
    ensures Passed(l, trace, lo, hi) == Quota(l, trace, lo, FirstReset(l, trace, lo, hi), hi)
  {
    var r := FirstReset(l, trace, lo, hi);
    WindowCount(l, trace, lo, r);
    PassedSplit(l, trace, lo, r, hi);
    if r < hi {
      NoSecondReset(l, trace, r, hi);
      WindowCount(l, trace, r, hi);
    }
  }

  /** After a restart there is no other within the next 60 seconds. */
  lemma NoSecondReset(l: Limiter, trace: seq<Request>, r: nat, hi: nat)
    requires Monotone(l, trace) && r < hi <= |trace| && ResetsAt(l, trace, r)
    requires trace[hi - 1].checked <= trace[r].checked + WINDOW
    ensures OneWindow(l, trace, r, hi)
  {
    forall i | r < i < hi ensures !ResetsAt(l, trace, i) {
      StartAfterReset(l, trace, r, i);
    }
  }

  predicate Within(r: Request, a: nat) {
    a <= r.checked <= a + 60_000_000_000
  }

  /** How many of the first `n` requests pass and fall in the closed interval that begins at `a`. */
  function PassedWithin(l: Limiter, trace: seq<Request>, a: nat, n: nat): nat
    requires n <= |trace|
  {
    if n == 0 then 0
    else PassedWithin(l, trace, a, n - 1) + if Within(trace[n - 1], a) && PassesAt(l, trace, n - 1) then 1 else 0
  }

  /** The requests of an interval are consecutive. */
  lemma {:induction false} WithinIsSpan(l: Limiter, trace: seq<Request>, a: nat, n: nat) returns (lo: nat, hi: nat)
    requires Monotone(l, trace) && n <= |trace|
    ensures lo <= hi <= n && PassedWithin(l, trace, a, n) == Passed(l, trace, lo, hi)
    ensures forall i :: 0 <= i < n ==> (Within(trace[i], a) <==> lo <= i < hi)
    ensures lo == hi == n || (lo < hi && Within(trace[lo], a)) || trace[n - 1].checked > a + WINDOW
  {
    if n == 0 {
      lo, hi := 0, 0;
    } else {
      lo, hi := WithinIsSpan(l, trace, a, n - 1);
      if Within(trace[n - 1], a) {
        hi := n;
      } else if trace[n - 1].checked < a {
        lo, hi := n, n;
      }
    }
  }

  /**
   * Exactly how many requests pass in the closed interval of 60 seconds that begins at `a`: its
   * requests are `lo..hi`, and `r` is the first restart after `lo`, or `hi`. So the interval stays
   * at the described rate iff the room left at its start and the restarted window allow it.
   */
  lemma IntervalStaysAtRateIff(l: Limiter, trace: seq<Request>, a: nat) returns (lo: nat, r: nat, hi: nat)
    requires Monotone(l, trace)
    ensures lo <= r <= hi <= |trace| && forall i :: 0 <= i < |trace| ==> (Within(trace[i], a) <==> lo <= i < hi)
    ensures lo < hi ==> r == FirstReset(l, trace, lo, hi)
    ensures PassedWithin(l, trace, a, |trace|) == if lo == hi then 0 else Quota(l, trace, lo, r, hi)
    ensures PassedWithin(l, trace, a, |trace|) <= 60
            <==> lo == hi || r == hi || Min(r - lo, Room(l, trace, lo)) + Min(hi - r, 60) <= 60
  {
    lo, hi := WithinIsSpan(l, trace, a, |trace|);
    r := hi;
    if lo < hi {
      r := FirstReset(l, trace, lo, hi);
      SpanCount(l, trace, lo, hi);
    }
  }

  /** At most 120 requests pass in any closed interval of 60 seconds, for every trace and every interval. */
  lemma IntervalBound(l: Limiter, trace: seq<Request>, a: nat)
    requires Monotone(l, trace)
    ensures PassedWithin(l, trace, a, |trace|) <= 120
  {
    var lo, r, hi := IntervalStaysAtRateIff(l, trace, a);
  }

  // ── The bound is reached ────────────────────────────────────────

  function Burst(n: nat, t: nat): seq<Request> {
    seq(n, _ => Request(t, t))
  }

  /** A burst inside the window passes as long as the counter lasts. */
  lemma {:induction false} BurstPasses(l: Limiter, trace: seq<Request>, lo: nat, n: nat, t: nat)
    requires lo + n <= |trace| && n <= 60
    requires forall i :: lo <= i < lo + n ==> trace[i] == Request(t, t)
    requires n > 0 ==> Entered(At(l, trace, lo), trace[lo]).count == 0
                       && t <= Entered(At(l, trace, lo), trace[lo]).start + WINDOW
    ensures Passed(l, trace, lo, lo + n) == n
    ensures n > 0 ==> At(l, trace, lo + n) == Limiter(Entered(At(l, trace, lo), trace[lo]).start, n)
    decreases n
  {
    if n > 0 {
      BurstPasses(l, trace, lo, n - 1, t);
    }
  }

  lemma TwoBurstsPass(l: Limiter, trace: seq<Request>, t: nat)
    requires l.count == 0 && t == l.start + 60_000_000_000 && trace == Burst(60, t) + Burst(60, t + 1)
    ensures Passed(l, trace, 0, 120) == 120
  {
    BurstPasses(l, trace, 0, 60, t);
    BurstPasses(l, trace, 60, 60, t + 1);
    PassedSplit(l, trace, 0, 60, 120);
  }

  /** 60 requests as a window ends and 60 right after it: twice the documented rate within one interval. */
  lemma IntervalBoundIsReached(l: Limiter)
    requires l.count == 0
    ensures var t := l.start + 60_000_000_000;
            var trace := Burst(60, t) + Burst(60, t + 1);
            Monotone(l, trace) && PassedWithin(l, trace, t, |trace|) == 120
  {
    var t := l.start + 60_000_000_000;
    var trace := Burst(60, t) + Burst(60, t + 1);
    TwoBurstsPass(l, trace, t);
    AllWithin(l, trace, t, |trace|);
  }

  lemma {:induction false} AllWithin(l: Limiter, trace: seq<Request>, a: nat, n: nat)
    requires n <= |trace| && forall i :: 0 <= i < |trace| ==> Within(trace[i], a)
    ensures PassedWithin(l, trace, a, n) == Passed(l, trace, 0, n)
  {
    if n > 0 {
      AllWithin(l, trace, a, n - 1);
    }
  }
}

