/** The fixed-window rate limiter (rateLimit.ts): one counter per scope and subject, times in milliseconds. */
module RateLimit {
  import opened Common

  datatype Window = Window(count: nat, startedAt: int)
  datatype Verdict = Verdict(allowed: bool, retryAfterSeconds: int)

  // Math.ceil(ms / 1000)
  function CeilSeconds(ms: int): int {
    -((-ms) / 1000)
  }

  function NextWindow(current: Option<Window>, windowSeconds: int, now: int): Window {
    if current == None || now - current.value.startedAt >= windowSeconds * 1000 then Window(1, now)
    else Window(current.value.count + 1, current.value.startedAt)
  }

  function Judge(w: Window, limit: int, windowSeconds: int, now: int): Verdict {
    Verdict(w.count <= limit, Max(1, CeilSeconds(w.startedAt + windowSeconds * 1000 - now)))
  }

  class Limiter {
    var memory: map<string, Window>

    constructor ()
      ensures memory == map[]
    {
      memory := map[];
    }

    method Consume(key: string, limit: int, windowSeconds: int, now: int) returns (v: Verdict)
      modifies this
      ensures var w := NextWindow(Lookup(old(memory), key), windowSeconds, now);
              memory == old(memory)[key := w] && v == Judge(w, limit, windowSeconds, now)
    {
      var expired := key !in memory || now - memory[key].startedAt >= windowSeconds * 1000;
      var next := if expired then Window(1, now) else memory[key].(count := memory[key].count + 1);
      memory := memory[key := next];
      var remaining := next.startedAt + windowSeconds * 1000 - now;
      return Verdict(next.count <= limit, Max(1, CeilSeconds(remaining)));
    }
  }

  // ----- one subject's requests, over any run

  ghost predicate Nondecreasing(times: seq<int>) {
    forall i, j :: 0 <= i < j < |times| ==> times[i] <= times[j]
  }

  // The subject's counter after its first n requests.
  function Counter(times: seq<int>, windowSeconds: int, n: nat): Option<Window>
    requires n <= |times|
  {
    if n == 0 then None else Some(NextWindow(Counter(times, windowSeconds, n - 1), windowSeconds, times[n - 1]))
  }

  function Allowed(times: seq<int>, limit: int, windowSeconds: int, i: nat): bool
    requires i < |times|
  {
    Judge(Counter(times, windowSeconds, i + 1).value, limit, windowSeconds, times[i]).allowed
  }

  // Windows without counting: one begins at the first request, and another at each request that comes a
  // window's length or more after the beginning of the one before.
  function WindowOf(times: seq<int>, windowSeconds: int, i: nat): int
    requires i < |times|
  {
    if i == 0 || times[i] - WindowOf(times, windowSeconds, i - 1) >= windowSeconds * 1000 then times[i]
    else WindowOf(times, windowSeconds, i - 1)
  }

  // How many of the first n requests lie in the window that began at start.
  function CountIn(times: seq<int>, windowSeconds: int, start: int, n: nat): nat
    requires n <= |times|
  {
    if n == 0 then 0
    else CountIn(times, windowSeconds, start, n - 1) + if WindowOf(times, windowSeconds, n - 1) == start then 1 else 0
  }

  lemma {:induction false} NoneAfter(times: seq<int>, windowSeconds: int, start: int, n: nat)
    requires n <= |times| && Nondecreasing(times) && windowSeconds > 0
    requires n == 0 || WindowOf(times, windowSeconds, n - 1) < start
    ensures CountIn(times, windowSeconds, start, n) == 0
  {
    if n > 1 {
      WindowsBegin(times, windowSeconds, n - 2);
      NoneAfter(times, windowSeconds, start, n - 1);
    }
  }

  lemma {:induction false} WindowsBegin(times: seq<int>, windowSeconds: int, i: nat)
    requires i < |times| && Nondecreasing(times) && windowSeconds > 0
    ensures WindowOf(times, windowSeconds, i) <= times[i]
    ensures i + 1 < |times| ==> WindowOf(times, windowSeconds, i) <= WindowOf(times, windowSeconds, i + 1)
  {
    if i > 0 {
      WindowsBegin(times, windowSeconds, i - 1);
    }
  }

  lemma {:induction false} CounterCounts(times: seq<int>, windowSeconds: int, i: nat)
    requires i < |times| && Nondecreasing(times) && windowSeconds > 0
    ensures var start := WindowOf(times, windowSeconds, i);
            Counter(times, windowSeconds, i + 1) == Some(Window(CountIn(times, windowSeconds, start, i + 1), start))
  {
    if i > 0 {
      CounterCounts(times, windowSeconds, i - 1);
      if WindowOf(times, windowSeconds, i) != WindowOf(times, windowSeconds, i - 1) {
        NoneAfter(times, windowSeconds, times[i], i);
      }
    }
  }

  // Of each window exactly the first limit requests are allowed.
  lemma FirstOfEachWindow(times: seq<int>, limit: int, windowSeconds: int, i: nat)
    requires i < |times| && Nondecreasing(times) && windowSeconds > 0
    ensures Allowed(times, limit, windowSeconds, i) <==>
            CountIn(times, windowSeconds, WindowOf(times, windowSeconds, i), i + 1) <= limit
  {
    CounterCounts(times, windowSeconds, i);
  }

  // The allowed requests among the first n that came in [a, a + one window).
  function AllowedWithin(times: seq<int>, limit: int, windowSeconds: int, a: int, n: nat): nat
    requires n <= |times|
  {
    if n == 0 then 0
    else
      AllowedWithin(times, limit, windowSeconds, a, n - 1)
      + if a <= times[n - 1] < a + windowSeconds * 1000 && Allowed(times, limit, windowSeconds, n - 1) then 1 else 0
  }

  lemma {:induction false} BurstStep(times: seq<int>, limit: nat, windowSeconds: nat, a: int, n: nat)
    requires n <= |times| && Nondecreasing(times) && limit >= 1
    ensures var used := AllowedWithin(times, limit, windowSeconds, a, n);
            var counter := Counter(times, windowSeconds, n);
      if counter == None then used == 0
      else
        && counter.value.count >= 1 && counter.value.startedAt <= times[n - 1]
        && (times[n - 1] < a ==> used == 0)
        && (counter.value.startedAt < a ==> used <= Min(counter.value.count, limit) - 1)
        && (a <= counter.value.startedAt < a + windowSeconds * 1000 ==> used <= limit - 1 + Min(counter.value.count, limit))
        && used <= 2 * limit - 1
  {
    if n > 0 {
      BurstStep(times, limit, windowSeconds, a, n - 1);
      if n > 1 {
        assert times[n - 2] <= times[n - 1];
      }
    }
  }

  // Wherever one looks, a stretch of one window's length holds fewer than twice the limit: requests in it
  // belong to at most two windows, and the one that opened the first of two came before it.
  lemma LessThanTwiceTheLimit(times: seq<int>, limit: nat, windowSeconds: nat, a: int)
    requires Nondecreasing(times) && limit >= 1
    ensures AllowedWithin(times, limit, windowSeconds, a, |times|) <= 2 * limit - 1
  {
    BurstStep(times, limit, windowSeconds, a, |times|);
  }

  // One request to open a window, the rest of its allowance just before it ends, the next one's just after.
  function Burst(limit: nat, windowSeconds: nat): (times: seq<int>)
    ensures |times| == 2 * limit
  {
    var w := windowSeconds * 1000;
    seq(2 * limit, i => if i == 0 then 0 else if i < limit then w - 1 else w)
  }

  lemma {:induction false} BurstCounts(limit: nat, windowSeconds: nat, n: nat)
    requires limit >= 1 && windowSeconds >= 1 && 1 <= n <= 2 * limit
    ensures var times, w := Burst(limit, windowSeconds), windowSeconds * 1000;
      && Counter(times, windowSeconds, n) == Some(if n <= limit then Window(n, 0) else Window(n - limit, w))
      && AllowedWithin(times, limit, windowSeconds, 1, n) == n - 1
  {
    if n > 1 {
      BurstCounts(limit, windowSeconds, n - 1);
    } else {
      assert Counter(Burst(limit, windowSeconds), windowSeconds, 0) == None;
      assert AllowedWithin(Burst(limit, windowSeconds), limit, windowSeconds, 1, 0) == 0;
    }
  }

  // For every limit and window length the bound is reached.
  lemma TheBoundIsReached(limit: nat, windowSeconds: nat)
    requires limit >= 1 && windowSeconds >= 1
    ensures Nondecreasing(Burst(limit, windowSeconds))
    ensures AllowedWithin(Burst(limit, windowSeconds), limit, windowSeconds, 1, 2 * limit) == 2 * limit - 1
  {
    BurstCounts(limit, windowSeconds, 2 * limit);
  }

  // After any request, a subject that waits the seconds it was told is allowed again; and one that was
  // told to wait more than a second and comes a second early is still in the same window, so still refused.
  lemma RetryAfterIsExact(current: Option<Window>, limit: int, windowSeconds: int, now: int, later: int)
    requires limit >= 1
    ensures var w := NextWindow(current, windowSeconds, now);
            var v := Judge(w, limit, windowSeconds, now);
            var next := Judge(NextWindow(Some(w), windowSeconds, later), limit, windowSeconds, later);
      && (later >= now + v.retryAfterSeconds * 1000 ==> next.allowed)
      && (!v.allowed && v.retryAfterSeconds > 1 && later <= now + (v.retryAfterSeconds - 1) * 1000 ==> !next.allowed)
  {
  }
}
