/** The client-side sliding-window rate limiter: recent admission instants
    (oldest first), a backoff-until instant and a count of consecutive 429
    responses. Time is the process's monotonic clock in integer ticks, passed
    in as `now`. */
module RateLimiter {
  import opened Base
  import opened Text
  import opened Errors

  const DefaultMaxRequests: int := 10000
  const DefaultWindow: int := 600
  /** The ceiling of the exponential backoff delay. */
  const BackoffCap: int := 60

  datatype Limiter = Limiter(
    maxRequests: int,
    window: int,
    timestamps: seq<int>,
    backoffUntil: int,
    backoffCount: nat)

  /** `RateLimiter(max_requests, window)`: nothing admitted yet, no backoff
      pending, and the invariant holds from the start. */
  function NewLimiter(maxRequests: int, window: int): (l: Limiter)
    ensures Valid(l)
    ensures l.timestamps == [] && l.backoffUntil == 0 && l.backoffCount == 0
    ensures l.maxRequests == maxRequests && l.window == window
  {
    Limiter(maxRequests, window, [], 0, 0)
  }

  ghost predicate Sorted(s: seq<int>) {
    forall i, j :: 0 <= i < j < |s| ==> s[i] <= s[j]
  }

  /** The limiter's invariant: admissions in order, never more than the ceiling. */
  ghost predicate Valid(l: Limiter) {
    Sorted(l.timestamps) && (|l.timestamps| == 0 || |l.timestamps| <= l.maxRequests)
  }

  /** No recorded admission lies after `now`: the clock never runs backwards. */
  ghost predicate NotAfter(ts: seq<int>, now: int) {
    forall i :: 0 <= i < |ts| ==> ts[i] <= now
  }

  /** Reference definition of the window's content: the admissions at or after `cutoff`. */
  function Recent(ts: seq<int>, cutoff: int): seq<int>
    decreases |ts|
  {
    if |ts| == 0 then []
    else (if ts[0] >= cutoff then [ts[0]] else []) + Recent(ts[1..], cutoff)
  }

  /** The pruning loop: pops admissions older than `cutoff` from the front and
      stops at the first one that is not. What remains is a suffix of the
      input; everything removed was older than the cutoff; and on a sorted
      sequence the suffix is sorted and lies wholly inside the window. */
  function DropExpired(ts: seq<int>, cutoff: int): (r: seq<int>)
    ensures |r| <= |ts| && r == ts[|ts| - |r|..]
    ensures forall i :: 0 <= i < |ts| - |r| ==> ts[i] < cutoff
    ensures |r| > 0 ==> r[0] >= cutoff
    decreases |ts|
  {
    if |ts| > 0 && ts[0] < cutoff then DropExpired(ts[1..], cutoff) else ts
  }

  /** On a sorted sequence the pruned window is sorted and lies wholly at or
      after the cutoff. */
  lemma {:induction false} DropExpiredSorted(ts: seq<int>, cutoff: int)
    requires Sorted(ts)
    ensures var r := DropExpired(ts, cutoff);
      Sorted(r) && forall i :: 0 <= i < |r| ==> r[i] >= cutoff
    decreases |ts|
  {
    if |ts| > 0 && ts[0] < cutoff {
      DropExpiredSorted(ts[1..], cutoff);
    }
  }

  lemma {:induction false} RecentKeepsAll(ts: seq<int>, cutoff: int)
    requires forall i :: 0 <= i < |ts| ==> ts[i] >= cutoff
    ensures Recent(ts, cutoff) == ts
    decreases |ts|
  {
    if |ts| > 0 {
      RecentKeepsAll(ts[1..], cutoff);
      assert ts == [ts[0]] + ts[1..];
    }
  }

  /** On a sorted sequence, popping from the front keeps exactly the
      admissions inside the window. */
  lemma {:induction false} DropExpiredIsRecent(ts: seq<int>, cutoff: int)
    requires Sorted(ts)
    ensures DropExpired(ts, cutoff) == Recent(ts, cutoff)
    decreases |ts|
  {
    if |ts| > 0 {
      if ts[0] < cutoff {
        DropExpiredIsRecent(ts[1..], cutoff);
      } else {
        RecentKeepsAll(ts[1..], cutoff);
        assert ts == [ts[0]] + ts[1..];
      }
    }
  }

  lemma PruneSorted(ts: seq<int>, cutoff: int)
    ensures Sorted(ts) ==> Sorted(DropExpired(ts, cutoff)) && DropExpired(ts, cutoff) == Recent(ts, cutoff)
  {
    if Sorted(ts) {
      DropExpiredSorted(ts, cutoff);
      DropExpiredIsRecent(ts, cutoff);
    }
  }

  /** `_clean_window`: prune against `now - window`. Only the admissions
      change, and only by popping from the front. */
  function CleanWindow(l: Limiter, now: int): (r: Limiter)
    ensures r.maxRequests == l.maxRequests && r.window == l.window
    ensures r.backoffUntil == l.backoffUntil && r.backoffCount == l.backoffCount
    ensures |r.timestamps| <= |l.timestamps| && r.timestamps == l.timestamps[|l.timestamps| - |r.timestamps|..]
  {
    l.(timestamps := DropExpired(l.timestamps, now - l.window))
  }

  /** Pruning a valid limiter leaves a valid one. */
  lemma CleanWindowValid(l: Limiter, now: int)
    requires Valid(l)
    ensures Valid(CleanWindow(l, now))
  {
    var kept := CleanWindow(l, now).timestamps;
    DropExpiredSorted(l.timestamps, now - l.window);
    assert Sorted(kept);
  }

  function CeilingMessage(l: Limiter): string {
    "Rate limit exceeded: " + IntToString(l.maxRequests) + " requests per "
    + IntToString(l.window) + "s window"
  }

  /** The result of `acquire`: the limiter afterwards, how long the caller
      slept first, and either the instant recorded or the `RateLimitError`. */
  datatype Admission = Admission(limiter: Limiter, waited: int, admitted: Result<int, GraphError>)

  /** The instant a caller of `acquire` wakes: the end of an active backoff, else `now`. */
  function WakeTime(l: Limiter, now: int): int {
    if now < l.backoffUntil then l.backoffUntil else now
  }

  /** `acquire`: sleep out an active backoff, prune the window at the instant
      the caller wakes, refuse when the pruned window is at the ceiling, and
      otherwise record that instant. */
  function Acquire(l: Limiter, now: int): (a: Admission)
    ensures a.waited >= 0
    ensures now < l.backoffUntil ==> a.waited == l.backoffUntil - now
    ensures now >= l.backoffUntil ==> a.waited == 0
    ensures a.limiter.maxRequests == l.maxRequests && a.limiter.window == l.window
    ensures a.limiter.backoffUntil == l.backoffUntil && a.limiter.backoffCount == l.backoffCount
    ensures a.admitted.Err? <==> |CleanWindow(l, WakeTime(l, now)).timestamps| >= l.maxRequests
    ensures a.admitted.Err? ==>
      a.limiter == CleanWindow(l, WakeTime(l, now)) && a.admitted.error.RateLimitError?
    ensures a.admitted.Ok? ==>
      a.admitted.value == WakeTime(l, now) &&
      a.limiter.timestamps == CleanWindow(l, WakeTime(l, now)).timestamps + [WakeTime(l, now)]
  {
    var woke := WakeTime(l, now);
    var cleaned := CleanWindow(l, woke);
    if |cleaned.timestamps| >= l.maxRequests then
      Admission(cleaned, woke - now, Err(RateLimitError(CeilingMessage(l))))
    else
      Admission(cleaned.(timestamps := cleaned.timestamps + [woke]), woke - now, Ok(woke))
  }

  lemma AppendLatest(ts: seq<int>, t: int)
    requires Sorted(ts) && NotAfter(ts, t)
    ensures Sorted(ts + [t]) && NotAfter(ts + [t], t)
  {
  }

  lemma SuffixNotAfter(ts: seq<int>, k: nat, t: int)
    requires k <= |ts| && NotAfter(ts, t)
    ensures NotAfter(ts[k..], t)
  {
    forall i | 0 <= i < |ts| - k
      ensures ts[k..][i] <= t
    {
      assert ts[k..][i] == ts[k + i];
    }
  }

  /** Pruning at an instant no earlier than every admission keeps the window
      ordered and not after that instant. */
  lemma CleanWindowOrdered(l: Limiter, now: int, t: int)
    requires Sorted(l.timestamps) && NotAfter(l.timestamps, now) && now <= t
    ensures Sorted(CleanWindow(l, t).timestamps) && NotAfter(CleanWindow(l, t).timestamps, t)
    ensures |CleanWindow(l, t).timestamps| <= |l.timestamps|
  {
    var kept := CleanWindow(l, t).timestamps;
    DropExpiredSorted(l.timestamps, t - l.window);
    SuffixNotAfter(l.timestamps, |l.timestamps| - |kept|, now);
  }

  /** `acquire` keeps the invariant as long as the clock does not run backwards,
      and every instant it records is the latest one. */
  lemma AcquirePreservesValid(l: Limiter, now: int)
    requires Valid(l) && NotAfter(l.timestamps, now)
    ensures var a := Acquire(l, now);
      Valid(a.limiter) && NotAfter(a.limiter.timestamps, now + a.waited)
  {
    var a := Acquire(l, now);
    var t := WakeTime(l, now);
    var kept := CleanWindow(l, t).timestamps;
    CleanWindowOrdered(l, now, t);
    assert now + a.waited == t;
    if a.admitted.Ok? {
      AppendLatest(kept, t);
    }
  }

  /** Acquisitions at the given instants, one after another; the flags say
      which ones were admitted. */
  function AcquireAll(l: Limiter, times: seq<int>): (r: (Limiter, seq<bool>))
    ensures |r.1| == |times|
    decreases |times|
  {
    if |times| == 0 then (l, [])
    else
      var a := Acquire(l, times[0]);
      var rest := AcquireAll(a.limiter, times[1..]);
      (rest.0, [a.admitted.Ok?] + rest.1)
  }

  lemma NothingExpires(ts: seq<int>, cutoff: int)
    requires forall i :: 0 <= i < |ts| ==> ts[i] >= cutoff
    ensures DropExpired(ts, cutoff) == ts
  {
  }

  /** Within one window and outside any backoff, the limiter admits exactly
      as many further calls as the ceiling leaves room for and refuses every
      call after that; from an empty limiter with ceiling N, call N+1 fails. */
  lemma {:induction false} CeilingWithinOneWindow(l: Limiter, times: seq<int>, last: int)
    requires Sorted(times)
    requires forall i :: 0 <= i < |times| ==> l.backoffUntil <= times[i] <= last
    requires forall i :: 0 <= i < |times| ==> times[i] >= last - l.window
    requires forall i :: 0 <= i < |l.timestamps| ==> l.timestamps[i] >= last - l.window
    ensures forall i :: 0 <= i < |times| ==>
      AcquireAll(l, times).1[i] == (|l.timestamps| + i < l.maxRequests)
    decreases |times|
  {
    if |times| > 0 {
      var a := Acquire(l, times[0]);
      var rest := times[1..];
      NothingExpires(l.timestamps, times[0] - l.window);
      assert |a.limiter.timestamps| ==
        (if |l.timestamps| < l.maxRequests then |l.timestamps| + 1 else |l.timestamps|);
      assert forall i :: 0 <= i < |a.limiter.timestamps| ==> a.limiter.timestamps[i] >= last - l.window;
      CeilingWithinOneWindow(a.limiter, rest, last);
      var flags := AcquireAll(l, times).1;
      assert flags == [a.admitted.Ok?] + AcquireAll(a.limiter, rest).1;
    }
  }

  /** `retry_after or min(2 ** count, 60)`: a server-supplied interval wins
      unless it is absent or zero. */
  function BackoffDelay(count: nat, retryAfter: Option<int>): (d: int)
    ensures retryAfter.Some? && retryAfter.value != 0 ==> d == retryAfter.value
    ensures retryAfter.None? || retryAfter.value == 0 ==>
      1 <= d <= BackoffCap
      && (count <= 5 ==> d == Pow2(count))
      && (count >= 6 ==> d == BackoffCap)
  {
    if retryAfter.Some? && retryAfter.value != 0 then retryAfter.value
    else if count <= 5 then
      Pow2Monotone(count, 5);
      assert Pow2(5) == 32;
      Min(Pow2(count), BackoffCap)
    else
      Pow2Monotone(6, count);
      assert Pow2(6) == 64;
      Min(Pow2(count), BackoffCap)
  }

  function Pow2(n: nat): (p: nat)
    ensures p >= 1
  {
    if n == 0 then 1 else 2 * Pow2(n - 1)
  }

  lemma {:induction false} Pow2Monotone(m: nat, n: nat)
    requires m <= n
    ensures Pow2(m) <= Pow2(n)
    decreases n
  {
    if m < n {
      Pow2Monotone(m, n - 1);
    }
  }

  /** The limiter after `handle_429` and the delay it returned. */
  datatype Backoff = Backoff(limiter: Limiter, delay: int)

  /** `handle_429`: one more consecutive throttling response; the backoff
      lasts until `now` plus the returned delay, which is the server's
      interval when one was given and otherwise doubles per consecutive 429
      from 2 up to the cap of 60. */
  function Handle429(l: Limiter, now: int, retryAfter: Option<int>): (b: Backoff)
    ensures b.limiter.backoffCount == l.backoffCount + 1
    ensures b.limiter.backoffUntil == now + b.delay
    ensures b.limiter.timestamps == l.timestamps
    ensures b.limiter.maxRequests == l.maxRequests && b.limiter.window == l.window
    ensures retryAfter.Some? && retryAfter.value != 0 ==> b.delay == retryAfter.value
    ensures retryAfter.None? || retryAfter.value == 0 ==>
      2 <= b.delay <= BackoffCap && b.delay == Min(Pow2(b.limiter.backoffCount), BackoffCap)
  {
    var count := l.backoffCount + 1;
    Pow2Monotone(1, count);
    var delay := BackoffDelay(count, retryAfter);
    Backoff(l.(backoffCount := count, backoffUntil := now + delay), delay)
  }

  /** Consecutive 429 responses without a server interval never shorten the
      delay, and from the sixth one on the delay sits at the cap. */
  lemma BackoffNonDecreasing(l: Limiter, now: int, later: int)
    ensures var first := Handle429(l, now, None);
      var second := Handle429(first.limiter, later, None);
      first.delay <= second.delay
      && (l.backoffCount >= 5 ==> first.delay == BackoffCap)
  {
    Pow2Monotone(l.backoffCount + 1, l.backoffCount + 2);
    if l.backoffCount >= 5 {
      Pow2Monotone(6, l.backoffCount + 1);
      assert Pow2(6) == 64;
    }
  }

  /** `reset_backoff`: forget the consecutive 429s and the backoff instant. */
  function ResetBackoff(l: Limiter): (r: Limiter)
    ensures r.backoffCount == 0 && r.backoffUntil == 0
    ensures r.timestamps == l.timestamps && r.maxRequests == l.maxRequests && r.window == l.window
  {
    l.(backoffCount := 0, backoffUntil := 0)
  }

  /** After a reset the next acquisition does not wait and the next 429
      without a server interval starts the doubling again at 2. */
  lemma ResetRestartsBackoff(l: Limiter, now: int)
    requires now >= 0
    ensures Acquire(ResetBackoff(l), now).waited == 0
    ensures Handle429(ResetBackoff(l), now, None).delay == 2
  {
  }
}
