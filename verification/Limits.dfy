/** The in-memory rate limiter. Times are nanoseconds of a monotonic clock, whose readings never go back. */
module Limits {

  const SECOND := 1_000_000_000
  const MILLISECOND := 1_000_000

  predicate Sorted(s: seq<int>) {
    forall i, j :: 0 <= i <= j < |s| ==> s[i] <= s[j]
  }

  lemma SortedAt(s: seq<int>, i: nat, j: nat)
    requires Sorted(s) && i <= j < |s|
    ensures s[i] <= s[j]
  {}

  /** What both constructors demand. */
  predicate Positive(maxEvents: int, windowSeconds: int) {
    0 < maxEvents && 0 < windowSeconds
  }

  // ---------------------------------------------------------------- the sliding log, by definition

  /** The times that lie after `cutoff`. */
  function Recent(times: seq<int>, cutoff: int): (r: seq<int>)
    ensures |r| <= |times|
  {
    if times == [] then []
    else
      var last := times[|times| - 1];
      Recent(times[..|times| - 1], cutoff) + if last > cutoff then [last] else []
  }

  /** A call at `now` is let through iff fewer than `max` of the granted ones are younger than `window`. */
  predicate Admits(max: nat, window: nat, granted: seq<int>, now: int) {
    |Recent(granted, now - window)| < max
  }

  /** The times of those calls that a limiter of `max` events a `window` lets through. */
  function Granted(max: nat, window: nat, calls: seq<int>): (g: seq<int>)
    ensures |g| <= |calls|
  {
    if calls == [] then []
    else
      var g := Granted(max, window, calls[..|calls| - 1]);
      var now := calls[|calls| - 1];
      if Admits(max, window, g, now) then g + [now] else g
  }

  /** Where the recent ones begin. */
  function Cut(times: seq<int>, cutoff: int): nat {
    |times| - |Recent(times, cutoff)|
  }

  /** These are the last ones of the times, and exactly those after `cutoff`. */
  predicate IsSuffix(recent: seq<int>, times: seq<int>, cutoff: int)
    requires |recent| <= |times|
  {
    var k := |times| - |recent|;
    recent == times[k..] && (k > 0 ==> times[k - 1] <= cutoff) && (k < |times| ==> times[k] > cutoff)
  }

  /** Of sorted times the recent ones are a suffix. */
  lemma {:induction false} RecentIsSuffix(times: seq<int>, cutoff: int)
    requires Sorted(times)
    ensures IsSuffix(Recent(times, cutoff), times, cutoff)
  {
    if times != [] {
      RecentIsSuffix(times[..|times| - 1], cutoff);
      SuffixMore(times, cutoff, Recent(times[..|times| - 1], cutoff));
    }
  }

  lemma SuffixMore(times: seq<int>, cutoff: int, recent: seq<int>)
    requires Sorted(times) && 0 < |times| && |recent| < |times| && IsSuffix(recent, times[..|times| - 1], cutoff)
    ensures IsSuffix(recent + if times[|times| - 1] > cutoff then [times[|times| - 1]] else [], times, cutoff)
  {
    hide Sorted;
    var front, last := times[..|times| - 1], times[|times| - 1];
    var k := |front| - |recent|;
    SortedAt(times, k, |times| - 1);
    assert front[k..] + [last] == times[k..];
  }

  /** And it is the suffix that the two times at its border tell. */
  lemma {:induction false} RecentIs(times: seq<int>, cutoff: int, k: nat)
    requires Sorted(times) && k <= |times| && (k > 0 ==> times[k - 1] <= cutoff) && (k < |times| ==> times[k] > cutoff)
    ensures Recent(times, cutoff) == times[k..]
  {
    hide Recent;
    RecentIsSuffix(times, cutoff);
  }

  lemma {:induction false} GrantedSorted(max: nat, window: nat, calls: seq<int>)
    requires Sorted(calls)
    ensures var g := Granted(max, window, calls);
            Sorted(g) && (g != [] ==> calls != [] && g[|g| - 1] <= calls[|calls| - 1])
  {
    if calls != [] {
      var front := calls[..|calls| - 1];
      GrantedSorted(max, window, front);
      var g := Granted(max, window, front);
      if g != [] {
        assert front[|front| - 1] <= calls[|calls| - 1];
        assert g[|g| - 1] <= calls[|calls| - 1];
      }
    }
  }

  /** The expired ones may be dropped in two goes. */
  lemma RecentTwice(times: seq<int>, cutoff: int, later: int)
    requires Sorted(times) && cutoff <= later
    ensures Recent(Recent(times, cutoff), later) == Recent(times, later)
  {
    hide Recent;
    RecentIsSuffix(times, cutoff);
    RecentIsSuffix(times, later);
    var a := Cut(times, cutoff);
    var b := Cut(times, later);
    if a <= b {
      RecentIs(times[a..], later, b - a);
      assert times[a..][b - a..] == times[b..];
    }
  }

  // ---------------------------------------------------------------- what the sliding log promises

  lemma OldEnough(max: nat, window: nat, granted: seq<int>, now: int, i: nat)
    requires Sorted(granted) && Admits(max, window, granted, now) && i + max == |granted|
    ensures max > 0 ==> granted[i] <= now - window
  {
    hide Recent;
    RecentIsSuffix(granted, now - window);
    var k := Cut(granted, now - window);
    if max > 0 {
      assert granted[i] <= granted[k - 1];
    }
  }

  /** No window holds more than `max` granted calls: the one `max` places later comes `window` later. */
  lemma {:induction false} WindowBound(max: nat, window: nat, calls: seq<int>, i: nat)
    requires 0 < max && Sorted(calls) && i + max < |Granted(max, window, calls)|
    ensures var g := Granted(max, window, calls); g[i + max] - g[i] >= window
  {
    var front := calls[..|calls| - 1];
    var now := calls[|calls| - 1];
    var g := Granted(max, window, front);
    if i + max < |g| {
      WindowBound(max, window, front, i);
    } else {
      GrantedSorted(max, window, front);
      OldEnough(max, window, g, now, i);
    }
  }

  /** How many granted calls lie in the half-open interval of length `window` that starts at `from`. */
  function CountIn(times: seq<int>, from: int, until: int): nat {
    if times == [] then 0
    else CountIn(times[..|times| - 1], from, until) + if from <= times[|times| - 1] < until then 1 else 0
  }

  lemma {:induction false} RecentCounts(times: seq<int>, cutoff: int, now: int)
    requires Sorted(times) && (times != [] ==> times[|times| - 1] <= now)
    ensures |Recent(times, cutoff)| == CountIn(times, cutoff + 1, now + 1)
  {
    if times != [] {
      var front, last := times[..|times| - 1], times[|times| - 1];
      RecentCounts(front, cutoff, now);
      assert |Recent(times, cutoff)| == |Recent(front, cutoff)| + if last > cutoff then 1 else 0;
    }
  }

  /** A call is let through iff fewer than the quota were let through in the window that ends with it. */
  lemma GrantedIff(max: nat, window: nat, calls: seq<int>, now: int)
    requires Sorted(calls + [now])
    ensures var g := Granted(max, window, calls);
            Granted(max, window, calls + [now]) == if CountIn(g, now - window + 1, now + 1) < max then g + [now] else g
  {
    hide Granted, CountIn, Sorted, Recent;
    var g := Granted(max, window, calls);
    GrantedMore(max, window, calls, now);
    LogFacts(max, window, calls, now);
    RecentCounts(g, now - window, now);
  }

  lemma GrantedMore(max: nat, window: nat, calls: seq<int>, now: int)
    ensures var g := Granted(max, window, calls);
            Granted(max, window, calls + [now]) == if Admits(max, window, g, now) then g + [now] else g
  {
    assert (calls + [now])[..|calls|] == calls;
  }

  lemma {:induction false} CountSpan(times: seq<int>, from: int, until: int)
    requires Sorted(times)
    ensures var n := CountIn(times, from, until);
            n > 0 ==> exists i :: 0 <= i <= |times| - n && from <= times[i] && times[i + n - 1] < until
  {
    if times != [] {
      var front := times[..|times| - 1];
      var last := times[|times| - 1];
      CountSpan(front, from, until);
      var m := CountIn(front, from, until);
      if m > 0 {
        var i :| 0 <= i <= |front| - m && from <= front[i] && front[i + m - 1] < until;
        if from <= last < until {
          assert from <= times[|times| - (m + 1)] by { assert times[i] <= times[|times| - 1 - m]; }
          assert times[|times| - (m + 1) + m] < until;
        } else {
          assert from <= times[i] && times[i + m - 1] < until;
        }
      } else if from <= last < until {
        assert from <= times[|front|] && times[|front| + 1 - 1] < until;
      }
    }
  }

  /** The same promise for every interval. */
  lemma IntervalBound(max: nat, window: nat, calls: seq<int>, from: int)
    requires 0 < max && Sorted(calls)
    ensures CountIn(Granted(max, window, calls), from, from + window) <= max
  {
    hide Granted, CountIn;
    var g := Granted(max, window, calls);
    GrantedSorted(max, window, calls);
    CountSpan(g, from, from + window);
    var n := CountIn(g, from, from + window);
    if n > max {
      var i: nat :| i <= |g| - n && from <= g[i] && g[i + n - 1] < from + window;
      assert from <= g[i] <= g[i + max] <= g[i + n - 1];
      WindowBound(max, window, calls, i);
    }
  }

  /** How long after a refusal at `now` the oldest call that counts stops counting. */
  function Remaining(recent: seq<int>, window: nat, now: int): int
    requires recent != []
  {
    recent[0] + window - now
  }

  /** Seconds that a refusal at `now` asks the caller to wait, rounded up from a millisecond on. */
  function RetryAfter(recent: seq<int>, window: nat, now: int): int
    requires recent != []
  {
    var wait := Remaining(recent, window, now) + 999 * MILLISECOND;
    if wait / SECOND > 1 then wait / SECOND else 1
  }

  /** The remaining time exceeds whole seconds by less than the rounding can see. */
  predicate Short(remaining: int) {
    remaining >= 1_000_000_000 && 0 < remaining % 1_000_000_000 < 1_000_000
  }

  /** The calls that count against a call at `now`. */
  function Inside(max: nat, window: nat, calls: seq<int>, now: int): seq<int> {
    Recent(Granted(max, window, calls), now - window)
  }

  /** A limiter of whole seconds has seen these calls and refuses one more. */
  predicate Refuses(max: nat, windowSeconds: nat, calls: seq<int>, now: int) {
    && Positive(max, windowSeconds) && Sorted(calls + [now])
    && !Admits(max, SECOND * windowSeconds, Granted(max, SECOND * windowSeconds, calls), now)
  }

  /** A caller returns `later` nanoseconds after a call at `now`, nobody else having called, and is let through. */
  predicate AdmittedAfter(max: nat, windowSeconds: nat, calls: seq<int>, now: int, later: nat) {
    Admits(max, SECOND * windowSeconds, Granted(max, SECOND * windowSeconds, calls + [now]), now + later)
  }

  /** The wait lies within the window and is never too long. It is exact but for the case that the remaining
      time exceeds whole seconds by less than a millisecond: then it is one second short. */
  lemma RetrySufficesIff(max: nat, windowSeconds: nat, calls: seq<int>, now: int, s: nat)
    requires Refuses(max, windowSeconds, calls, now)
    ensures var recent := Inside(max, SECOND * windowSeconds, calls, now);
            && recent != []
            && var retry := RetryAfter(recent, SECOND * windowSeconds, now);
            && 1 <= retry <= windowSeconds
            && (AdmittedAfter(max, windowSeconds, calls, now, SECOND * s) <==>
                  s > retry || (s == retry && !Short(Remaining(recent, SECOND * windowSeconds, now))))
  {
    hide Refuses, Inside, AdmittedAfter, Short;
    WaitIsRemaining(max, windowSeconds, calls, now, SECOND * s);
    var window := SECOND * windowSeconds;
    var recent := Inside(max, window, calls, now);
    RoundedUp(Remaining(recent, window, now), RetryAfter(recent, window, now), windowSeconds, s);
  }

  /** A refused caller is let through again exactly when the oldest call that counts has left the window. */
  lemma WaitIsRemaining(max: nat, windowSeconds: nat, calls: seq<int>, now: int, later: nat)
    requires Refuses(max, windowSeconds, calls, now)
    ensures var recent := Inside(max, SECOND * windowSeconds, calls, now);
            && recent != [] && 0 < Remaining(recent, SECOND * windowSeconds, now) <= SECOND * windowSeconds
            && (AdmittedAfter(max, windowSeconds, calls, now, later) <==> later >= Remaining(recent, SECOND * windowSeconds, now))
  {
    hide Granted, Recent, Sorted;
    var window := SECOND * windowSeconds;
    GrantedMore(max, window, calls, now);
    LogFacts(max, window, calls, now);
    RecentAtMost(max, window, calls, now);
    FullLog(max, window, Granted(max, window, calls), now, later);
  }

  /** A full log admits again when its oldest recent entry leaves the window. */
  lemma FullLog(max: nat, window: nat, g: seq<int>, now: int, later: nat)
    requires Sorted(g) && 0 < max == |Recent(g, now - window)| && g[|g| - 1] <= now
    ensures var remaining := Remaining(Recent(g, now - window), window, now);
            0 < remaining <= window && (Admits(max, window, g, now + later) <==> later >= remaining)
  {
    hide Recent, Sorted;
    RecentIsSuffix(g, now - window);
    RecentIsSuffix(g, now + later - window);
    var k := |g| - max;
    var left := Cut(g, now + later - window);
    SortedAt(g, k, |g| - 1);
    if left <= k { SortedAt(g, left, k); } else { SortedAt(g, k, left - 1); }
  }

  lemma RoundedUp(remaining: int, retry: int, windowSeconds: nat, s: nat)
    requires 0 < remaining <= SECOND * windowSeconds
    requires var up := (remaining + 999 * MILLISECOND) / SECOND; retry == if up > 1 then up else 1
    ensures 1 <= retry <= windowSeconds && (SECOND * s >= remaining <==> s > retry || (s == retry && !Short(remaining)))
  {
    var q, m := remaining / SECOND, remaining % SECOND;
    assert remaining == SECOND * q + m;
    assert (remaining + 999 * MILLISECOND) / SECOND == if m >= MILLISECOND then q + 1 else q;
  }

  /** With a clock that ticks in milliseconds a caller is let through iff it waited at least the named time. */
  lemma RetryIsLeast(max: nat, windowSeconds: nat, calls: seq<int>, now: int, s: nat)
    requires Refuses(max, windowSeconds, calls, now) && forall t <- calls + [now] :: t % MILLISECOND == 0
    ensures var recent := Inside(max, SECOND * windowSeconds, calls, now);
            recent != [] && (AdmittedAfter(max, windowSeconds, calls, now, SECOND * s) <==> s >= RetryAfter(recent, SECOND * windowSeconds, now))
  {
    hide Refuses, AdmittedAfter, Granted, Recent, Short;
    RetrySufficesIff(max, windowSeconds, calls, now, s);
    var recent := Inside(max, SECOND * windowSeconds, calls, now);
    RecentAmong(Granted(max, SECOND * windowSeconds, calls), now - SECOND * windowSeconds);
    GrantedAmong(max, SECOND * windowSeconds, calls);
    assert now in calls + [now] && recent[0] in calls + [now];
    WholeMilliseconds(recent[0], windowSeconds, now);
  }

  lemma WholeMilliseconds(t: int, windowSeconds: nat, now: int)
    requires t % MILLISECOND == 0 && now % MILLISECOND == 0
    ensures !Short(t + SECOND * windowSeconds - now)
  {
    var remaining := t + SECOND * windowSeconds - now;
    var k := t / MILLISECOND + 1000 * windowSeconds - now / MILLISECOND;
    assert remaining == MILLISECOND * k;
    var q, m := remaining / SECOND, remaining % SECOND;
    assert m == MILLISECOND * (k - 1000 * q);
  }

  lemma {:induction false} RecentAmong(times: seq<int>, cutoff: int)
    ensures forall t <- Recent(times, cutoff) :: t in times
  {
    if times != [] { RecentAmong(times[..|times| - 1], cutoff); }
  }

  lemma {:induction false} GrantedAmong(max: nat, window: nat, calls: seq<int>)
    ensures forall t <- Granted(max, window, calls) :: t in calls
  {
    if calls != [] { GrantedAmong(max, window, calls[..|calls| - 1]); }
  }

  function Burst(n: nat): seq<int> {
    seq(n, _ => 0)
  }

  lemma {:induction false} BurstGranted(max: nat, window: nat, n: nat)
    requires n <= max && 0 < window
    ensures Sorted(Burst(n)) && Granted(max, window, Burst(n)) == Burst(n)
  {
    if n > 0 {
      BurstGranted(max, window, n - 1);
      assert Burst(n)[..n - 1] == Burst(n - 1);
      assert Burst(n - 1) + [0] == Burst(n);
      AllRecent(Burst(n - 1), 0 - window);
    }
  }

  /** A call is refused one second and half a millisecond before the window ends. */
  function TooEarly(windowSeconds: int): int {
    SECOND * windowSeconds - SECOND - MILLISECOND / 2
  }

  /** For every quota and every window above a second: the quota is used up at time 0, a caller is refused
      one second and half a millisecond before the window ends, waits the one second that it is told, and is
      refused again. */
  lemma RetryIsTooShort(max: nat, windowSeconds: nat)
    requires 0 < max && 1 < windowSeconds
    ensures var window, now := SECOND * windowSeconds, TooEarly(windowSeconds);
            && Granted(max, window, Burst(max)) == Burst(max)
            && Refuses(max, windowSeconds, Burst(max), now)
            && Inside(max, window, Burst(max), now) == Burst(max) && RetryAfter(Burst(max), window, now) == 1
            && !AdmittedAfter(max, windowSeconds, Burst(max), now, SECOND)
  {
    hide Granted, Recent, AdmittedAfter, Sorted;
    var window, now := SECOND * windowSeconds, TooEarly(windowSeconds);
    BurstGranted(max, window, max);
    AllRecent(Burst(max), now - window);
    BurstThen(max, now);
    WaitIsRemaining(max, windowSeconds, Burst(max), now, SECOND);
  }

  lemma BurstThen(n: nat, now: nat)
    ensures Sorted(Burst(n) + [now])
  {}

  /** The queue never holds more than `max` entries. */
  lemma RecentAtMost(max: nat, window: nat, calls: seq<int>, now: int)
    requires 0 < max && 0 < window && Sorted(calls + [now])
    ensures |Recent(Granted(max, window, calls), now - window)| <= max
  {
    hide Granted, Recent, Sorted;
    var g := Granted(max, window, calls);
    LogFacts(max, window, calls, now);
    RecentIsSuffix(g, now - window);
    var k := Cut(g, now - window);
    if |g| - k > max {
      SortedAt(g, k + max, |g| - 1);
      WindowBound(max, window, calls, k);
    }
  }

  /** The queue of a key holds exactly the granted calls that the last call still saw in its window. */
  predicate QueueOk(max: nat, window: nat, log: seq<int>, queue: seq<int>) {
    Sorted(log) && (log != [] ==> queue == Recent(Granted(max, window, log), log[|log| - 1] - window))
  }

  class InMemoryRateLimiter {
    const maxEvents: int
    const windowSeconds: int
    var events: map<string, seq<int>>
    /** Every call's time, allowed or not, by key. */
    ghost var calls: map<string, seq<int>>

    ghost predicate Valid()
      reads this
    {
      && Positive(maxEvents, windowSeconds)
      && events.Keys == calls.Keys
      && forall key <- calls :: calls[key] != [] && QueueOk(maxEvents, SECOND * windowSeconds, calls[key], events[key])
    }

    ghost function Log(key: string): seq<int>
      reads this
    {
      if key in calls then calls[key] else []
    }

    constructor (maxEvents: int, windowSeconds: int)
      requires Positive(maxEvents, windowSeconds)
      ensures Valid() && this.maxEvents == maxEvents && this.windowSeconds == windowSeconds && events == map[] && calls == map[]
    {
      this.maxEvents, this.windowSeconds := maxEvents, windowSeconds;
      events, calls := map[], map[];
    }

    /** Null where the source's constructor raises. */
    static method Create(maxEvents: int, windowSeconds: int) returns (r: InMemoryRateLimiter?)
      ensures r == null <==> maxEvents <= 0 || windowSeconds <= 0
      ensures r != null ==> fresh(r) && r.Valid() && r.maxEvents == maxEvents && r.windowSeconds == windowSeconds
      ensures r != null ==> r.events == map[] && r.calls == map[]
    {
      if maxEvents <= 0 || windowSeconds <= 0 {
        return null;
      }
      r := new InMemoryRateLimiter(maxEvents, windowSeconds);
    }

    method Check(key: string, now: int) returns (allowed: bool, retryAfter: int)
      requires Valid() && Sorted(Log(key) + [now])
      modifies this
      ensures Valid() && calls == old(calls)[key := old(Log(key)) + [now]]
      ensures forall other <- old(events) :: other != key ==> other in events && events[other] == old(events)[other]
      ensures var window := SECOND * windowSeconds; allowed <==> Admits(maxEvents, window, Granted(maxEvents, window, old(Log(key))), now)
      ensures allowed ==> retryAfter == 0
      ensures var window := SECOND * windowSeconds;
              var recent := Recent(Granted(maxEvents, window, old(Log(key))), now - window);
              !allowed ==> recent != [] && retryAfter == RetryAfter(recent, window, now)
    {
      hide Granted, Recent, QueueOk, Sorted, RetryAfter;
      ghost var log, window := Log(key), SECOND * windowSeconds;
      ghost var granted := Granted(maxEvents, window, log);
      var cutoff := now - SECOND * windowSeconds;
      var queue := if key in events then events[key] else [];
      QueueFacts(maxEvents, window, log, queue, now);
      while queue != [] && queue[0] <= cutoff
        invariant Sorted(queue) && Recent(queue, cutoff) == Recent(granted, cutoff)
        modifies {}
      {
        PopExpired(queue, cutoff);
        queue := queue[1..];
      }
      AllRecent(queue, cutoff);
      if |queue| >= maxEvents {
        var wait := queue[0] + SECOND * windowSeconds - now + 999 * MILLISECOND;
        allowed, retryAfter := false, if wait / SECOND > 1 then wait / SECOND else 1;
        IsRetryAfter(queue, window, now, retryAfter);
      } else {
        queue := queue + [now];
        allowed, retryAfter := true, 0;
      }
      CallGranted(maxEvents, window, log, now);
      events := events[key := queue];
      calls := calls[key := log + [now]];
    }
  }

  lemma IsRetryAfter(recent: seq<int>, window: nat, now: int, retry: int)
    requires recent != []
    requires var wait := recent[0] + window - now + 999 * MILLISECOND; retry == if wait / SECOND > 1 then wait / SECOND else 1
    ensures retry == RetryAfter(recent, window, now)
  {}

  lemma CallGranted(max: nat, window: nat, log: seq<int>, now: int)
    requires 0 < window && Sorted(log + [now])
    ensures var r := Recent(Granted(max, window, log), now - window);
            QueueOk(max, window, log + [now], if |r| < max then r + [now] else r)
  {
    assert (log + [now])[..|log|] == log;
    var g := Granted(max, window, log);
    assert (g + [now])[..|g|] == g;
  }

  lemma LogFacts(max: nat, window: nat, log: seq<int>, now: int)
    requires Sorted(log + [now])
    ensures Sorted(log) && Sorted(Granted(max, window, log))
    ensures var g := Granted(max, window, log); g != [] ==> g[|g| - 1] <= now
    ensures log != [] ==> log[|log| - 1] <= now
  {
    hide Granted;
    assert forall i :: 0 <= i < |log| ==> log[i] == (log + [now])[i];
    assert log != [] ==> (log + [now])[|log| - 1] <= (log + [now])[|log|];
    GrantedSorted(max, window, log);
  }

  lemma QueueFacts(max: nat, window: nat, log: seq<int>, queue: seq<int>, now: int)
    requires Sorted(log + [now]) && if log == [] then queue == [] else QueueOk(max, window, log, queue)
    ensures Sorted(queue) && Recent(queue, now - window) == Recent(Granted(max, window, log), now - window)
  {
    hide Recent, Granted, Sorted;
    if log != [] {
      LogFacts(max, window, log, now);
      DropTwice(Granted(max, window, log), log[|log| - 1] - window, now - window);
    } else {
      NothingYet(max, window, now - window);
    }
  }

  lemma NothingYet(max: nat, window: nat, cutoff: int)
    ensures Sorted([]) && Granted(max, window, []) == [] == Recent([], cutoff)
  {}

  lemma DropTwice(times: seq<int>, cutoff: int, later: int)
    requires Sorted(times) && cutoff <= later
    ensures var queue := Recent(times, cutoff); Sorted(queue) && Recent(queue, later) == Recent(times, later)
  {
    hide Recent;
    RecentIsSuffix(times, cutoff);
    RecentTwice(times, cutoff, later);
  }

  lemma PopExpired(queue: seq<int>, cutoff: int)
    requires Sorted(queue) && queue != [] && queue[0] <= cutoff
    ensures Sorted(queue[1..]) && Recent(queue[1..], cutoff) == Recent(queue, cutoff)
  {
    hide Recent;
    RecentIsSuffix(queue, cutoff);
    var k := Cut(queue, cutoff);
    if k > 0 {
      RecentIs(queue[1..], cutoff, k - 1);
    }
  }

  lemma AllRecent(queue: seq<int>, cutoff: int)
    requires Sorted(queue) && (queue != [] ==> queue[0] > cutoff)
    ensures Recent(queue, cutoff) == queue
  {
    hide Recent;
    RecentIsSuffix(queue, cutoff);
  }
}
