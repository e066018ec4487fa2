/** The limiter that counts in Redis: one script increments a key and lets it expire a window after the
    increment that created it. Times are the server's, in milliseconds, and never go back. */
module RedisLimits {
  import opened Limits
  import opened Text

  /** A key: absent, or a count that is gone from `expires` on. */
  datatype Counter = Missing | Counting(count: nat, expires: int)

  /** What may happen to a call of the script: it is answered, never runs, or runs without the answer arriving. */
  datatype Fate = Answered | Lost | Unanswered
  datatype Call = Call(at: int, fate: Fate)

  /** A key's counter and the times of the calls that were let through. */
  datatype Run = Run(counter: Counter, granted: seq<int>)

  predicate Ordered(calls: seq<Call>) {
    forall i, j :: 0 <= i <= j < |calls| ==> calls[i].at <= calls[j].at
  }

  /** The first two lines of the script. */
  function Incremented(c: Counter, now: int, window: nat): (r: Counter)
    ensures r.Counting?
  {
    if c.Counting? && now < c.expires then Counting(c.count + 1, c.expires) else Counting(1, now + window)
  }

  function Next(max: nat, window: nat, r: Run, c: Call): Run {
    if c.fate.Lost? then r
    else
      var k := Incremented(r.counter, c.at, window);
      Run(k, if c.fate.Answered? && k.count <= max then r.granted + [c.at] else r.granted)
  }

  function Play(max: nat, window: nat, calls: seq<Call>): Run {
    if calls == [] then Run(Missing, [])
    else Next(max, window, Play(max, window, calls[..|calls| - 1]), calls[|calls| - 1])
  }

  // ---------------------------------------------------------------- what one lifetime of the key knows

  /** When the increment that created the key ran. */
  function Opened(r: Run, window: nat): int
    requires r.counter.Counting?
  {
    r.counter.expires - window
  }

  /** The last `k` granted calls are those of the current lifetime. They are at most `max`, and when every
      increment so far was granted, or `max` were, the first of them opened the lifetime. */
  predicate LifetimeOk(max: nat, window: nat, r: Run, k: nat)
    requires max > 0
  {
    && k <= max && k <= |r.granted| && r.counter.Counting? && 1 <= r.counter.count && k <= r.counter.count
    && (k > 0 ==> Opened(r, window) <= r.granted[|r.granted| - k])
    && (k < |r.granted| ==> r.granted[|r.granted| - k - 1] < Opened(r, window))
    && (k > 0 && (k == max || k == r.counter.count) ==> r.granted[|r.granted| - k] == Opened(r, window))
    && (k + max <= |r.granted| ==> r.granted[|r.granted| - k - max] <= Opened(r, window) - window)
    && (r.granted != [] ==> r.granted[|r.granted| - 1] < r.counter.expires)
  }

  /** Any two grants that are `2 * max - 1` apart are a window apart. */
  predicate Spread(max: nat, window: nat, granted: seq<int>)
    requires max > 0
  {
    forall i :: 0 <= i < |granted| - (2 * max - 1) ==> granted[i + (2 * max - 1)] - granted[i] >= window
  }

  ghost predicate RunOk(max: nat, window: nat, r: Run, now: int)
    requires max > 0
  {
    && Sorted(r.granted) && (r.granted != [] ==> r.granted[|r.granted| - 1] <= now)
    && Spread(max, window, r.granted)
    && if r.counter.Missing? then r.granted == [] else Opened(r, window) <= now && exists k: nat :: LifetimeOk(max, window, r, k)
  }

  lemma GrantKeepsSpread(max: nat, window: nat, r: Run, c: Call, k: nat)
    requires 0 < max && 0 < window && Sorted(r.granted) && Spread(max, window, r.granted)
    requires LifetimeOk(max, window, Next(max, window, r, c), k) && k > 0
    requires Next(max, window, r, c).granted == r.granted + [c.at]
    requires Sorted(r.granted + [c.at])
    ensures Spread(max, window, r.granted + [c.at])
  {
    var g := r.granted + [c.at];
    var start := Next(max, window, r, c).counter.expires - window;
    var i := |g| - 1 - (2 * max - 1);
    if i >= 0 {
      assert start <= g[|g| - k] <= g[|g| - 1];
      if k == max {
        assert g[i] <= g[|g| - k - max] <= start - window;
      } else {
        assert g[i] <= g[|g| - k - max];
      }
    }
  }

  lemma NextOk(max: nat, window: nat, r: Run, c: Call, now: int)
    requires 0 < max && 0 < window && RunOk(max, window, r, now) && now <= c.at
    ensures RunOk(max, window, Next(max, window, r, c), c.at)
  {
    var r' := Next(max, window, r, c);
    if !c.fate.Lost? {
      var k := NextLifetime(max, window, r, c, now);
      if r'.granted != r.granted {
        assert Sorted(r'.granted);
        GrantKeepsSpread(max, window, r, c, k);
      }
    }
  }

  lemma NextLifetime(max: nat, window: nat, r: Run, c: Call, now: int) returns (k: nat)
    requires 0 < max && 0 < window && RunOk(max, window, r, now) && now <= c.at && !c.fate.Lost?
    ensures LifetimeOk(max, window, Next(max, window, r, c), k)
    ensures Next(max, window, r, c).granted != r.granted ==> k > 0
  {
    hide LifetimeOk, Sorted, Spread;
    if r.counter.Counting? && c.at < r.counter.expires {
      var l: nat :| LifetimeOk(max, window, r, l);
      k := SameLifetime(max, window, r, c, l);
    } else {
      if r.counter.Counting? {
        var l: nat :| LifetimeOk(max, window, r, l);
        Expired(max, window, r, c.at, l);
      }
      k := NewLifetime(max, window, r, c);
    }
  }

  lemma SameLifetime(max: nat, window: nat, r: Run, c: Call, l: nat) returns (k: nat)
    requires 0 < max && 0 < window && LifetimeOk(max, window, r, l) && c.at < r.counter.expires && !c.fate.Lost?
    requires Opened(r, window) <= c.at
    ensures LifetimeOk(max, window, Next(max, window, r, c), k)
    ensures Next(max, window, r, c).granted != r.granted ==> k > 0
  {
    k := l + |Next(max, window, r, c).granted| - |r.granted|;
  }

  /** What a lifetime that begins at `at` knows of the ones before. */
  predicate Old(max: nat, window: nat, granted: seq<int>, at: int)
    requires max > 0
  {
    (granted != [] ==> granted[|granted| - 1] < at) && (max <= |granted| ==> granted[|granted| - max] <= at - window)
  }

  /** When the key has expired, the `max`-th last grant is a window old. */
  lemma Expired(max: nat, window: nat, r: Run, at: int, l: nat)
    requires 0 < max && 0 < window && LifetimeOk(max, window, r, l) && Sorted(r.granted) && r.counter.expires <= at
    ensures Old(max, window, r.granted, at)
  {
    if max <= |r.granted| && l < max {
      assert r.granted[|r.granted| - max] <= r.granted[|r.granted| - l - 1];
    }
  }

  lemma NewLifetime(max: nat, window: nat, r: Run, c: Call) returns (k: nat)
    requires 0 < max && 0 < window && Old(max, window, r.granted, c.at) && !c.fate.Lost?
    requires r.counter.Missing? || r.counter.expires <= c.at
    ensures LifetimeOk(max, window, Next(max, window, r, c), k)
    ensures Next(max, window, r, c).granted != r.granted ==> k > 0
  {
    k := |Next(max, window, r, c).granted| - |r.granted|;
  }

  lemma {:induction false} PlayOk(max: nat, window: nat, calls: seq<Call>, now: int)
    requires 0 < max && 0 < window && Ordered(calls) && (calls != [] ==> calls[|calls| - 1].at <= now)
    ensures RunOk(max, window, Play(max, window, calls), now)
  {
    if calls != [] {
      var front := calls[..|calls| - 1];
      var last := calls[|calls| - 1];
      assert front != [] ==> front[|front| - 1].at <= last.at;
      PlayOk(max, window, front, last.at);
      NextOk(max, window, Play(max, window, front), last, last.at);
    }
  }

  // ---------------------------------------------------------------- the bounds

  lemma SpreadAt(max: nat, window: nat, granted: seq<int>, i: nat)
    requires max > 0 && Spread(max, window, granted) && i + (2 * max - 1) < |granted|
    ensures granted[i + (2 * max - 1)] - granted[i] >= window
  {}

  /** At most `2 * max - 1` calls are let through in any half-open interval of one window's length. */
  lemma FixedWindowBound(max: nat, window: nat, calls: seq<Call>, from: int)
    requires 0 < max && 0 < window && Ordered(calls)
    ensures CountIn(Play(max, window, calls).granted, from, from + window) <= 2 * max - 1
  {
    hide Play, CountIn, LifetimeOk, Spread;
    var g := Play(max, window, calls).granted;
    PlayOk(max, window, calls, if calls == [] then 0 else calls[|calls| - 1].at);
    CountSpan(g, from, from + window);
    var n := CountIn(g, from, from + window);
    if n > 2 * max - 1 {
      var i: nat :| i <= |g| - n && from <= g[i] && g[i + n - 1] < from + window;
      assert from <= g[i] && g[i + (2 * max - 1)] <= g[i + n - 1];
      SpreadAt(max, window, g, i);
    }
  }

  /** A later state is in the same lifetime, or in one that began after it. */
  lemma {:induction false} LaterLifetime(max: nat, window: nat, calls: seq<Call>, n: nat)
    requires n <= |calls| && Play(max, window, calls[..n]).counter.Counting?
    ensures var a := Play(max, window, calls[..n]).counter; var b := Play(max, window, calls).counter;
            b.Counting? && (b.expires == a.expires || b.expires - window >= a.expires)
  {
    if n < |calls| {
      var front := calls[..|calls| - 1];
      assert front[..n] == calls[..n];
      LaterLifetime(max, window, front, n);
    } else {
      assert calls[..n] == calls;
    }
  }

  /** Whatever happens, the lifetime that a key is in sees at most `max` grants. */
  lemma {:induction false} LifetimeBound(max: nat, window: nat, calls: seq<Call>, n: nat)
    requires 0 < max && 0 < window && Ordered(calls)
    requires n <= |calls| && Play(max, window, calls[..n]).counter.Counting?
    ensures var expires := Play(max, window, calls[..n]).counter.expires;
            CountIn(Play(max, window, calls).granted, expires - window, expires) <= max
  {
    hide LifetimeOk, Spread, Sorted, CountIn;
    var expires := Play(max, window, calls[..n]).counter.expires;
    var r := Play(max, window, calls);
    LaterLifetime(max, window, calls, n);
    assert n == |calls| ==> calls[..n] == calls;
    if r.counter.expires == expires {
      PlayOk(max, window, calls, if calls == [] then 0 else calls[|calls| - 1].at);
      CurrentLifetimeBound(max, window, r);
    } else {
      var front := calls[..|calls| - 1];
      assert front[..n] == calls[..n];
      LifetimeBound(max, window, front, n);
      LaterLifetime(max, window, front, n);
      assert front != [] ==> front[|front| - 1].at <= calls[|calls| - 1].at;
      PlayOk(max, window, front, calls[|calls| - 1].at);
      GrantIsInside(max, window, Play(max, window, front), calls[|calls| - 1], expires);
    }
  }

  lemma CurrentLifetimeBound(max: nat, window: nat, r: Run)
    requires 0 < max && r.counter.Counting? && Sorted(r.granted) && exists k: nat :: LifetimeOk(max, window, r, k)
    ensures CountIn(r.granted, r.counter.expires - window, r.counter.expires) <= max
  {
    var g := r.granted;
    var start := r.counter.expires - window;
    var k: nat :| LifetimeOk(max, window, r, k);
    CountSpan(g, start, r.counter.expires);
    var n := CountIn(g, start, r.counter.expires);
    if n > 0 {
      var i: nat :| i <= |g| - n && start <= g[i] && g[i + n - 1] < r.counter.expires;
      assert n <= k;
    }
  }

  lemma GrantIsInside(max: nat, window: nat, r: Run, c: Call, expires: int)
    requires Next(max, window, r, c).counter.Counting? && Next(max, window, r, c).counter.expires - window >= expires
    requires r.counter.Counting? && (r.counter.expires == expires || r.counter.expires - window >= expires) && 0 < window
    requires Opened(r, window) <= c.at
    ensures CountIn(Next(max, window, r, c).granted, expires - window, expires) == CountIn(r.granted, expires - window, expires)
  {
    if Next(max, window, r, c).granted == r.granted + [c.at] {
      assert (r.granted + [c.at])[..|r.granted|] == r.granted;
    }
  }

  // ---------------------------------------------------------------- the bound is attained

  function Calls(t: int, n: nat): (c: seq<Call>)
    ensures |c| == n && forall i :: 0 <= i < n ==> c[i] == Call(t, Answered)
  {
    if n == 0 then [] else Calls(t, n - 1) + [Call(t, Answered)]
  }

  function Copies(t: int, n: nat): seq<int> {
    if n == 0 then [] else Copies(t, n - 1) + [t]
  }

  lemma PlayMore(max: nat, window: nat, calls: seq<Call>, c: Call)
    ensures Play(max, window, calls + [c]) == Next(max, window, Play(max, window, calls), c)
  {
    assert (calls + [c])[..|calls|] == calls;
  }

  lemma {:induction false} PlayCopies(max: nat, window: nat, calls: seq<Call>, t: int, n: nat)
    requires var k := Play(max, window, calls).counter; k.Counting? && t < k.expires && k.count + n <= max
    ensures var r := Play(max, window, calls);
            Play(max, window, calls + Calls(t, n)) == Run(Counting(r.counter.count + n, r.counter.expires), r.granted + Copies(t, n))
  {
    if n == 0 {
      assert calls + Calls(t, n) == calls && Play(max, window, calls).granted + [] == Play(max, window, calls).granted;
    } else {
      var g := Play(max, window, calls).granted;
      PlayCopies(max, window, calls, t, n - 1);
      PlayMore(max, window, calls + Calls(t, n - 1), Call(t, Answered));
      assert calls + Calls(t, n) == calls + Calls(t, n - 1) + [Call(t, Answered)];
      assert g + Copies(t, n) == g + Copies(t, n - 1) + [t];
    }
  }

  lemma CountMore(times: seq<int>, t: int, from: int, until: int)
    ensures CountIn(times + [t], from, until) == CountIn(times, from, until) + if from <= t < until then 1 else 0
  {
    assert (times + [t])[..|times|] == times;
  }

  lemma {:induction false} CountCopies(times: seq<int>, t: int, n: nat, from: int, until: int)
    ensures CountIn(times + Copies(t, n), from, until) == CountIn(times, from, until) + if from <= t < until then n else 0
  {
    if n == 0 {
      assert times + [] == times;
    } else {
      CountCopies(times, t, n - 1, from, until);
      CountMore(times + Copies(t, n - 1), t, from, until);
      assert times + Copies(t, n) == times + Copies(t, n - 1) + [t];
    }
  }

  /** One call opens a lifetime, the rest of the quota follows in its last millisecond, a second quota at
      the first instant of the next lifetime. */
  function Burst(max: nat, window: nat): seq<Call>
    requires max > 0
  {
    [Call(0, Answered)] + Calls(window - 1, max - 1) + [Call(window, Answered)] + Calls(window, max - 1)
  }

  lemma FirstCall(max: nat, window: nat)
    requires 0 < max
    ensures Play(max, window, [Call(0, Answered)]) == Run(Counting(1, window), [0])
  {
    PlayMore(max, window, [], Call(0, Answered));
    assert [] + [Call(0, Answered)] == [Call(0, Answered)];
  }

  lemma BurstGranted(max: nat, window: nat)
    requires 0 < max && 1 < window
    ensures Play(max, window, Burst(max, window)).granted == [0] + Copies(window - 1, max - 1) + [window] + Copies(window, max - 1)
  {
    FirstCall(max, window);
    hide Play, Calls, Copies;
    PlayCopies(max, window, [Call(0, Answered)], window - 1, max - 1);
    PlayMore(max, window, [Call(0, Answered)] + Calls(window - 1, max - 1), Call(window, Answered));
    PlayCopies(max, window, [Call(0, Answered)] + Calls(window - 1, max - 1) + [Call(window, Answered)], window, max - 1);
  }

  /** No smaller bound holds: for every limiter there is a run with `2 * max - 1` grants in a half-open
      interval of one window's length, and `2 * max` when the interval is closed. */
  lemma BoundAttained(max: nat, window: nat)
    requires 0 < max && 1 < window
    ensures Ordered(Burst(max, window))
    ensures CountIn(Play(max, window, Burst(max, window)).granted, window - 1, window - 1 + window) == 2 * max - 1
    ensures CountIn(Play(max, window, Burst(max, window)).granted, 0, window + 1) == 2 * max
  {
    hide Play, CountIn, Copies;
    BurstGranted(max, window);
    BurstCount(max, window, window - 1, window - 1 + window);
    BurstCount(max, window, 0, window + 1);
  }

  lemma BurstCount(max: nat, window: nat, from: int, until: int)
    requires 0 < max && 1 < window && from < window < until
    ensures CountIn([0] + Copies(window - 1, max - 1) + [window] + Copies(window, max - 1), from, until)
         == max + (if from <= 0 then 1 else 0) + if from <= window - 1 then max - 1 else 0
  {
    CountMore([], 0, from, until);
    assert [] + [0] == [0];
    CountCopies([0], window - 1, max - 1, from, until);
    CountMore([0] + Copies(window - 1, max - 1), window, from, until);
    CountCopies([0] + Copies(window - 1, max - 1) + [window], window, max - 1, from, until);
  }

  // ---------------------------------------------------------------- the wait that a refusal names

  /** The wait in seconds: the server reports the key's remaining life, which it rounds in some way. */
  function Wait(remaining: int, rounding: nat): int {
    if (remaining + rounding) / 1000 > 1 then (remaining + rounding) / 1000 else 1
  }

  predicate Refused(max: nat, window: nat, r: Run, now: int) {
    Incremented(r.counter, now, window).count > max
  }

  /** The wait lies within the window. A caller that returns after it, nobody else having called, is let
      through iff the server's rounding did not cut the remaining life short. */
  lemma WaitSuffices(max: nat, windowSeconds: nat, calls: seq<Call>, now: int, rounding: nat)
    requires Positive(max, windowSeconds) && Ordered(calls + [Call(now, Answered)]) && rounding < 1000
    requires Refused(max, 1000 * windowSeconds, Play(max, 1000 * windowSeconds, calls), now)
    ensures var window := 1000 * windowSeconds;
            var after := Play(max, window, calls + [Call(now, Answered)]);
            var remaining := after.counter.expires - now;
            var wait := Wait(remaining, rounding);
            && 1 <= wait <= windowSeconds
            && (!Refused(max, window, after, now + 1000 * wait) <==> remaining < 1000 || remaining % 1000 == 0 || remaining % 1000 + rounding >= 1000)
  {
    hide Play, LifetimeOk, Spread, Ordered;
    var window := 1000 * windowSeconds;
    OrderedFront(calls, Call(now, Answered));
    PlayOk(max, window, calls, now);
    PlayMore(max, window, calls, Call(now, Answered));
    WaitBounds(Play(max, window, calls + [Call(now, Answered)]).counter.expires - now, windowSeconds, rounding);
  }

  lemma OrderedFront(calls: seq<Call>, c: Call)
    requires Ordered(calls + [c])
    ensures Ordered(calls) && (calls != [] ==> calls[|calls| - 1].at <= c.at)
  {
    assert forall i :: 0 <= i < |calls| ==> calls[i] == (calls + [c])[i];
    assert (calls + [c])[|calls|] == c;
  }

  lemma WaitBounds(remaining: int, windowSeconds: int, rounding: nat)
    requires 0 < remaining <= 1000 * windowSeconds && rounding < 1000
    ensures 1 <= Wait(remaining, rounding) <= windowSeconds
    ensures remaining <= 1000 * Wait(remaining, rounding) <==> remaining < 1000 || remaining % 1000 == 0 || remaining % 1000 + rounding >= 1000
  {
    var s, m := remaining / 1000, remaining % 1000;
    assert remaining == 1000 * s + m;
    assert (remaining + rounding) / 1000 == if m + rounding >= 1000 then s + 1 else s;
  }

  /** A quota used up at once. */
  function Quota(max: nat): seq<Call>
    requires max > 0
  {
    [Call(0, Answered)] + Calls(0, max - 1)
  }

  /** A server that rounds to the nearest second, as Redis does, names too short a wait for every quota and
      every window above one second: 1.4 seconds before the key expires it says 1, and the caller that comes
      back then is refused again. */
  lemma NearestSecondIsTooShort(max: nat, windowSeconds: nat)
    requires 0 < max && 1 < windowSeconds
    ensures var window, now := 1000 * windowSeconds, 1000 * windowSeconds - 1400;
            var calls := Quota(max);
            var after := Play(max, window, calls + [Call(now, Answered)]);
            && Ordered(calls + [Call(now, Answered)]) && Refused(max, window, Play(max, window, calls), now)
            && Wait(after.counter.expires - now, 500) == 1
            && Refused(max, window, after, now + 1000)
  {
    var window, now := 1000 * windowSeconds, 1000 * windowSeconds - 1400;
    FirstCall(max, window);
    hide Play, Copies;
    PlayCopies(max, window, [Call(0, Answered)], 0, max - 1);
    PlayMore(max, window, Quota(max), Call(now, Answered));
  }

  class RedisRateLimiter {
    const maxEvents: int
    const windowSeconds: int
    /** The limiter's keys in the database, by the caller's key, whose digest names them. */
    var keys: map<string, Counter>
    ghost var calls: map<string, seq<Call>>

    ghost predicate Valid()
      reads this
    {
      && Positive(maxEvents, windowSeconds)
      && forall key :: Count(key) == Play(maxEvents, 1000 * windowSeconds, Log(key)).counter
    }

    function Count(key: string): Counter
      reads this
    {
      if key in keys then keys[key] else Missing
    }

    ghost function Log(key: string): seq<Call>
      reads this
    {
      if key in calls then calls[key] else []
    }

    constructor (maxEvents: int, windowSeconds: int)
      requires Positive(maxEvents, windowSeconds)
      ensures Valid() && this.maxEvents == maxEvents && this.windowSeconds == windowSeconds && keys == map[] && calls == map[]
    {
      this.maxEvents, this.windowSeconds := maxEvents, windowSeconds;
      keys, calls := map[], map[];
    }

    /** Null where the source's constructor raises. */
    static method Create(maxEvents: int, windowSeconds: int, prefix: string) returns (r: RedisRateLimiter?)
      ensures r == null <==> maxEvents <= 0 || windowSeconds <= 0 || Blank(prefix)
      ensures r != null ==> fresh(r) && r.Valid() && r.maxEvents == maxEvents && r.windowSeconds == windowSeconds
      ensures r != null ==> r.keys == map[] && r.calls == map[]
    {
      if maxEvents <= 0 || windowSeconds <= 0 || Blank(prefix) {
        return null;
      }
      r := new RedisRateLimiter(maxEvents, windowSeconds);
    }

    /** Lets a call through iff the script's run of it is one that `Play` grants; fails closed. */
    method Check(key: string, now: int, fate: Fate, rounding: nat) returns (allowed: bool, retryAfter: int)
      requires Valid()
      modifies this
      ensures Valid() && calls == old(calls)[key := old(Log(key)) + [Call(now, fate)]]
      ensures forall other :: other != key ==> Count(other) == old(Count(other))
      ensures var before := Play(maxEvents, 1000 * windowSeconds, old(Log(key))).granted;
              Play(maxEvents, 1000 * windowSeconds, Log(key)).granted == if allowed then before + [now] else before
      ensures allowed <==> fate.Answered? && !Refused(maxEvents, 1000 * windowSeconds, Play(maxEvents, 1000 * windowSeconds, old(Log(key))), now)
      ensures allowed ==> retryAfter == 0
      ensures !fate.Answered? ==> retryAfter == windowSeconds
      ensures !allowed && fate.Answered? ==> Count(key).Counting? && retryAfter == Wait(Count(key).expires - now, rounding)
    {
      hide Play;
      ghost var log := Log(key);
      PlayMore(maxEvents, 1000 * windowSeconds, log, Call(now, fate));
      calls := calls[key := log + [Call(now, fate)]];
      if !fate.Lost? {
        keys := keys[key := Incremented(Count(key), now, 1000 * windowSeconds)];
      }
      assert forall other :: other != key ==> Count(other) == old(Count(other)) && Log(other) == old(Log(other));
      assert Count(key) == Play(maxEvents, 1000 * windowSeconds, Log(key)).counter;
      if !fate.Answered? {
        return false, windowSeconds;
      }
      allowed := keys[key].count <= maxEvents;
      retryAfter := if allowed then 0 else Wait(keys[key].expires - now, rounding);
    }
  }
}
