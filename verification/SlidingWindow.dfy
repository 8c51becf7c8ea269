/** The per-minute rate limiter and the signature-failure trip wire: two users of one
    sliding window, each tied to its whole call history. Times are nanoseconds. */
module SlidingWindow {

  const MINUTE := 60_000_000_000

  predicate Sorted(ts: seq<int>) {
    forall i, j :: 0 <= i <= j < |ts| ==> ts[i] <= ts[j]
  }

  /** The times at or after the cutoff, in order. */
  function Recent(ts: seq<int>, cutoff: int): seq<int> {
    if ts == [] then []
    else
      var rest := Recent(ts[..|ts| - 1], cutoff);
      if ts[|ts| - 1] >= cutoff then rest + [ts[|ts| - 1]] else rest
  }

  /** How many of the times lie in the closed interval from a to b. */
  function CountIn(ts: seq<int>, a: int, b: int): nat {
    if ts == [] then 0
    else CountIn(ts[..|ts| - 1], a, b) + (if a <= ts[|ts| - 1] <= b then 1 else 0)
  }

  lemma LastTime(ts: seq<int>, a: int, b: int, all: set<int>, before: set<int>)
    requires ts != [] && all == set i | 0 <= i < |ts| && a <= ts[i] <= b
    requires var rest := ts[..|ts| - 1]; before == set i | 0 <= i < |rest| && a <= rest[i] <= b
    ensures var n := |ts| - 1; n !in before && all == if a <= ts[n] <= b then before + {n} else before
  {}

  /** Counted by their places. */
  lemma {:induction false} CountInCounts(ts: seq<int>, a: int, b: int)
    ensures CountIn(ts, a, b) == |set i | 0 <= i < |ts| && a <= ts[i] <= b|
  {
    if ts != [] {
      var n := |ts| - 1;
      CountInCounts(ts[..n], a, b);
      var all := set i | 0 <= i < |ts| && a <= ts[i] <= b;
      var before := set i | 0 <= i < |ts[..n]| && a <= ts[..n][i] <= b;
      LastTime(ts, a, b, all, before);
    }
  }

  lemma {:induction false} RecentAreCounted(ts: seq<int>, cutoff: int, now: int)
    requires AllUpTo(ts, now)
    ensures |Recent(ts, cutoff)| == CountIn(ts, cutoff, now)
  {
    if ts != [] { RecentAreCounted(ts[..|ts| - 1], cutoff, now); }
  }

  /** The times of the last minute, counted by their places. */
  lemma LastMinuteCounted(ts: seq<int>, now: int)
    requires AllUpTo(ts, now)
    ensures |Recent(ts, now - MINUTE)| == |set i | 0 <= i < |ts| && now - 60_000_000_000 <= ts[i] <= now|
  {
    RecentAreCounted(ts, now - MINUTE, now);
    CountInCounts(ts, now - MINUTE, now);
  }

  lemma {:induction false} RecentOfPrefix(ts: seq<int>, cutoff: int, k: nat)
    requires k <= |ts| && Sorted(ts)
    requires k < |ts| ==> ts[k] >= cutoff
    requires forall i :: 0 <= i < k ==> ts[i] < cutoff
    ensures Recent(ts, cutoff) == ts[k..]
  {
    if ts != [] {
      var n := |ts| - 1;
      if k == |ts| {
        RecentOfPrefix(ts[..n], cutoff, n);
      } else {
        RecentOfPrefix(ts[..n], cutoff, k);
        assert ts[k..] == ts[..n][k..] + [ts[n]];
      }
    }
  }

  /** In a sorted log the recent times are a suffix, cut where the cutoff falls. */
  lemma {:induction false} RecentIsSuffix(ts: seq<int>, cutoff: int) returns (k: nat)
    requires Sorted(ts)
    ensures k <= |ts| && Recent(ts, cutoff) == ts[k..]
    ensures forall i :: 0 <= i < |ts| ==> (ts[i] >= cutoff <==> i >= k)
  {
    k := 0;
    while k < |ts| && ts[k] < cutoff
      invariant k <= |ts| && forall i :: 0 <= i < k ==> ts[i] < cutoff
    {
      k := k + 1;
    }
    RecentOfPrefix(ts, cutoff, k);
  }

  /** A later cutoff may be applied to what an earlier cutoff kept. */
  lemma {:induction false} RecentTwice(ts: seq<int>, early: int, late: int)
    requires early <= late
    ensures Recent(Recent(ts, early), late) == Recent(ts, late)
  {
    if ts != [] {
      var n := |ts| - 1;
      RecentTwice(ts[..n], early, late);
      var rest := Recent(ts[..n], early);
      if ts[n] >= early {
        assert (rest + [ts[n]])[..|rest|] == rest;
      }
    }
  }

  lemma {:induction false} RecentKeepsOrder(ts: seq<int>, cutoff: int)
    requires Sorted(ts)
    ensures Sorted(Recent(ts, cutoff))
    ensures forall x :: x in Recent(ts, cutoff) ==> x in ts
  {
    var k := RecentIsSuffix(ts, cutoff);
  }

  /** The eviction loop both guards share. */
  method EvictBefore(ts: seq<int>, cutoff: int) returns (kept: seq<int>)
    requires Sorted(ts)
    ensures kept == Recent(ts, cutoff)
  {
    var i := 0;
    while i < |ts| && ts[i] < cutoff
      invariant 0 <= i <= |ts| && forall j :: 0 <= j < i ==> ts[j] < cutoff
    {
      i := i + 1;
    }
    RecentOfPrefix(ts, cutoff, i);
    kept := ts[i..];
  }

  // ---------- the rate limiter ----------

  /** Whether the limiter lets a call at time now through, given all earlier admissions. */
  predicate Admits(limit: int, admitted: seq<int>, now: int) {
    |Recent(admitted, now - MINUTE)| < limit
  }

  /** Any two admissions that are limit or more places apart are over a minute apart. */
  predicate Spaced(limit: int, admitted: seq<int>) {
    forall i, j :: 0 <= i < j < |admitted| && j - i >= limit ==> admitted[i] < admitted[j] - MINUTE
  }

  predicate AllUpTo(ts: seq<int>, now: int) {
    forall i :: 0 <= i < |ts| ==> ts[i] <= now
  }

  /** The admission histories a limiter can produce. */
  predicate LimiterHistory(limit: int, admitted: seq<int>, now: int) {
    limit >= 1 && Sorted(admitted) && AllUpTo(admitted, now) && Spaced(limit, admitted)
  }

  lemma AdmissionKeepsHistory(limit: int, admitted: seq<int>, before: int, now: int)
    requires LimiterHistory(limit, admitted, before) && before <= now
    ensures LimiterHistory(limit, admitted, now)
    ensures Admits(limit, admitted, now) ==> LimiterHistory(limit, admitted + [now], now)
  {
    if Admits(limit, admitted, now) {
      var k := RecentIsSuffix(admitted, now - MINUTE);
      var after := admitted + [now];
      assert Spaced(limit, after);
    }
  }

  /** At most limit admissions are ever recent. */
  lemma RecentIsBounded(limit: int, admitted: seq<int>, now: int)
    requires LimiterHistory(limit, admitted, now)
    ensures |Recent(admitted, now - MINUTE)| <= limit
  {
    var k := RecentIsSuffix(admitted, now - MINUTE);
    if k < |admitted| {
      assert admitted[k] >= admitted[|admitted| - 1] - MINUTE;
    }
  }

  lemma {:induction false} CountInSpan(ts: seq<int>, a: int, b: int, lo: nat, hi: nat)
    requires lo <= hi <= |ts|
    requires forall i :: 0 <= i < |ts| && a <= ts[i] <= b ==> lo <= i < hi
    ensures CountIn(ts, a, b) <= hi - lo
  {
    if ts != [] {
      var n := |ts| - 1;
      if hi == |ts| && lo < hi {
        CountInSpan(ts[..n], a, b, lo, n);
      } else {
        CountInSpan(ts[..n], a, b, if lo <= n then lo else n, if hi <= n then hi else n);
      }
    }
  }

  /** No two of the times that lie between a and b are n or more places apart. */
  predicate Sparse(ts: seq<int>, n: nat, a: int, b: int) {
    forall k, l :: 0 <= k <= l < |ts| && a <= ts[k] && ts[l] <= b ==> l - k < n
  }

  lemma CountWithin(ts: seq<int>, n: nat, a: int, b: int)
    requires Sorted(ts) && Sparse(ts, n, a, b)
    ensures CountIn(ts, a, b) <= n
  {
    var lo := RecentIsSuffix(ts, a);
    var past := RecentIsSuffix(ts, b + 1);
    if lo < past { assert a <= ts[lo] && ts[past - 1] <= b; }
    CountInSpan(ts, a, b, if lo <= past then lo else past, past);
  }

  /** No closed window of one minute, wherever it starts, contains more than limit
      admissions. */
  lemma WindowBound(limit: int, admitted: seq<int>, now: int, start: int)
    requires LimiterHistory(limit, admitted, now)
    ensures CountIn(admitted, start, start + MINUTE) <= limit
    ensures |set i | 0 <= i < |admitted| && start <= admitted[i] <= start + 60_000_000_000| <= limit
  {
    CountWithin(admitted, limit, start, start + MINUTE);
    CountInCounts(admitted, start, start + MINUTE);
  }

  class RateLimiter {
    const limit: int
    var timestamps: seq<int>
    ghost var admitted: seq<int>
    ghost var lastCall: int

    ghost predicate Valid()
      reads this
    {
      LimiterHistory(limit, admitted, lastCall) && timestamps == Recent(admitted, lastCall - MINUTE)
    }

    constructor (perMinute: int, ghost start: int)
      ensures Valid() && lastCall == start && limit == (if perMinute <= 0 then 30 else perMinute)
      ensures admitted == [] && timestamps == []
    {
      limit := if perMinute <= 0 then 30 else perMinute;
      timestamps, admitted, lastCall := [], [], start;
    }

    /** The stored timestamps are the admissions of the last minute, and a call is let through
        exactly when they are fewer than the limit. */
    method Allow(now: int) returns (ok: bool)
      requires Valid() && lastCall <= now
      modifies this
      ensures Valid() && lastCall == now
      ensures ok == Admits(limit, old(admitted), now)
      ensures ok <==> |Recent(old(admitted), now - 60_000_000_000)| < limit
      ensures ok <==> |Recent(old(admitted), now - MINUTE)| != limit
      ensures admitted == if ok then old(admitted) + [now] else old(admitted)
    {
      var cutoff := now - MINUTE;
      AdmissionKeepsHistory(limit, admitted, lastCall, now);
      RecentIsBounded(limit, admitted, now);
      RecentKeepsOrder(admitted, lastCall - MINUTE);
      RecentTwice(admitted, lastCall - MINUTE, cutoff);
      timestamps := EvictBefore(timestamps, cutoff);
      lastCall := now;
      if |timestamps| >= limit { return false; }
      assert (admitted + [now])[..|admitted|] == admitted;
      timestamps := timestamps + [now];
      admitted := admitted + [now];
      return true;
    }
  }

  // ---------- the signature-failure trip wire ----------

  const SIG_FAILURE_THRESHOLD := 5

  /** The failures since the last disconnect, fewer than the threshold of them recent. */
  predicate FailureLog(log: seq<int>, now: int) {
    Sorted(log) && AllUpTo(log, now) && |Recent(log, now - MINUTE)| < SIG_FAILURE_THRESHOLD
  }

  lemma RecentShrinks(log: seq<int>, early: int, late: int)
    requires Sorted(log) && early <= late
    ensures |Recent(log, late)| <= |Recent(log, early)|
  {
    var j := RecentIsSuffix(log, early);
    var k := RecentIsSuffix(log, late);
    if k < |log| { assert log[k] >= early; }
  }

  lemma FailureAppended(log: seq<int>, now: int)
    requires Sorted(log) && AllUpTo(log, now)
    ensures Sorted(log + [now]) && AllUpTo(log + [now], now)
    ensures Recent(log + [now], now - MINUTE) == Recent(log, now - MINUTE) + [now]
  {
    assert (log + [now])[..|log|] == log;
  }

  /** The stored failures after a failure now: those still recent, and this one. */
  lemma FailureRecorded(log: seq<int>, before: int, now: int) returns (kept: seq<int>)
    requires FailureLog(log, before) && before <= now
    ensures kept == Recent(log, now - MINUTE) && |kept| <= 4
    ensures Sorted(Recent(log, before - MINUTE)) && Recent(Recent(log, before - MINUTE), now - MINUTE) == kept
    ensures Recent(log + [now], now - MINUTE) == kept + [now] && (|kept| < 4 ==> FailureLog(log + [now], now))
    ensures FailureLog([], now) && Recent([], now - MINUTE) == []
  {
    kept := Recent(log, now - MINUTE);
    RecentKeepsOrder(log, before - MINUTE);
    RecentTwice(log, before - MINUTE, now - MINUTE);
    RecentShrinks(log, before - MINUTE, now - MINUTE);
    FailureAppended(log, now);
  }

  class SigFailures {
    var failures: seq<int>
    ghost var sinceReset: seq<int>
    ghost var lastCall: int

    ghost predicate Valid()
      reads this
    {
      FailureLog(sinceReset, lastCall) && failures == Recent(sinceReset, lastCall - MINUTE)
    }

    constructor (ghost start: int)
      ensures Valid() && sinceReset == [] && lastCall == start
    {
      failures, sinceReset, lastCall := [], [], start;
    }

    /** Disconnects exactly when this is the fifth failure within one minute since the
        last disconnect, and then starts over. */
    method Record(now: int) returns (disconnect: bool)
      requires Valid() && lastCall <= now
      modifies this
      ensures Valid() && lastCall == now
      ensures disconnect <==> |Recent(old(sinceReset), now - 60_000_000_000)| == 4
      ensures sinceReset == if disconnect then [] else old(sinceReset) + [now]
    {
      ghost var recent := FailureRecorded(sinceReset, lastCall, now);
      var kept := EvictBefore(failures, now - MINUTE);
      failures := kept + [now];
      sinceReset, lastCall := sinceReset + [now], now;
      disconnect := |failures| >= SIG_FAILURE_THRESHOLD;
      if disconnect {
        failures, sinceReset := [], [];
      }
    }
  }
}
