/**
 The sliding-window rate limiter: a deque of timestamps per key.

 Timestamps of the monotonic clock are reals; rounding is not modelled.
 */
module RateLimit {

  /** `while bucket and bucket[0] < cutoff: bucket.popleft()`. */
  function Evict(bucket: seq<real>, cutoff: real): seq<real> {
    if bucket != [] && bucket[0] < cutoff then Evict(bucket[1..], cutoff) else bucket
  }

  function BucketOf(buckets: map<string, seq<real>>, key: string): seq<real> {
    if key in buckets then buckets[key] else []
  }

  class SlidingWindowRateLimiter {
    const limit: int
    const windowSeconds: int
    var buckets: map<string, seq<real>>

    constructor (limit: int, windowSeconds: int)
      ensures this.limit == limit && this.windowSeconds == windowSeconds && buckets == map[]
    {
      this.limit, this.windowSeconds := limit, windowSeconds;
      buckets := map[];
    }

    method IsAllowed(key: string, now: real) returns (allowed: bool)
      modifies this
      ensures allowed == Verdict(old(buckets), limit, windowSeconds, key, now)
      ensures buckets == Checked(old(buckets), limit, windowSeconds, key, now)
    {
      var cutoff := now - windowSeconds as real;
      if key !in buckets {
        buckets := buckets[key := []];
      }
      while buckets[key] != [] && buckets[key][0] < cutoff
        invariant key in buckets && buckets == old(buckets)[key := buckets[key]]
        invariant Evict(buckets[key], cutoff) == Evict(BucketOf(old(buckets), key), cutoff)
        decreases |buckets[key]|
      {
        buckets := buckets[key := buckets[key][1..]];
      }
      if |buckets[key]| >= limit {
        return false;
      }
      buckets := buckets[key := buckets[key] + [now]];
      return true;
    }

    method Reset(key: string)
      modifies this
      ensures buckets == old(buckets) - {key}
    {
      buckets := map k | k in buckets && k != key :: buckets[k];
    }
  }

  /** Whether a call is allowed, given the buckets it finds. */
  predicate Verdict(buckets: map<string, seq<real>>, limit: int, window: int, key: string, now: real) {
    |Evict(BucketOf(buckets, key), now - window as real)| < limit
  }

  /** The buckets a call leaves behind. */
  function Checked(buckets: map<string, seq<real>>, limit: int, window: int, key: string, now: real)
    : map<string, seq<real>>
  {
    var kept := Evict(BucketOf(buckets, key), now - window as real);
    buckets[key := if Verdict(buckets, limit, window, key, now) then kept + [now] else kept]
  }

  // ---------------------------------------------------------------- histories

  datatype Call = Check(key: string, now: real) | Reset(key: string)

  /** A limiter's settings and the calls it has served. */
  datatype Config = Config(limit: int, window: int)

  function Served(c: Config, buckets: map<string, seq<real>>, call: Call): map<string, seq<real>> {
    match call
    case Check(key, now) => Checked(buckets, c.limit, c.window, key, now)
    case Reset(key) => buckets - {key}
  }

  function BucketsAfter(c: Config, calls: seq<Call>): map<string, seq<real>> {
    if calls == [] then map[] else Served(c, BucketsAfter(c, calls[..|calls| - 1]), calls[|calls| - 1])
  }

  predicate Allowed(c: Config, calls: seq<Call>, key: string, now: real) {
    Verdict(BucketsAfter(c, calls), c.limit, c.window, key, now)
  }

  /** No earlier call read a later clock. */
  predicate NotBefore(calls: seq<Call>, now: real) {
    forall i | 0 <= i < |calls| && calls[i].Check? :: calls[i].now <= now
  }

  predicate ClockNonDecreasing(calls: seq<Call>) {
    forall i, j | 0 <= i < j < |calls| && calls[i].Check? && calls[j].Check? :: calls[i].now <= calls[j].now
  }

  lemma ClockOfFront(calls: seq<Call>, now: real)
    requires calls != [] && ClockNonDecreasing(calls) && NotBefore(calls, now)
    ensures var front, last := calls[..|calls| - 1], calls[|calls| - 1];
            var at := if last.Check? then last.now else now;
            ClockNonDecreasing(front) && NotBefore(front, at) && at <= now
  {
  }

  // ---------------------------------------------------------------- the simple limiter

  function CountIn(times: seq<real>, lo: real, hi: real): nat {
    if times == [] then 0
    else CountIn(times[..|times| - 1], lo, hi) + if lo <= times[|times| - 1] <= hi then 1 else 0
  }

  /** The limiter without a deque: it counts, in the full history, the key's allowed calls within the window. */
  predicate SimplyAllowed(c: Config, calls: seq<Call>, key: string, now: real) {
    CountIn(AllowedSinceReset(c, calls, key), now - c.window as real, now) < c.limit
  }

  /** What a call adds to the key's allowed calls. */
  function Extended(c: Config, before: seq<real>, call: Call, key: string): seq<real> {
    match call
    case Check(k, now) =>
      if k == key && CountIn(before, now - c.window as real, now) < c.limit then before + [now] else before
    case Reset(k) => if k == key then [] else before
  }

  /** The key's allowed calls since its last reset, as the simple limiter sees them. */
  function AllowedSinceReset(c: Config, calls: seq<Call>, key: string): seq<real> {
    if calls == [] then []
    else Extended(c, AllowedSinceReset(c, calls[..|calls| - 1], key), calls[|calls| - 1], key)
  }

  predicate Sorted(times: seq<real>) {
    forall i, j | 0 <= i < j < |times| :: times[i] <= times[j]
  }

  lemma {:induction false} CountNone(times: seq<real>, lo: real, hi: real)
    requires forall i | 0 <= i < |times| :: times[i] < lo
    ensures CountIn(times, lo, hi) == 0
  {
    if times != [] {
      CountNone(times[..|times| - 1], lo, hi);
    }
  }

  lemma {:induction false} CountAll(times: seq<real>, lo: real, hi: real)
    requires forall i | 0 <= i < |times| :: lo <= times[i] <= hi
    ensures CountIn(times, lo, hi) == |times|
  {
    if times != [] {
      CountAll(times[..|times| - 1], lo, hi);
    }
  }

  lemma {:induction false} CountSplit(a: seq<real>, b: seq<real>, lo: real, hi: real)
    ensures CountIn(a + b, lo, hi) == CountIn(a, lo, hi) + CountIn(b, lo, hi)
  {
    if b == [] {
      assert a + b == a;
    } else {
      CountSplit(a, b[..|b| - 1], lo, hi);
      assert (a + b)[..|a + b| - 1] == a + b[..|b| - 1];
    }
  }

  /** Eviction drops a prefix of expired timestamps and nothing else. */
  lemma {:induction false} EvictDropsExpired(bucket: seq<real>, cutoff: real) returns (n: nat)
    requires Sorted(bucket)
    ensures n <= |bucket| && Evict(bucket, cutoff) == bucket[n..]
    ensures AllExpired(bucket[..n], cutoff) && NoneExpired(bucket[n..], cutoff)
  {
    n := 0;
    if bucket != [] && bucket[0] < cutoff {
      var m := EvictDropsExpired(bucket[1..], cutoff);
      n := m + 1;
      assert bucket[..n] == [bucket[0]] + bucket[1..][..m];
      assert bucket[n..] == bucket[1..][m..];
    }
  }

  predicate UpTo(times: seq<real>, now: real) {
    forall i | 0 <= i < |times| :: times[i] <= now
  }

  predicate AllExpired(times: seq<real>, cutoff: real) {
    forall i | 0 <= i < |times| :: times[i] < cutoff
  }

  predicate NoneExpired(times: seq<real>, cutoff: real) {
    forall i | 0 <= i < |times| :: times[i] >= cutoff
  }

  /** The deque is the tail of the allowed calls that follows `n` expired ones. */
  predicate Retains(bucket: seq<real>, times: seq<real>, n: nat, horizon: real) {
    && n <= |times| && bucket == times[n..]
    && AllExpired(times[..n], horizon)
  }

  lemma CountSuffix(times: seq<real>, m: nat, cutoff: real, now: real)
    requires m <= |times| && AllExpired(times[..m], cutoff) && NoneExpired(times[m..], cutoff) && UpTo(times, now)
    ensures CountIn(times, cutoff, now) == |times| - m
  {
    assert times == times[..m] + times[m..];
    CountSplit(times[..m], times[m..], cutoff, now);
    CountNone(times[..m], cutoff, now);
    CountAll(times[m..], cutoff, now);
  }

  lemma ExpiredAppend(a: seq<real>, b: seq<real>, cutoff: real)
    requires AllExpired(a, cutoff) && AllExpired(b, cutoff)
    ensures AllExpired(a + b, cutoff)
  {
  }

  lemma SortedTail(times: seq<real>, n: nat)
    requires Sorted(times) && n <= |times|
    ensures Sorted(times[n..])
  {
  }

  lemma RetainedVerdict(bucket: seq<real>, times: seq<real>, n: nat, cutoff: real, now: real) returns (m: nat)
    requires Retains(bucket, times, n, cutoff) && Sorted(times) && UpTo(times, now)
    ensures Retains(Evict(bucket, cutoff), times, m, cutoff)
    ensures |Evict(bucket, cutoff)| == CountIn(times, cutoff, now)
  {
    SortedTail(times, n);
    var k := EvictDropsExpired(bucket, cutoff);
    m := n + k;
    ExpiredAppend(times[..n], bucket[..k], cutoff);
    assert times[..m] == times[..n] + bucket[..k];
    assert times[m..] == bucket[k..];
    CountSuffix(times, m, cutoff, now);
  }

  /** The deque of `key` against the key's allowed calls, of which `n` were evicted. */
  predicate Refined(bucket: seq<real>, times: seq<real>, n: nat, window: int, now: real) {
    Retains(bucket, times, n, now - window as real) && Sorted(times) && UpTo(times, now)
  }

  lemma RefinedLater(bucket: seq<real>, times: seq<real>, n: nat, window: int, at: real, now: real)
    requires Refined(bucket, times, n, window, at) && at <= now
    ensures Refined(bucket, times, n, window, now)
  {
  }

  lemma RefinedCheck(c: Config, bucket: seq<real>, times: seq<real>, n: nat, now: real) returns (m: nat)
    requires Refined(bucket, times, n, c.window, now)
    ensures var kept := Evict(bucket, now - c.window as real);
            && (|kept| < c.limit <==> CountIn(times, now - c.window as real, now) < c.limit)
            && Refined(kept, times, m, c.window, now)
            && Refined(kept + [now], times + [now], m, c.window, now)
  {
    m := RetainedVerdict(bucket, times, n, now - c.window as real, now);
    assert (times + [now])[..m] == times[..m];
  }

  lemma RefinedReset(window: int, now: real)
    ensures Refined([], [], 0, window, now)
  {
  }

  /** One call keeps every key's deque in line with its allowed calls. */
  lemma RefinedCall(
    c: Config, buckets: map<string, seq<real>>, times: seq<real>, n: nat, call: Call, key: string, now: real)
    returns (m: nat)
    requires Refined(BucketOf(buckets, key), times, n, c.window, now) && (call.Check? ==> call.now == now)
    ensures Refined(BucketOf(Served(c, buckets, call), key), Extended(c, times, call, key), m, c.window, now)
  {
    hide Refined, Evict, CountIn;
    m := n;
    if call.key == key {
      if call.Check? {
        m := RefinedCheck(c, BucketOf(buckets, key), times, n, now);
      } else {
        m := 0;
        RefinedReset(c.window, now);
      }
    }
  }

  /**
   The deque refines the full history: what was evicted, followed by what the deque retains, is
   the list of the key's allowed calls since its last reset, and everything evicted is expired.
   */
  lemma {:induction false} EvictedPlusRetained(c: Config, calls: seq<Call>, key: string, now: real) returns (n: nat)
    requires ClockNonDecreasing(calls) && NotBefore(calls, now)
    ensures Refined(BucketOf(BucketsAfter(c, calls), key), AllowedSinceReset(c, calls, key), n, c.window, now)
  {
    n := 0;
    if calls != [] {
      hide Refined, Extended, Served, ClockNonDecreasing, NotBefore;
      ClockOfFront(calls, now);
      var front, last := calls[..|calls| - 1], calls[|calls| - 1];
      var at := if last.Check? then last.now else now;
      n := EvictedPlusRetained(c, front, key, at);
      n := RefinedCall(c, BucketsAfter(c, front), AllowedSinceReset(c, front, key), n, last, key, at);
      RefinedLater(BucketOf(BucketsAfter(c, calls), key), AllowedSinceReset(c, calls, key), n, c.window, at, now);
    }
  }

  /** On a non-decreasing clock the deque limiter and the simple one give the same verdicts. */
  lemma DequeRefinesFullHistory(c: Config, calls: seq<Call>, key: string, now: real)
    requires ClockNonDecreasing(calls) && NotBefore(calls, now)
    ensures Allowed(c, calls, key, now) <==> SimplyAllowed(c, calls, key, now)
  {
    var n := EvictedPlusRetained(c, calls, key, now);
    n := RetainedVerdict(BucketOf(BucketsAfter(c, calls), key), AllowedSinceReset(c, calls, key), n,
                         now - c.window as real, now);
  }

  // ---------------------------------------------------------------- keys are isolated

  function OwnCalls(calls: seq<Call>, key: string): seq<Call> {
    if calls == [] then []
    else OwnCalls(calls[..|calls| - 1], key) + if calls[|calls| - 1].key == key then [calls[|calls| - 1]] else []
  }

  lemma {:induction false} OwnBucket(c: Config, calls: seq<Call>, key: string)
    ensures BucketOf(BucketsAfter(c, OwnCalls(calls, key)), key) == BucketOf(BucketsAfter(c, calls), key)
  {
    if calls != [] {
      var front, last := calls[..|calls| - 1], calls[|calls| - 1];
      OwnBucket(c, front, key);
      var own := OwnCalls(front, key);
      if last.key == key {
        assert (own + [last])[..|own|] == own;
      } else {
        assert own + [] == own;
      }
    }
  }

  /** A verdict depends on the key's own calls only, whatever the clock does. */
  lemma KeysAreIsolated(c: Config, calls: seq<Call>, key: string, now: real)
    ensures Allowed(c, OwnCalls(calls, key), key, now) <==> Allowed(c, calls, key, now)
  {
    OwnBucket(c, calls, key);
  }

  // ---------------------------------------------------------------- how many calls get through

  predicate NeverReset(calls: seq<Call>, key: string) {
    forall i | 0 <= i < |calls| :: calls[i] != Reset(key)
  }

  /** When the limiter said yes to the key. */
  function AllowedTimes(c: Config, calls: seq<Call>, key: string): seq<real> {
    if calls == [] then []
    else
      var front, last := calls[..|calls| - 1], calls[|calls| - 1];
      AllowedTimes(c, front, key) +
      if last.Check? && last.key == key && Allowed(c, front, key, last.now) then [last.now] else []
  }

  lemma ClockAtLast(calls: seq<Call>)
    requires calls != [] && ClockNonDecreasing(calls)
    ensures var front, last := calls[..|calls| - 1], calls[|calls| - 1];
            ClockNonDecreasing(front) && (last.Check? ==> NotBefore(front, last.now))
  {
  }

  lemma {:induction false} AllowedTimesAreSinceReset(c: Config, calls: seq<Call>, key: string)
    requires ClockNonDecreasing(calls) && NeverReset(calls, key)
    ensures AllowedTimes(c, calls, key) == AllowedSinceReset(c, calls, key)
  {
    if calls != [] {
      ClockAtLast(calls);
      hide ClockNonDecreasing, NotBefore, Allowed, CountIn;
      var front, last := calls[..|calls| - 1], calls[|calls| - 1];
      AllowedTimesAreSinceReset(c, front, key);
      if last.Check? {
        DequeRefinesFullHistory(c, front, last.key, last.now);
      }
    }
  }

  /** Allowed calls that are `limit` or more places apart are more than a window apart. */
  predicate Spaced(c: Config, times: seq<real>) {
    && (times != [] ==> c.limit > 0)
    && forall i, j | 0 <= i < j < |times| && j - i >= c.limit :: times[i] < times[j] - c.window as real
  }

  lemma CountFrom(times: seq<real>, k: nat, lo: real, hi: real)
    requires Sorted(times) && k < |times| && lo <= times[k] && UpTo(times, hi)
    ensures CountIn(times, lo, hi) >= |times| - k
  {
    assert times == times[..k] + times[k..];
    CountSplit(times[..k], times[k..], lo, hi);
    CountAll(times[k..], lo, hi);
  }

  predicate InStep(c: Config, times: seq<real>, now: real) {
    Spaced(c, times) && Sorted(times) && UpTo(times, now)
  }

  lemma InStepLater(c: Config, times: seq<real>, at: real, now: real)
    requires InStep(c, times, at) && at <= now
    ensures InStep(c, times, now)
  {
  }

  /** A call that passes has fewer than `limit` allowed calls in its window, so it keeps the spacing. */
  lemma PassingKeepsSpaced(c: Config, times: seq<real>, now: real)
    requires InStep(c, times, now) && CountIn(times, now - c.window as real, now) < c.limit
    ensures InStep(c, times + [now], now)
  {
    var k := |times| - c.limit;
    var cutoff := now - c.window as real;
    if k >= 0 && times[k] >= cutoff {
      CountFrom(times, k, cutoff, now);
      assert false;
    }
    hide CountIn;
    forall i | 0 <= i < |times| && |times| - i >= c.limit ensures times[i] < cutoff {
      assert times[i] <= times[k];
    }
  }

  lemma CallKeepsInStep(c: Config, before: seq<real>, call: Call, key: string, now: real)
    requires InStep(c, before, now) && call != Reset(key) && (call.Check? ==> call.now == now)
    ensures InStep(c, Extended(c, before, call, key), now)
  {
    hide InStep, CountIn;
    if call.Check? && call.key == key && CountIn(before, now - c.window as real, now) < c.limit {
      PassingKeepsSpaced(c, before, now);
    }
  }

  lemma {:induction false} AllowedAreSpaced(c: Config, calls: seq<Call>, key: string, now: real)
    requires ClockNonDecreasing(calls) && NotBefore(calls, now) && NeverReset(calls, key)
    ensures InStep(c, AllowedSinceReset(c, calls, key), now)
  {
    if calls != [] {
      hide InStep, Extended, ClockNonDecreasing, NotBefore;
      ClockOfFront(calls, now);
      var front, last := calls[..|calls| - 1], calls[|calls| - 1];
      var at := if last.Check? then last.now else now;
      AllowedAreSpaced(c, front, key, at);
      CallKeepsInStep(c, AllowedSinceReset(c, front, key), last, key, at);
      InStepLater(c, AllowedSinceReset(c, calls, key), at, now);
    }
  }

  /** More than `k` sorted values within an interval: the interval holds two that are `k` places apart. */
  lemma {:induction false} CountSpans(times: seq<real>, lo: real, hi: real, k: nat) returns (f: nat)
    requires Sorted(times) && CountIn(times, lo, hi) > k
    ensures f + k < |times| && lo <= times[f] && times[f + k] <= hi
  {
    var front, last := times[..|times| - 1], times[|times| - 1];
    if !(lo <= last <= hi) {
      f := CountSpans(front, lo, hi, k);
    } else if k == 0 {
      f := |times| - 1;
    } else {
      f := CountSpans(front, lo, hi, k - 1);
    }
  }

  /** `q` times `limit` calls apart means more than `q` windows apart. */
  lemma {:induction false} FarApart(c: Config, times: seq<real>, f: nat, q: nat)
    requires Spaced(c, times) && c.limit > 0 && q > 0
    requires f + c.limit * q < |times|
    ensures times[f] + (q * c.window) as real < times[f + c.limit * q]
  {
    var j := f + c.limit * q;
    if q > 1 {
      assert c.limit * (q - 1) == c.limit * q - c.limit;
      FarApart(c, times, f, q - 1);
      assert q * c.window == (q - 1) * c.window + c.window;
    } else {
      assert c.limit * 1 == c.limit;
    }
    assert 0 <= c.limit * q - c.limit;
    assert times[j - c.limit] < times[j] - c.window as real;
  }

  /** A limit below zero admits nobody, like zero. */
  function Quota(c: Config): nat {
    if c.limit > 0 then c.limit else 0
  }

  lemma SpacedInWindow(c: Config, times: seq<real>, start: real)
    requires Spaced(c, times) && Sorted(times)
    ensures CountIn(times, start, start + c.window as real) <= Quota(c)
  {
    if CountIn(times, start, start + c.window as real) > Quota(c) {
      var f := CountSpans(times, start, start + c.window as real, Quota(c));
      assert false;
    }
  }

  lemma SpacedInInterval(c: Config, times: seq<real>, start: real, span: real, q: nat)
    requires Spaced(c, times) && Sorted(times) && q > 0 && span < (q * c.window) as real
    ensures CountIn(times, start, start + span) <= Quota(c) * q
  {
    assert Quota(c) * q >= 0;
    if CountIn(times, start, start + span) > Quota(c) * q {
      var f := CountSpans(times, start, start + span, Quota(c) * q);
      FarApart(c, times, f, q);
      assert false;
    }
  }

  lemma AllowedTimesAreSpaced(c: Config, calls: seq<Call>, key: string)
    requires ClockNonDecreasing(calls) && NeverReset(calls, key)
    ensures Spaced(c, AllowedTimes(c, calls, key)) && Sorted(AllowedTimes(c, calls, key))
  {
    var now := LatestClock(calls);
    AllowedTimesAreSinceReset(c, calls, key);
    AllowedAreSpaced(c, calls, key, now);
    hide AllowedTimes, AllowedSinceReset, Sorted, Spaced;
  }

  /** Wherever it starts, a closed window contains at most `limit` allowed calls of a key. */
  lemma EveryWindowWithinLimit(c: Config, calls: seq<Call>, key: string, start: real)
    requires ClockNonDecreasing(calls) && NeverReset(calls, key)
    ensures CountIn(AllowedTimes(c, calls, key), start, start + c.window as real) <= Quota(c)
  {
    hide Spaced, Sorted, AllowedTimes, CountIn;
    AllowedTimesAreSpaced(c, calls, key);
    SpacedInWindow(c, AllowedTimes(c, calls, key), start);
  }

  /** Over any closed interval of length `span`, at most `limit * (floor(span / window) + 1)` calls get through. */
  lemma EveryIntervalBounded(c: Config, calls: seq<Call>, key: string, start: real, span: real)
    requires ClockNonDecreasing(calls) && NeverReset(calls, key) && c.window > 0 && span >= 0.0
    ensures CountIn(AllowedTimes(c, calls, key), start, start + span)
            <= Quota(c) * ((span / c.window as real).Floor + 1)
  {
    hide Spaced, Sorted, AllowedTimes, CountIn;
    var q := (span / c.window as real).Floor + 1;
    WindowsCover(span, c.window, q);
    AllowedTimesAreSpaced(c, calls, key);
    SpacedInInterval(c, AllowedTimes(c, calls, key), start, span, q);
  }

  lemma WindowsCover(span: real, window: int, q: int)
    requires window > 0 && span >= 0.0 && q == (span / window as real).Floor + 1
    ensures q > 0 && span < (q * window) as real
  {
    var w := window as real;
    var x := span / w;
    assert x * w == span;
    assert x < q as real;
    assert x * w < q as real * w;
    assert (q * window) as real == q as real * w;
  }

  lemma {:induction false} LatestClock(calls: seq<Call>) returns (now: real)
    ensures NotBefore(calls, now)
  {
    now := 0.0;
    if calls != [] {
      now := LatestClock(calls[..|calls| - 1]);
      var last := calls[|calls| - 1];
      if last.Check? && last.now > now {
        now := last.now;
      }
    }
  }
}
