/** The in-memory sliding window and the Redis fixed window. Times are integer clock ticks. */
module RateLimit {

  /** Accepted times in the half-open window (lo, hi]. */
  function Count(times: seq<int>, lo: int, hi: int): nat {
    if times == [] then 0
    else Count(times[..|times| - 1], lo, hi) + if lo < times[|times| - 1] <= hi then 1 else 0
  }

  predicate Clock(times: seq<int>) {
    forall i, j :: 0 <= i < j < |times| ==> times[i] <= times[j]
  }

  predicate UpTo(times: seq<int>, hi: int) {
    forall i :: 0 <= i < |times| ==> times[i] <= hi
  }

  // ----- the sliding window

  /** The limiter's promise: a request is accepted when the window ending now holds fewer than `maxHits`. */
  function Accepted(hits: seq<int>, maxHits: int, window: int): seq<int> {
    if hits == [] then []
    else
      var before, now := Accepted(hits[..|hits| - 1], maxHits, window), hits[|hits| - 1];
      if Count(before, now - window, now) < maxHits then before + [now] else before
  }

  /** What the deque keeps: the times after the cutoff, once older ones are popped from its left end. */
  function Pruned(bucket: seq<int>, cutoff: int): seq<int> {
    if bucket != [] && bucket[0] <= cutoff then Pruned(bucket[1..], cutoff) else bucket
  }

  function BucketAfter(hits: seq<int>, maxHits: int, window: int): seq<int> {
    if hits == [] then []
    else
      var now := hits[|hits| - 1];
      var kept := Pruned(BucketAfter(hits[..|hits| - 1], maxHits, window), now - window);
      if |kept| >= maxHits then kept else kept + [now]
  }

  class MemoryLimiter {
    var buckets: map<string, seq<int>>

    constructor ()
      ensures buckets == map[]
    {
      buckets := map[];
    }

    method Enforce(key: string, maxHits: int, window: int, now: int) returns (allowed: bool)
      modifies this
      ensures var bucket := if key in old(buckets) then old(buckets)[key] else [];
              var kept := Pruned(bucket, now - window);
              && (allowed <==> |kept| < maxHits)
              && buckets == old(buckets)[key := if allowed then kept + [now] else kept]
      ensures forall hits ::
        (if key in old(buckets) then old(buckets)[key] else []) == BucketAfter(hits, maxHits, window)
        ==> buckets[key] == BucketAfter(hits + [now], maxHits, window)
    {
      var bucket := if key in buckets then buckets[key] else [];
      ghost var all := bucket;
      forall hits | all == BucketAfter(hits, maxHits, window)
        ensures var kept := Pruned(all, now - window);
                BucketAfter(hits + [now], maxHits, window) == if |kept| >= maxHits then kept else kept + [now]
      {
        assert (hits + [now])[..|hits|] == hits;
      }
      while bucket != [] && bucket[0] <= now - window
        invariant Pruned(bucket, now - window) == Pruned(all, now - window)
        decreases |bucket|
      {
        bucket := bucket[1..];
      }
      if |bucket| >= maxHits {
        buckets := buckets[key := bucket];
        return false;
      }
      buckets := buckets[key := bucket + [now]];
      allowed := true;
    }
  }

  lemma {:induction false} PrunedTwice(a: seq<int>, lo: int, hi: int)
    requires lo <= hi
    ensures Pruned(Pruned(a, lo), hi) == Pruned(a, hi)
  {
    if a != [] && a[0] <= lo {
      PrunedTwice(a[1..], lo, hi);
    }
  }

  lemma {:induction false} PrunedAppend(a: seq<int>, x: int, cutoff: int)
    requires cutoff < x
    ensures Pruned(a + [x], cutoff) == Pruned(a, cutoff) + [x]
  {
    if a != [] && a[0] <= cutoff {
      assert (a + [x])[1..] == a[1..] + [x];
      PrunedAppend(a[1..], x, cutoff);
    }
  }

  lemma {:induction false} CountFront(x: int, a: seq<int>, lo: int, hi: int)
    ensures Count([x] + a, lo, hi) == Count(a, lo, hi) + if lo < x <= hi then 1 else 0
  {
    if a == [] {
      assert [x] + a == [x] && [x][..0] == [];
    } else {
      assert ([x] + a)[..|a|] == [x] + a[..|a| - 1];
      CountFront(x, a[..|a| - 1], lo, hi);
    }
  }

  /** On a clock that never runs backwards, the deque's length is the count of the current window. */
  lemma {:induction false} PrunedCounts(a: seq<int>, lo: int, hi: int)
    requires Clock(a) && UpTo(a, hi)
    ensures |Pruned(a, lo)| == Count(a, lo, hi)
  {
    if a != [] {
      assert a == [a[0]] + a[1..];
      CountFront(a[0], a[1..], lo, hi);
      PrunedCounts(a[1..], lo, hi);
      if a[0] > lo {
        PrunedAll(a[1..], lo);
      }
    }
  }

  lemma PrunedAll(a: seq<int>, lo: int)
    requires a != [] ==> a[0] > lo
    ensures Pruned(a, lo) == a
  {
  }

  lemma AppendClock(a: seq<int>, x: int)
    requires Clock(a) && UpTo(a, x)
    ensures Clock(a + [x]) && UpTo(a + [x], x)
  {
  }

  lemma ClockPrefix(hits: seq<int>, now: int)
    requires Clock(hits) && UpTo(hits, now) && hits != []
    ensures var init, last := hits[..|hits| - 1], hits[|hits| - 1]; Clock(init) && UpTo(init, last) && last <= now
  {
  }

  lemma UpToLater(a: seq<int>, lo: int, hi: int)
    requires UpTo(a, lo) && lo <= hi
    ensures UpTo(a, hi)
  {
  }

  lemma {:induction false} AcceptedUpTo(hits: seq<int>, maxHits: int, window: int, now: int)
    requires Clock(hits) && UpTo(hits, now)
    ensures Clock(Accepted(hits, maxHits, window)) && UpTo(Accepted(hits, maxHits, window), now)
  {
    if hits != [] {
      var init, last := hits[..|hits| - 1], hits[|hits| - 1];
      ClockPrefix(hits, now);
      AcceptedUpTo(init, maxHits, window, last);
      AppendClock(Accepted(init, maxHits, window), last);
      UpToLater(Accepted(hits, maxHits, window), last, now);
    }
  }

  lemma PrunedHistory(before: seq<int>, last: int, maxHits: int, window: int, now: int)
    requires Clock(before) && UpTo(before, last) && last <= now && window > 0
    ensures var kept := Pruned(before, last - window);
            Pruned(if |kept| >= maxHits then kept else kept + [last], now - window)
            == Pruned(if Count(before, last - window, last) < maxHits then before + [last] else before, now - window)
  {
    PrunedCounts(before, last - window, last);
    PrunedTwice(before, last - window, now - window);
    PrunedAppend(before, last, last - window);
    PrunedTwice(before + [last], last - window, now - window);
  }

  /** The deque, pruned for the next request, is the accepted history pruned for it. */
  lemma {:induction false} DequeIsHistory(hits: seq<int>, maxHits: int, window: int, now: int)
    requires Clock(hits) && UpTo(hits, now) && window > 0
    ensures Pruned(BucketAfter(hits, maxHits, window), now - window)
        == Pruned(Accepted(hits, maxHits, window), now - window)
  {
    if hits != [] {
      var init, last := hits[..|hits| - 1], hits[|hits| - 1];
      ClockPrefix(hits, now);
      DequeIsHistory(init, maxHits, window, last);
      AcceptedUpTo(init, maxHits, window, last);
      PrunedHistory(Accepted(init, maxHits, window), last, maxHits, window, now);
    }
  }

  /** The deque refines the promise: it accepts a request exactly when the window ending at that request
      holds fewer than `maxHits` accepted ones. */
  lemma DequeRefinesWindow(hits: seq<int>, maxHits: int, window: int, now: int)
    requires Clock(hits) && UpTo(hits, now) && window > 0
    ensures |Pruned(BucketAfter(hits, maxHits, window), now - window)| < maxHits
            <==> Count(Accepted(hits, maxHits, window), now - window, now) < maxHits
  {
    DequeIsHistory(hits, maxHits, window, now);
    AcceptedUpTo(hits, maxHits, window, now);
    PrunedCounts(Accepted(hits, maxHits, window), now - window, now);
  }

  lemma {:induction false} CountShift(a: seq<int>, lo: int, hi: int, lo': int, hi': int)
    requires lo <= lo' && UpTo(a, hi)
    ensures Count(a, lo', hi') <= Count(a, lo, hi)
  {
    if a != [] {
      CountShift(a[..|a| - 1], lo, hi, lo', hi');
    }
  }

  /** Every window of the given length, wherever it ends, holds at most `maxHits` accepted requests. */
  lemma {:induction false} WindowBound(hits: seq<int>, maxHits: int, window: int, t: int)
    requires Clock(hits) && window > 0
    ensures Count(Accepted(hits, maxHits, window), t - window, t) <= if maxHits > 0 then maxHits else 0
  {
    if hits != [] {
      var init, now := hits[..|hits| - 1], hits[|hits| - 1];
      WindowBound(init, maxHits, window, t);
      AcceptedUpTo(init, maxHits, window, now);
      var before := Accepted(init, maxHits, window);
      var after := Accepted(hits, maxHits, window);
      if after != before {
        assert after[..|after| - 1] == before;
        if t - window < now <= t {
          CountShift(before, now - window, now, t - window, t);
        }
      }
    }
  }

  // ----- the fixed window

  /** One Redis counter: its value, and when it expires. */
  datatype Counter = Counter(hits: nat, expires: int)

  function Bucket(now: int, window: int): int
    requires window > 0
  {
    now / window
  }

  function Incremented(counters: map<int, Counter>, now: int, window: int): Counter
    requires window > 0
  {
    var k := Bucket(now, window);
    var hits := if k in counters && counters[k].expires > now then counters[k].hits + 1 else 1;
    Counter(hits, if hits == 1 then now + window + 5 else counters[k].expires)
  }

  class RedisLimiter {
    var counters: map<int, Counter>

    constructor ()
      ensures counters == map[]
    {
      counters := map[];
    }

    method Enforce(maxHits: int, window: int, now: int) returns (allowed: bool)
      requires window > 0
      modifies this
      ensures counters == old(counters)[Bucket(now, window) := Incremented(old(counters), now, window)]
      ensures allowed <==> Incremented(old(counters), now, window).hits <= maxHits
    {
      var k := now / window;
      var live := k in counters && counters[k].expires > now;
      var hits := if live then counters[k].hits + 1 else 1;
      counters := counters[k := Counter(hits, if hits == 1 then now + window + 5 else counters[k].expires)];
      allowed := hits <= maxHits;
    }
  }

  datatype Fixed = Fixed(counters: map<int, Counter>, accepted: seq<int>)

  function FixedAfter(hits: seq<int>, maxHits: int, window: int): Fixed
    requires window > 0
  {
    if hits == [] then Fixed(map[], [])
    else
      var before, now := FixedAfter(hits[..|hits| - 1], maxHits, window), hits[|hits| - 1];
      var c := Incremented(before.counters, now, window);
      Fixed(before.counters[Bucket(now, window) := c],
            if c.hits <= maxHits then before.accepted + [now] else before.accepted)
  }

  function InBucket(times: seq<int>, k: int, window: int): nat
    requires window > 0
  {
    if times == [] then 0
    else InBucket(times[..|times| - 1], k, window) + if Bucket(times[|times| - 1], window) == k then 1 else 0
  }

  /** A counter outlives its own window, so within a window it is never reset, and no window accepts more
      than `maxHits`. */
  lemma {:induction false} BucketBound(hits: seq<int>, maxHits: int, window: int, k: int)
    requires window > 0
    ensures var f := FixedAfter(hits, maxHits, window);
            && InBucket(f.accepted, k, window) <= (if maxHits > 0 then maxHits else 0)
            && (k in f.counters ==> InBucket(f.accepted, k, window) <= f.counters[k].hits
                                    && f.counters[k].expires >= (k + 1) * window && f.counters[k].hits >= 1)
            && (k !in f.counters ==> InBucket(f.accepted, k, window) == 0)
  {
    if hits != [] {
      var init, now := hits[..|hits| - 1], hits[|hits| - 1];
      BucketBound(init, maxHits, window, k);
      var before, f := FixedAfter(init, maxHits, window), FixedAfter(hits, maxHits, window);
      BucketHolds(now, window);
      if f.accepted != before.accepted {
        assert f.accepted[..|f.accepted| - 1] == before.accepted;
      }
    }
  }

  lemma BucketHolds(now: int, window: int)
    requires window > 0
    ensures Bucket(now, window) * window <= now < Bucket(now, window) * window + window
    ensures (Bucket(now, window) + 1) * window == Bucket(now, window) * window + window
  {
  }

  lemma MultipleGap(a: int, b: int, window: int)
    requires window > 0 && a < b
    ensures a * window + window <= b * window
  {
    var gap := b - a - 1;
    assert gap * window >= 0;
    assert b * window == a * window + gap * window + window;
  }

  lemma NearbyBuckets(a: int, b: int, x: int, t: int, window: int)
    requires window > 0 && t - window < x <= t
    requires a * window <= x < a * window + window && b * window <= t < b * window + window
    ensures a == b - 1 || a == b
  {
    if a > b {
      MultipleGap(b, a, window);
    } else if a < b - 1 {
      MultipleGap(a, b - 1, window);
      MultipleGap(b - 1, b, window);
    }
  }

  lemma TwoBuckets(x: int, t: int, window: int)
    requires window > 0 && t - window < x <= t
    ensures Bucket(x, window) in {Bucket(t, window) - 1, Bucket(t, window)}
  {
    BucketHolds(x, window);
    BucketHolds(t, window);
    NearbyBuckets(Bucket(x, window), Bucket(t, window), x, t, window);
  }

  lemma {:induction false} SpanBound(times: seq<int>, t: int, window: int)
    requires window > 0
    ensures Count(times, t - window, t)
            <= InBucket(times, Bucket(t, window) - 1, window) + InBucket(times, Bucket(t, window), window)
  {
    if times != [] {
      SpanBound(times[..|times| - 1], t, window);
      var x := times[|times| - 1];
      if t - window < x <= t {
        TwoBuckets(x, t, window);
      }
    }
  }

  /** The fixed window admits at most twice the limit in any interval of its length, on any clock. */
  lemma FixedWindowBound(hits: seq<int>, maxHits: int, window: int, t: int)
    requires window > 0
    ensures Count(FixedAfter(hits, maxHits, window).accepted, t - window, t) <= if maxHits > 0 then 2 * maxHits else 0
  {
    SpanBound(FixedAfter(hits, maxHits, window).accepted, t, window);
    BucketBound(hits, maxHits, window, Bucket(t, window) - 1);
    BucketBound(hits, maxHits, window, Bucket(t, window));
  }

  lemma BucketIs(now: int, window: int, k: int)
    requires window > 0 && k * window <= now < k * window + window
    ensures Bucket(now, window) == k
  {
    BucketHolds(now, window);
    NearbyBuckets(Bucket(now, window), k, now, now, window);
    NearbyBuckets(k, Bucket(now, window), now, now, window);
  }

  // ----- the bound is reached

  function Burst(now: int, n: nat): seq<int> { seq(n, _ => now) }

  /** A burst at one tick, `first` at most, and then a burst at the next. */
  function TwoBursts(window: int, first: nat, second: nat): (hits: seq<int>) {
    Burst(window - 1, first) + Burst(window, second)
  }

  lemma BurstGrows(now: int, n: nat)
    requires n > 0
    ensures Burst(now, n) == Burst(now, n - 1) + [now]
  {
  }

  /** One more hit in a window that has room: it is accepted, and only that window's counter moves. */
  lemma OneMoreAccepted(init: seq<int>, now: int, maxHits: nat, window: int, k: int, c: Counter)
    requires window > 0 && Bucket(now, window) == k && c.hits < maxHits && c.expires > now
    requires var before := FixedAfter(init, maxHits, window).counters;
             if c.hits == 0 then k !in before else k in before && before[k] == c
    ensures var before, f := FixedAfter(init, maxHits, window), FixedAfter(init + [now], maxHits, window);
            && f.accepted == before.accepted + [now]
            && var expires := if c.hits == 0 then now + window + 5 else c.expires;
               f.counters == before.counters[k := Counter(c.hits + 1, expires)]
  {
    assert (init + [now])[..|init|] == init;
  }

  lemma {:induction false} FirstBurst(window: int, maxHits: nat, n: nat)
    requires window > 1 && n <= maxHits
    ensures var f := FixedAfter(Burst(window - 1, n), maxHits, window);
            && f.accepted == Burst(window - 1, n)
            && f.counters == if n == 0 then map[] else map[0 := Counter(n, 2 * window + 4)]
  {
    if n == 0 {
      assert Burst(window - 1, 0) == [];
    } else {
      FirstBurst(window, maxHits, n - 1);
      BurstGrows(window - 1, n);
      BucketIs(window - 1, window, 0);
      OneMoreAccepted(Burst(window - 1, n - 1), window - 1, maxHits, window, 0, Counter(n - 1, 2 * window + 4));
    }
  }

  lemma {:induction false} SecondBurst(window: int, maxHits: nat, n: nat)
    requires window > 1 && n <= maxHits
    ensures var hits := TwoBursts(window, maxHits, n); var f := FixedAfter(hits, maxHits, window);
            && f.accepted == hits
            && (if n == 0 then 1 !in f.counters else 1 in f.counters && f.counters[1] == Counter(n, 2 * window + 5))
  {
    if n == 0 {
      FirstBurst(window, maxHits, maxHits);
      assert TwoBursts(window, maxHits, 0) == Burst(window - 1, maxHits);
    } else {
      SecondBurst(window, maxHits, n - 1);
      BurstGrows(window, n);
      assert TwoBursts(window, maxHits, n) == TwoBursts(window, maxHits, n - 1) + [window];
      BucketIs(window, window, 1);
      OneMoreAccepted(TwoBursts(window, maxHits, n - 1), window, maxHits, window, 1, Counter(n - 1, 2 * window + 5));
    }
  }

  lemma {:induction false} CountAll(times: seq<int>, lo: int, hi: int)
    requires forall i :: 0 <= i < |times| ==> lo < times[i] <= hi
    ensures Count(times, lo, hi) == |times|
  {
    if times != [] {
      CountAll(times[..|times| - 1], lo, hi);
    }
  }

  /** For every limit, twice the limit is reached: a full burst at the last tick of one window and another
      at the first tick of the next are all accepted, within one window's length. */
  lemma FixedWindowBoundIsTight(maxHits: nat, window: int)
    requires window > 1
    ensures var hits := TwoBursts(window, maxHits, maxHits);
            && FixedAfter(hits, maxHits, window).accepted == hits
            && Count(FixedAfter(hits, maxHits, window).accepted, 0, window) == 2 * maxHits
  {
    SecondBurst(window, maxHits, maxHits);
    CountAll(TwoBursts(window, maxHits, maxHits), 0, window);
  }
}
