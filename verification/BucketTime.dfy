/**
 Times and bucket starts of the time sampler (aggregator/time_sampler.go:52-58): alignment to the interval, and
 which buckets a cutoff closes.
 */
module BucketTime {

  function BucketStart(interval: int, t: real): int
    requires interval > 0
  {
    t.Floor - t.Floor % interval
  }

  predicate StillOpen(interval: int, bucket: int, cutoff: int) {
    bucket + interval > cutoff
  }

  predicate Aligned(interval: int, b: int)
    requires interval > 0
  {
    b % interval == 0
  }

  lemma MultipleOrder(x: int, y: int, n: int)
    requires x <= y && n > 0
    ensures Multiple(x, n) <= Multiple(y, n)
  {
  }

  function Multiple(q: int, n: int): int {
    q * n
  }

  lemma DivMod(a: int, n: int)
    requires n > 0
    ensures a == Multiple(a / n, n) + a % n && 0 <= a % n < n
  {
  }

  lemma NextMultiple(q: int, n: int)
    ensures Multiple(q + 1, n) == Multiple(q, n) + n
  {
  }

  /** A multiple of n leaves no remainder. */
  lemma MultipleAligned(q: int, n: int)
    requires n > 0
    ensures Aligned(n, Multiple(q, n))
  {
    var a := Multiple(q, n);
    DivMod(a, n);
    NextMultiple(a / n, n);
    if q < a / n {
      MultipleOrder(q, a / n - 1, n);
      NextMultiple(a / n - 1, n);
    } else if q > a / n {
      MultipleOrder(a / n + 1, q, n);
    }
  }

  lemma BucketStartHolds(interval: int, t: real)
    requires interval > 0 && t >= 0.0
    ensures Aligned(interval, BucketStart(interval, t))
    ensures 0 <= BucketStart(interval, t) && BucketStart(interval, t) as real <= t
    ensures t < (BucketStart(interval, t) + interval) as real
  {
    var f := t.Floor;
    DivMod(f, interval);
    MultipleAligned(f / interval, interval);
    MultipleOrder(0, f / interval, interval);
  }

  /** Aligned starts are at least an interval apart. */
  lemma AlignedGap(interval: int, a: int, b: int)
    requires interval > 0 && Aligned(interval, a) && Aligned(interval, b) && a < b
    ensures a + interval <= b
  {
    DivMod(a, interval);
    DivMod(b, interval);
    NextMultiple(a / interval, interval);
    if a / interval < b / interval {
      MultipleOrder(a / interval + 1, b / interval, interval);
    } else {
      MultipleOrder(b / interval, a / interval, interval);
    }
  }

  /** The start of t is the greatest aligned one up to t. */
  lemma BucketStartGreatest(interval: int, a: int, t: real)
    requires interval > 0 && t >= 0.0 && Aligned(interval, a) && a as real <= t
    ensures a <= BucketStart(interval, t)
  {
    BucketStartHolds(interval, t);
    if BucketStart(interval, t) < a {
      AlignedGap(interval, BucketStart(interval, t), a);
    }
  }

  /** Series and sketches close exactly the same buckets. */
  lemma SameClosing(interval: int, bucket: int, cutoff: int)
    requires interval > 0 && Aligned(interval, bucket) && Aligned(interval, cutoff)
    ensures StillOpen(interval, bucket, cutoff) <==> bucket >= cutoff
  {
    if bucket < cutoff {
      AlignedGap(interval, bucket, cutoff);
    }
  }

  lemma BucketsApart(interval: int, t: real, cut: int, u: real)
    requires interval > 0 && 0.0 <= t < cut as real <= u && Aligned(interval, cut)
    ensures BucketStart(interval, t) < BucketStart(interval, u)
  {
    BucketStartHolds(interval, t);
    BucketStartGreatest(interval, cut, u);
  }

  lemma BucketOfStamp(interval: int, b: int, ts: real)
    requires interval > 0 && 0 <= b && Aligned(interval, b) && b as real <= ts < (b + interval) as real
    ensures BucketStart(interval, ts) == b
  {
    BucketStartHolds(interval, ts);
    BucketStartGreatest(interval, b, ts);
    if b < BucketStart(interval, ts) {
      AlignedGap(interval, b, BucketStart(interval, ts));
    }
  }
}
