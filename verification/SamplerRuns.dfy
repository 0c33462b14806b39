/**
 Whole runs of the time sampler: what its buckets and sketches hold of the samples, and that every sample is
 reported by the flush that closes its bucket.
 */
module SamplerRuns {
  import opened BucketTime
  import opened TimeSampler
  import SketchMap

  /** The operation is a finite sample of this context in this bucket, of a distribution or not. */
  predicate SampleOf(c: Settings, op: Op, b: int, k: Key, dist: bool)
    requires c.interval > 0
  {
    op.SampleOp? && op.x.finite && op.x.key == k && op.x.kind.Distribution? == dist && BucketStart(c.interval, op.t) == b
  }

  /** Those samples of the first i operations, in order. */
  ghost function Samples(c: Settings, ops: seq<Op>, i: nat, b: int, k: Key, dist: bool): seq<Op>
    requires c.interval > 0 && i <= |ops|
  {
    if i == 0 then []
    else Samples(c, ops, i - 1, b, k, dist) + if SampleOf(c, ops[i - 1], b, k, dist) then [ops[i - 1]] else []
  }

  lemma {:induction false} SampleIsThere(c: Settings, ops: seq<Op>, i: nat, j: nat, b: int, k: Key, dist: bool)
    requires c.interval > 0 && j < i <= |ops| && SampleOf(c, ops[j], b, k, dist)
    ensures Samples(c, ops, i, b, k, dist) != []
  {
    if j < i - 1 {
      SampleIsThere(c, ops, i - 1, j, b, k, dist);
    }
  }

  ghost function ScaledSum(samples: seq<Op>): real {
    if samples == [] then 0.0
    else
      var last := samples[|samples| - 1];
      ScaledSum(samples[..|samples| - 1]) + if last.SampleOp? then last.x.scaled else 0.0
  }

  ghost function SampleValues(samples: seq<Op>): seq<real> {
    if samples == [] then []
    else
      var last := samples[|samples| - 1];
      SampleValues(samples[..|samples| - 1]) + if last.SampleOp? then [last.x.value] else []
  }

  /** The metric is what its samples make of it: a counter their scaled sum, a rate the last two of them (a sample at
      time zero does not count as the earlier one), any other metric all their values. Its type is the first one's. */
  ghost predicate Summarises(m: Metric, samples: seq<Op>) {
    samples != [] && samples[0].SampleOp? && samples[|samples| - 1].SampleOp? &&
    var first, last := samples[0].x.kind, samples[|samples| - 1];
    match m
    case Counter(total) => first.CounterKind? && total == ScaledSum(samples)
    case Rate(ps, pt, v, ts) =>
      && first.RateKind? && v == last.x.value && ts == last.t
      && (|samples| == 1 ==> ps == 0.0 && pt == 0.0)
      && (|samples| >= 2 && samples[|samples| - 2].SampleOp? && samples[|samples| - 2].t != 0.0 ==>
            ps == samples[|samples| - 2].x.value && pt == samples[|samples| - 2].t)
    case Other(name, values) => !first.CounterKind? && !first.RateKind? && values == SampleValues(samples)
  }

  lemma SumSnoc(samples: seq<Op>, op: Op)
    requires op.SampleOp?
    ensures ScaledSum(samples + [op]) == ScaledSum(samples) + op.x.scaled
    ensures SampleValues(samples + [op]) == SampleValues(samples) + [op.x.value]
  {
    assert (samples + [op])[..|samples|] == samples;
  }

  lemma FirstSummarises(op: Op)
    requires op.SampleOp? && !op.x.kind.Distribution?
    ensures Summarises(Fed(NewMetric(op.x.kind), op.x.value, op.x.scaled, op.t), [op])
  {
    SumSnoc([], op);
    assert [] + [op] == [op];
  }

  lemma NextSummarises(m: Metric, samples: seq<Op>, op: Op)
    requires Summarises(m, samples) && op.SampleOp?
    ensures Summarises(Fed(m, op.x.value, op.x.scaled, op.t), samples + [op])
  {
    SumSnoc(samples, op);
  }

  // ---- what buckets and sketches hold ----

  /** The samples of a bucket that is not yet due are in it. */
  ghost predicate BucketHolds(s: Sampler, b: int, k: Key, samples: seq<Op>) {
    && (b in s.buckets && k in s.buckets[b] ==> Summarises(s.buckets[b][k], samples))
    && (s.lastCutoff <= b && samples != [] ==> b in s.buckets && k in s.buckets[b])
  }

  ghost predicate SketchHolds(s: Sampler, b: int, k: Key, samples: seq<Op>) {
    && (b in s.sketches && k in s.sketches[b] ==> s.sketches[b][k] == SampleValues(samples) && samples != [])
    && (s.lastCutoff <= b && samples != [] ==> b in s.sketches && k in s.sketches[b])
  }

  lemma SampleKeepsBucket(c: Settings, s: Sampler, now: real, op: Op, b: int, k: Key, samples: seq<Op>)
    requires Timely(c, s, now) && op.SampleOp? && now <= op.t && BucketHolds(s, b, k, samples)
    ensures BucketHolds(AddSample(c, s, op.x, op.t), b, k,
                        samples + if SampleOf(c, op, b, k, false) then [op] else [])
  {
    BucketStartGreatest(c.interval, s.lastCutoff, op.t);
    if SampleOf(c, op, b, k, false) {
      if b in s.buckets && k in s.buckets[b] {
        NextSummarises(s.buckets[b][k], samples, op);
      } else {
        assert samples == [];
        assert samples + [op] == [op];
        FirstSummarises(op);
      }
    } else {
      assert samples + [] == samples;
    }
  }

  lemma SampleKeepsSketch(c: Settings, s: Sampler, now: real, op: Op, b: int, k: Key, samples: seq<Op>)
    requires Timely(c, s, now) && op.SampleOp? && now <= op.t && SketchHolds(s, b, k, samples)
    ensures SketchHolds(AddSample(c, s, op.x, op.t), b, k,
                        samples + if SampleOf(c, op, b, k, true) then [op] else [])
  {
    BucketStartGreatest(c.interval, s.lastCutoff, op.t);
    InsertHolds(s.sketches, BucketStart(c.interval, op.t), op.x.key, op.x.value, b, k);
    if SampleOf(c, op, b, k, true) {
      SumSnoc(samples, op);
      assert SketchMap.ValuesAt(s.sketches, b, k) == SampleValues(samples);
    } else {
      assert samples + [] == samples;
    }
  }

  /** Inserting adds the value behind those of its own sketch, and changes no other. */
  lemma InsertHolds(m: SketchMap.Sketches, b: int, key: Key, v: real, b': int, k: Key)
    ensures var r := SketchMap.Insert(m, b, key, v);
            && (b' in r && k in r[b'] <==> (b' in m && k in m[b']) || (b' == b && k == key))
            && SketchMap.ValuesAt(r, b', k) == SketchMap.ValuesAt(m, b', k) + if b' == b && k == key then [v] else []
  {
  }

  lemma FlushKeepsHeld(c: Settings, s: Sampler, now: real, t: real, seen: map<Key, real>, s': Sampler,
                       b: int, k: Key, samples: seq<Op>, dist: seq<Op>)
    requires Timely(c, s, now) && now <= t && Flushed(c, s, t, seen, s')
    requires BucketHolds(s, b, k, samples) && SketchHolds(s, b, k, dist)
    ensures BucketHolds(s', b, k, samples) && SketchHolds(s', b, k, dist)
  {
    BucketStartHolds(c.interval, t);
    BucketStartGreatest(c.interval, s.lastCutoff, t);
  }

  /** In every run every bucket and every sketch holds exactly the samples of its interval: a counter their scaled sum,
      a rate the last two, other metrics and sketches all values, in order; and none is missing while it is due. */
  lemma {:induction false} RunHoldsSamples(c: Settings, states: seq<Sampler>, ops: seq<Op>, i: nat, b: int, k: Key)
    requires Execution(c, states, ops) && i <= |ops|
    ensures BucketHolds(states[i], b, k, Samples(c, ops, i, b, k, false))
    ensures SketchHolds(states[i], b, k, Samples(c, ops, i, b, k, true))
  {
    if i > 0 {
      RunHoldsSamples(c, states, ops, i - 1, b, k);
      ExecutionTimely(c, states, ops, i - 1);
      assert StepAt(c, states, ops, i - 1);
      OneStepHolds(c, states[i - 1], TimeBefore(ops, i - 1), ops[i - 1], states[i], b, k,
                   Samples(c, ops, i - 1, b, k, false), Samples(c, ops, i - 1, b, k, true));
    }
  }

  lemma OneStepHolds(c: Settings, s: Sampler, now: real, op: Op, s': Sampler, b: int, k: Key, samples: seq<Op>, dist: seq<Op>)
    requires Timely(c, s, now) && now <= op.t && Stepped(c, s, op, s')
    requires BucketHolds(s, b, k, samples) && SketchHolds(s, b, k, dist)
    ensures BucketHolds(s', b, k, samples + if SampleOf(c, op, b, k, false) then [op] else [])
    ensures SketchHolds(s', b, k, dist + if SampleOf(c, op, b, k, true) then [op] else [])
  {
    if op.SampleOp? {
      SampleKeepsBucket(c, s, now, op, b, k, samples);
      SampleKeepsSketch(c, s, now, op, b, k, dist);
    } else {
      var seen :| Flushed(c, s, op.t, seen, s');
      FlushKeepsHeld(c, s, now, op.t, seen, s', b, k, samples, dist);
      assert samples + [] == samples && dist + [] == dist;
    }
  }

  // ---- every sample is reported ----

  /** Flush i is the first after operation j whose cutoff reaches the end of bucket b. */
  ghost predicate FirstToClose(c: Settings, ops: seq<Op>, j: nat, i: nat, b: int)
    requires c.interval > 0
  {
    && j < i < |ops| && ops[i].FlushOp? && b + c.interval <= BucketStart(c.interval, ops[i].t)
    && forall m :: j < m < i && ops[m].FlushOp? ==> BucketStart(c.interval, ops[m].t) < b + c.interval
  }

  /** Until then the bucket is not due. */
  lemma {:induction false} NotDueBefore(c: Settings, states: seq<Sampler>, ops: seq<Op>, j: nat, i: nat, m: nat, b: int)
    requires Execution(c, states, ops) && FirstToClose(c, ops, j, i, b) && j < m <= i
    requires ops[j].SampleOp? && BucketStart(c.interval, ops[j].t) == b
    ensures states[m].lastCutoff <= b
  {
    assert StepAt(c, states, ops, m - 1);
    ExecutionTimely(c, states, ops, m - 1);
    if m == j + 1 {
      BucketStartGreatest(c.interval, states[j].lastCutoff, ops[j].t);
    } else {
      NotDueBefore(c, states, ops, j, i, m - 1, b);
      if ops[m - 1].FlushOp? {
        var seen :| Flushed(c, states[m - 1], ops[m - 1].t, seen, states[m]);
        NotReached(c, b, ops[j].t, ops[m - 1].t);
      }
    }
  }

  lemma NotReached(c: Settings, b: int, sampled: real, t: real)
    requires c.interval > 0 && 0.0 <= sampled && 0.0 <= t && b == BucketStart(c.interval, sampled)
    requires BucketStart(c.interval, t) < b + c.interval
    ensures BucketStart(c.interval, t) <= b
  {
    BucketStartHolds(c.interval, sampled);
    BucketStartHolds(c.interval, t);
    if b < BucketStart(c.interval, t) {
      AlignedGap(c.interval, b, BucketStart(c.interval, t));
    }
  }

  /** In every run a finite sample is still in its bucket when the first flush comes whose cutoff reaches the end of the
      bucket, and the bucket leaves with that flush; for intervals up to 300 its context resolves. */
  lemma SampleLeavesWithFlush(c: Settings, states: seq<Sampler>, ops: seq<Op>, j: nat, i: nat, b: int, k: Key)
    requires Execution(c, states, ops) && j < |ops| && SampleOf(c, ops[j], b, k, false) && FirstToClose(c, ops, j, i, b)
    ensures b in states[i].buckets && k in states[i].buckets[b] && b !in states[i + 1].buckets
    ensures Summarises(states[i].buckets[b][k], Samples(c, ops, i, b, k, false))
    ensures c.interval <= DEFAULT_EXPIRY ==> LeftWith(states[i], states[i + 1], b, k)
  {
    NotDueBefore(c, states, ops, j, i, i, b);
    SampleIsThere(c, ops, i, j, b, k, false);
    RunHoldsSamples(c, states, ops, i, b, k);
    ExecutionTimely(c, states, ops, i);
    assert StepAt(c, states, ops, i);
    var seen :| Flushed(c, states[i], ops[i].t, seen, states[i + 1]);
    if c.interval <= DEFAULT_EXPIRY {
      FlushResolves(states[i], b, k);
    }
  }

  /** In every run a finite counter sample is reported by the first flush whose cutoff reaches the end of its bucket:
      once, at the bucket's time, with the scaled sum of all samples of the bucket over the interval. */
  lemma CounterIsReported(c: Settings, states: seq<Sampler>, ops: seq<Op>, j: nat, i: nat, b: int, k: Key)
    requires Execution(c, states, ops) && j < |ops| && SampleOf(c, ops[j], b, k, false) && FirstToClose(c, ops, j, i, b)
    requires forall n :: 0 <= n < |ops| && SampleOf(c, ops[n], b, k, false) ==> ops[n].x.kind.CounterKind?
    ensures var sum := ScaledSum(Samples(c, ops, i, b, k, false));
            Expected(c, states[i], BucketStart(c.interval, ops[i].t),
                     Raw(k, ApiRate, "", b as real, sum / c.interval as real)) == 1
  {
    SampleLeavesWithFlush(c, states, ops, j, i, b, k);
    FirstIsSample(c, ops, i, b, k);
    ExecutionTimely(c, states, ops, i);
    CounterFlushes(c, states[i], TimeBefore(ops, i), BucketStart(c.interval, ops[i].t), b, k);
  }

  lemma {:induction false} FirstIsSample(c: Settings, ops: seq<Op>, i: nat, b: int, k: Key)
    requires c.interval > 0 && i <= |ops| && Samples(c, ops, i, b, k, false) != []
    requires forall n :: 0 <= n < |ops| && SampleOf(c, ops[n], b, k, false) ==> ops[n].x.kind.CounterKind?
    ensures var first := Samples(c, ops, i, b, k, false)[0]; first.SampleOp? && first.x.kind.CounterKind?
  {
    if Samples(c, ops, i - 1, b, k, false) != [] {
      FirstIsSample(c, ops, i - 1, b, k);
    }
  }

  lemma CounterFlushes(c: Settings, s: Sampler, now: real, cutoff: int, b: int, k: Key)
    requires Timely(c, s, now) && b in s.buckets && k in s.buckets[b] && b + c.interval <= cutoff
    requires s.buckets[b][k].Counter?
    ensures Expected(c, s, cutoff, Raw(k, ApiRate, "", b as real, s.buckets[b][k].total / c.interval as real)) == 1
  {
    var total := s.buckets[b][k].total;
    var x := Raw(k, ApiRate, "", b as real, total / c.interval as real);
    assert total + 0.0 == total;
    assert Zeroed(c, s, b, k) == Counter(total);
    assert FlushMetric(c, k, Counter(total), b) == [x];
    ClosedIsReported(c, s, now, cutoff, b, k, x);
  }

  /** A context only sampled as a rate is never a counter. */
  lemma {:induction false} NeverCounter(c: Settings, states: seq<Sampler>, ops: seq<Op>, i: nat, k: Key)
    requires Execution(c, states, ops) && i <= |ops|
    requires forall n :: 0 <= n < |ops| && ops[n].SampleOp? && ops[n].x.key == k ==> ops[n].x.kind.RateKind?
    ensures k !in states[i].counters
  {
    if i > 0 {
      NeverCounter(c, states, ops, i - 1, k);
      assert StepAt(c, states, ops, i - 1);
    }
  }

  lemma {:induction false} FirstIsRate(c: Settings, ops: seq<Op>, i: nat, b: int, k: Key)
    requires c.interval > 0 && i <= |ops| && Samples(c, ops, i, b, k, false) != []
    requires forall n :: 0 <= n < |ops| && ops[n].SampleOp? && ops[n].x.key == k ==> ops[n].x.kind.RateKind?
    ensures var first := Samples(c, ops, i, b, k, false)[0]; first.SampleOp? && first.x.kind.RateKind?
  {
    if Samples(c, ops, i - 1, b, k, false) != [] {
      FirstIsRate(c, ops, i - 1, b, k);
    }
  }

  /** The last two samples are at different times, the first of them not at zero, and the value did not fall. */
  predicate Rises(samples: seq<Op>) {
    && |samples| >= 2 && samples[|samples| - 2].SampleOp? && samples[|samples| - 1].SampleOp?
    && 0.0 < samples[|samples| - 2].t < samples[|samples| - 1].t
    && samples[|samples| - 2].x.value <= samples[|samples| - 1].x.value
  }

  /** In every run a context sampled as a rate is reported by the flush that closes its bucket, once, at the time of its
      last sample: with the slope between its last two samples in the bucket, if it does not fall. */
  lemma RateIsReported(c: Settings, states: seq<Sampler>, ops: seq<Op>, j: nat, i: nat, b: int, k: Key, ss: seq<Op>, slope: real)
    requires Execution(c, states, ops) && j < |ops| && SampleOf(c, ops[j], b, k, false) && FirstToClose(c, ops, j, i, b)
    requires forall n :: 0 <= n < |ops| && ops[n].SampleOp? && ops[n].x.key == k ==> ops[n].x.kind.RateKind?
    requires ss == Samples(c, ops, i, b, k, false) && Rises(ss)
    requires slope == SlopeBetween(ss[|ss| - 2].x.value, ss[|ss| - 2].t, ss[|ss| - 1].x.value, ss[|ss| - 1].t)
    ensures Expected(c, states[i], BucketStart(c.interval, ops[i].t), Raw(k, ApiGauge, "", ss[|ss| - 1].t, slope)) == 1
  {
    RateIsHeld(c, states, ops, j, i, b, k, ss);
    RateFlushes(c, states[i], TimeBefore(ops, i), BucketStart(c.interval, ops[i].t), b, k,
                ss[|ss| - 2].x.value, ss[|ss| - 2].t, ss[|ss| - 1].x.value, ss[|ss| - 1].t, slope);
  }

  lemma RateIsHeld(c: Settings, states: seq<Sampler>, ops: seq<Op>, j: nat, i: nat, b: int, k: Key, ss: seq<Op>)
    requires Execution(c, states, ops) && j < |ops| && SampleOf(c, ops[j], b, k, false) && FirstToClose(c, ops, j, i, b)
    requires forall n :: 0 <= n < |ops| && ops[n].SampleOp? && ops[n].x.key == k ==> ops[n].x.kind.RateKind?
    requires ss == Samples(c, ops, i, b, k, false) && Rises(ss)
    ensures Timely(c, states[i], TimeBefore(ops, i))
    ensures b in states[i].buckets && k in states[i].buckets[b] && k !in states[i].counters
    ensures states[i].buckets[b][k]
         == Rate(ss[|ss| - 2].x.value, ss[|ss| - 2].t, ss[|ss| - 1].x.value, ss[|ss| - 1].t)
  {
    SampleLeavesWithFlush(c, states, ops, j, i, b, k);
    FirstIsRate(c, ops, i, b, k);
    NeverCounter(c, states, ops, i, k);
    ExecutionTimely(c, states, ops, i);
    LastTwo(states[i].buckets[b][k], ss);
  }

  lemma LastTwo(m: Metric, ss: seq<Op>)
    requires Summarises(m, ss) && Rises(ss) && ss[0].x.kind.RateKind?
    ensures m == Rate(ss[|ss| - 2].x.value, ss[|ss| - 2].t, ss[|ss| - 1].x.value, ss[|ss| - 1].t)
  {
  }

  lemma RateFlushes(c: Settings, s: Sampler, now: real, cutoff: int, b: int, k: Key,
                    v: real, t: real, w: real, u: real, slope: real)
    requires Timely(c, s, now) && b in s.buckets && k in s.buckets[b] && b + c.interval <= cutoff && k !in s.counters
    requires s.buckets[b][k] == Rate(v, t, w, u) && 0.0 < t < u && v <= w && slope == SlopeBetween(v, t, w, u)
    ensures Expected(c, s, cutoff, Raw(k, ApiGauge, "", u, slope)) == 1
  {
    SlopeHolds(v, t, w, u);
    var x := Raw(k, ApiGauge, "", u, slope);
    assert FlushMetric(c, k, Rate(v, t, w, u), b) == [x];
    ClosedIsReported(c, s, now, cutoff, b, k, x);
  }

  function SlopeBetween(v: real, t: real, w: real, u: real): real
    requires t < u
  {
    (w - v) / (u - t)
  }

  /** Following the slope from one point leads to the other. */
  lemma SlopeHolds(v: real, t: real, w: real, u: real)
    requires t < u
    ensures v + SlopeBetween(v, t, w, u) * (u - t) == w
    ensures v <= w ==> 0.0 <= SlopeBetween(v, t, w, u)
  {
    var slope := SlopeBetween(v, t, w, u);
    assert slope * (u - t) == w - v;
    if v <= w && slope < 0.0 {
      Negative(slope, u - t);
    }
  }

  lemma Negative(a: real, b: real)
    requires a < 0.0 < b
    ensures a * b < 0.0
  {
  }

  /** In every run a finite sample of a distribution is handed out, in a sketch of all values of its context and bucket,
      by the first flush whose cutoff reaches the end of the bucket. */
  lemma DistributionIsHandedOut(c: Settings, states: seq<Sampler>, ops: seq<Op>, j: nat, i: nat, b: int, k: Key)
    requires Execution(c, states, ops) && j < |ops| && SampleOf(c, ops[j], b, k, true) && FirstToClose(c, ops, j, i, b)
    ensures ClosedPoint(states[i], BucketStart(c.interval, ops[i].t), k,
                        SketchMap.Point(b, SampleValues(Samples(c, ops, i, b, k, true)))) == 1
    ensures b !in states[i + 1].sketches
  {
    NotDueBefore(c, states, ops, j, i, i, b);
    SampleIsThere(c, ops, i, j, b, k, true);
    RunHoldsSamples(c, states, ops, i, b, k);
    AreSamples(c, ops, i, b, k, true);
    ValuePerSample(Samples(c, ops, i, b, k, true));
    assert StepAt(c, states, ops, i);
    var seen :| Flushed(c, states[i], ops[i].t, seen, states[i + 1]);
  }

  lemma {:induction false} AreSamples(c: Settings, ops: seq<Op>, i: nat, b: int, k: Key, dist: bool)
    requires c.interval > 0 && i <= |ops|
    ensures forall op :: op in Samples(c, ops, i, b, k, dist) ==> op.SampleOp?
  {
    if i > 0 {
      AreSamples(c, ops, i - 1, b, k, dist);
    }
  }

  /** One value per sample. */
  lemma {:induction false} ValuePerSample(samples: seq<Op>)
    requires forall op :: op in samples ==> op.SampleOp?
    ensures |SampleValues(samples)| == |samples|
  {
    if samples != [] {
      ValuePerSample(samples[..|samples| - 1]);
    }
  }

  // ---- zeros for counters ----

  /** The operation is a sample of this context as a counter. */
  predicate CountsAs(op: Op, k: Key) {
    op.SampleOp? && op.x.key == k && op.x.kind.CounterKind?
  }

  /** In every run the sampler remembers when a counter was last sampled, at least until a flush comes whose cutoff is
      past that time by more than the expiry: so it gets zeros for closed buckets till then (ZeroIsReported). */
  lemma {:induction false} CounterRemembered(c: Settings, states: seq<Sampler>, ops: seq<Op>, j: nat, i: nat, k: Key)
    requires Execution(c, states, ops) && j < i <= |ops| && CountsAs(ops[j], k)
    requires forall m :: j < m < i ==> !CountsAs(ops[m], k)
    ensures k in states[i].counters ==> states[i].counters[k] == ops[j].t
    ensures (forall m :: j < m < i && ops[m].FlushOp? ==>
               BucketStart(c.interval, ops[m].t) as real <= c.expiry as real + ops[j].t) ==> k in states[i].counters
    decreases i
  {
    assert StepAt(c, states, ops, i - 1);
    if j < i - 1 {
      CounterRemembered(c, states, ops, j, i - 1, k);
      if ops[i - 1].FlushOp? {
        ExecutionTimely(c, states, ops, i - 1);
        var seen :| Flushed(c, states[i - 1], ops[i - 1].t, seen, states[i]);
        CounterKept(c, states[i - 1], TimeBefore(ops, i - 1), ops[i - 1].t, seen, states[i], k);
      }
    }
  }

  lemma CounterKept(c: Settings, s: Sampler, now: real, t: real, seen: map<Key, real>, s': Sampler, k: Key)
    requires Timely(c, s, now) && now <= t && Flushed(c, s, t, seen, s')
    ensures k in s'.counters ==> k in s.counters && s'.counters[k] == s.counters[k]
    ensures k in s.counters && BucketStart(c.interval, t) as real <= c.expiry as real + s.counters[k] ==> k in s'.counters
  {
    var cutoff := BucketStart(c.interval, t);
    BucketStartHolds(c.interval, t);
    forall st | st in Stamps(c, s, cutoff)
      ensures st < cutoff
    {
      StampsInWindow(c, s, now, cutoff, st);
    }
  }
}
