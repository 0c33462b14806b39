/**
 The time sampler (aggregator/time_sampler.go) with its context resolver (aggregator/context_resolver.go),
 sketch map (aggregator/sketch_map.go) and per-bucket metrics (metrics/context_metrics.go).
 Timestamps are non-negative reals; values that are not finite are marked as such.
 */
module TimeSampler {
  import opened Collections
  import SketchMap
  import opened BucketTime

  type Key = SketchMap.Key

  datatype Context = Context(name: string, host: string, tags: seq<string>)

  datatype Kind = RateKind | CounterKind | OtherKind(name: string) | Distribution

  /** scaled is the value over the sample rate. */
  datatype Sample = Sample(key: Key, context: Context, kind: Kind, finite: bool, value: real, scaled: real)

  /** A metric of one context in one bucket. The metrics that report at the bucket's timestamp, apart from
      counters, are kept as the values they were given. */
  datatype Metric =
    | Rate(previousSample: real, previousTs: real, sample: real, ts: real)
    | Counter(total: real)
    | Other(name: string, values: seq<real>)

  type Contents = map<Key, Metric>

  function NewMetric(kind: Kind): Metric {
    match kind
    case RateKind => Rate(0.0, 0.0, 0.0, 0.0)
    case CounterKind => Counter(0.0)
    case OtherKind(name) => Other(name, [])
    case Distribution => Other("", [])
  }

  function Fed(m: Metric, value: real, scaled: real, t: real): Metric {
    match m
    case Rate(ps, pt, s, ts) => if ts != 0.0 then Rate(s, ts, value, t) else Rate(ps, pt, value, t)
    case Counter(total) => Counter(total + scaled)
    case Other(name, values) => Other(name, values + [value])
  }

  /** ContextMetrics.AddSample for a finite value. */
  function AddToContents(c: Contents, key: Key, kind: Kind, value: real, scaled: real, t: real): Contents {
    c[key := Fed(if key in c then c[key] else NewMetric(kind), value, scaled, t)]
  }

  datatype ApiType = ApiGauge | ApiRate | ApiCount

  /** One raw serie of a flush: its signature and its only point. */
  datatype Raw = Raw(key: Key, api: ApiType, suffix: string, ts: real, value: real)

  /** How the other metrics summarise their values: a type, a suffix and a value per serie. */
  type Summary = (string, seq<real>) -> seq<(ApiType, string, real)>

  datatype Settings = Settings(interval: int, expiry: int, summary: Summary)

  function FlushMetric(c: Settings, key: Key, m: Metric, bucket: int): seq<Raw> {
    match m
    case Rate(ps, pt, s, ts) =>
      if pt == 0.0 || ts == 0.0 || ts == pt then []
      else if (s - ps) / (ts - pt) < 0.0 then []
      else [Raw(key, ApiGauge, "", ts, (s - ps) / (ts - pt))]
    case Counter(total) =>
      [Raw(key, ApiRate, "", bucket as real, if c.interval == 0 then 0.0 else total / c.interval as real)]
    case Other(name, values) =>
      var out := c.summary(name, values);
      seq(|out|, i requires 0 <= i < |out| => Raw(key, out[i].0, out[i].1, bucket as real, out[i].2))
  }

  datatype Sampler = Sampler(
    contexts: map<Key, Context>,
    lastSeen: map<Key, real>,
    buckets: map<int, Contents>,
    counters: map<Key, real>,
    lastCutoff: int,
    sketches: SketchMap.Sketches)

  const EMPTY := Sampler(map[], map[], map[], map[], 0, map[])

  const DEFAULT_EXPIRY := 300

  // ---- sampling ----

  function AddSample(c: Settings, s: Sampler, x: Sample, t: real): Sampler
    requires c.interval > 0
  {
    var tracked := s.(contexts := if x.key in s.contexts then s.contexts else s.contexts[x.key := x.context],
                      lastSeen := s.lastSeen[x.key := t]);
    var b := BucketStart(c.interval, t);
    if x.kind.Distribution? then
      if x.finite then tracked.(sketches := SketchMap.Insert(s.sketches, b, x.key, x.value)) else tracked
    else
      var contents := if b in s.buckets then s.buckets[b] else map[];
      var fed := if x.finite then AddToContents(contents, x.key, x.kind, x.value, x.scaled, t) else contents;
      tracked.(buckets := s.buckets[b := fed],
               counters := if x.kind.CounterKind? then s.counters[x.key := t] else s.counters)
  }

  // ---- flushing ----

  /** Counters that still get zeros at this timestamp. */
  function Live(c: Settings, counters: map<Key, real>, stamp: int): set<Key> {
    set k | k in counters && c.expiry as real + counters[k] > stamp as real
  }

  /** A bucket with a zero for every live counter. */
  function WithZeros(contents: Contents, live: set<Key>, stamp: int): Contents {
    contents + (map k | k in live :: Fed(if k in contents then contents[k] else NewMetric(CounterKind), 0.0, 0.0, stamp as real))
  }

  /** The timestamps for which a flush reports: closed buckets, or the last interval if there is no bucket. */
  function Stamps(c: Settings, s: Sampler, cutoff: int): set<int> {
    if s.buckets != map[] then set b | b in s.buckets && !StillOpen(c.interval, b, cutoff)
    else if s.lastCutoff + c.interval <= cutoff then {cutoff - c.interval}
    else {}
  }

  function Reported(c: Settings, s: Sampler, stamp: int): Contents {
    WithZeros(if stamp in s.buckets then s.buckets[stamp] else map[], Live(c, s.counters, stamp), stamp)
  }

  /** How often a raw serie is reported by the flush: the timestamp tells its bucket. */
  ghost function Expected(c: Settings, s: Sampler, cutoff: int, x: Raw): nat
    requires c.interval > 0
  {
    var b := BucketStart(c.interval, x.ts);
    if b in Stamps(c, s, cutoff) && x.key in Reported(c, s, b) then
      multiset(FlushMetric(c, x.key, Reported(c, s, b)[x.key], b))[x]
    else 0
  }

  /** Counters whose context was due to expire at one of the stamps stop being zero-sampled. */
  function Lapsed(c: Settings, counters: map<Key, real>, stamps: set<int>): set<Key> {
    set k | k in counters && exists st :: st in stamps && k !in Live(c, counters, st)
  }

  /** A live counter got a zero at this stamp, which is time v. */
  predicate ZeroedAt(c: Settings, counters: map<Key, real>, k: Key, stamp: int, v: real) {
    k in Live(c, counters, stamp) && v == stamp as real
  }

  /** The last-seen times once live counters were seen at the stamps. */
  ghost predicate Raised(c: Settings, counters: map<Key, real>, stamps: set<int>,
                         seen: map<Key, real>, raised: map<Key, real>)
  {
    && raised.Keys == seen.Keys
    && forall k :: k in seen ==>
         && seen[k] <= raised[k]
         && (forall st :: st in stamps && k in Live(c, counters, st) ==> st as real <= raised[k])
         && (raised[k] == seen[k] || exists st :: st in stamps && ZeroedAt(c, counters, k, st, raised[k]))
  }

  /** Keys not seen since the given time. */
  function Stale(seen: map<Key, real>, before: real): set<Key> {
    set k | k in seen && seen[k] < before
  }

  /** What a flush at time t makes of the sampler; seen are the last-seen times before contexts expire. */
  ghost predicate Flushed(c: Settings, s: Sampler, t: real, seen: map<Key, real>, s': Sampler)
    requires c.interval > 0
  {
    var cutoff := BucketStart(c.interval, t);
    var stamps := Stamps(c, s, cutoff);
    && Raised(c, s.counters, stamps, s.lastSeen, seen)
    && s' == Sampler(
         s.contexts - Stale(seen, t - DEFAULT_EXPIRY as real),
         seen - Stale(seen, t - DEFAULT_EXPIRY as real),
         map b | b in s.buckets && StillOpen(c.interval, b, cutoff) :: s.buckets[b],
         s.counters - Lapsed(c, s.counters, stamps),
         cutoff,
         map b | b in s.sketches && b >= cutoff :: s.sketches[b])
  }

  // ---- what every run keeps ----

  /** A metric of a bucket was only fed inside the bucket. */
  predicate Inside(m: Metric, bucket: int, interval: int) {
    m.Rate? ==>
      && (m.ts == 0.0 || bucket as real <= m.ts < (bucket + interval) as real)
      && (m.previousTs == 0.0 || bucket as real <= m.previousTs < (bucket + interval) as real)
  }

  /** Bucket starts are aligned and in the window still to be reported. */
  predicate BucketOk(c: Settings, s: Sampler, b: int, now: real)
    requires c.interval > 0
  {
    Aligned(c.interval, b) && s.lastCutoff <= b && b as real <= now
  }

  ghost predicate Timely(c: Settings, s: Sampler, now: real) {
    && c.interval > 0 && 0.0 <= now
    && 0 <= s.lastCutoff && s.lastCutoff as real <= now && Aligned(c.interval, s.lastCutoff)
    && (forall b :: b in s.buckets ==> BucketOk(c, s, b, now))
    && (forall b :: b in s.sketches ==> BucketOk(c, s, b, now))
    && (forall b, k :: b in s.buckets && k in s.buckets[b] ==> Inside(s.buckets[b][k], b, c.interval))
    && (forall k :: k in s.lastSeen ==> s.lastSeen[k] <= now)
  }

  /** The context of key is tracked and was last seen no earlier than the bucket's start. */
  predicate SeenSince(s: Sampler, key: Key, b: int) {
    key in s.lastSeen && s.lastSeen[key] >= b as real
  }

  /** Every context in an unflushed bucket or sketch is still tracked. */
  ghost predicate Tracked(s: Sampler) {
    && s.contexts.Keys == s.lastSeen.Keys
    && (forall b, k :: b in s.buckets && k in s.buckets[b] ==> SeenSince(s, k, b))
    && (forall b, k :: b in s.sketches && k in s.sketches[b] ==> SeenSince(s, k, b))
  }

  lemma FedInside(m: Metric, bucket: int, interval: int, value: real, scaled: real, t: real)
    requires Inside(m, bucket, interval) && bucket as real <= t < (bucket + interval) as real
    ensures Inside(Fed(m, value, scaled, t), bucket, interval)
  {
  }

  lemma AddSampleTimely(c: Settings, s: Sampler, x: Sample, now: real, t: real)
    requires Timely(c, s, now) && now <= t
    ensures Timely(c, AddSample(c, s, x, t), t)
  {
    var b := BucketStart(c.interval, t);
    BucketStartHolds(c.interval, t);
    BucketStartGreatest(c.interval, s.lastCutoff, t);
    if !x.kind.Distribution? {
      var contents := if b in s.buckets then s.buckets[b] else map[];
      FedInside(if x.key in contents then contents[x.key] else NewMetric(x.kind), b, c.interval, x.value, x.scaled, t);
    }
  }

  /** A sample adds nothing to buckets and sketches but its own context in its own bucket. */
  lemma HeldBefore(c: Settings, s: Sampler, x: Sample, t: real, b: int, k: Key)
    requires c.interval > 0
    requires k != x.key || b != BucketStart(c.interval, t)
    ensures var s' := AddSample(c, s, x, t);
            && (b in s'.buckets && k in s'.buckets[b] ==> b in s.buckets && k in s.buckets[b])
            && (b in s'.sketches && k in s'.sketches[b] ==> b in s.sketches && k in s.sketches[b])
  {
  }

  lemma SeenAfterSample(c: Settings, s: Sampler, x: Sample, now: real, t: real, b: int, k: Key)
    requires Timely(c, s, now) && now <= t
    requires SeenSince(s, k, b) || (k == x.key && b == BucketStart(c.interval, t))
    ensures SeenSince(AddSample(c, s, x, t), k, b)
  {
    BucketStartHolds(c.interval, t);
  }

  lemma AddSampleTracked(c: Settings, s: Sampler, x: Sample, now: real, t: real)
    requires Timely(c, s, now) && now <= t && Tracked(s)
    ensures Tracked(AddSample(c, s, x, t))
  {
    var s' := AddSample(c, s, x, t);
    forall b, k | (b in s'.buckets && k in s'.buckets[b]) || (b in s'.sketches && k in s'.sketches[b])
      ensures SeenSince(s', k, b)
    {
      if k != x.key || b != BucketStart(c.interval, t) {
        HeldBefore(c, s, x, t, b, k);
      }
      SeenAfterSample(c, s, x, now, t, b, k);
    }
    assert s'.contexts.Keys == s'.lastSeen.Keys;
  }

  lemma FlushedTimely(c: Settings, s: Sampler, now: real, t: real, seen: map<Key, real>, s': Sampler)
    requires Timely(c, s, now) && now <= t && Flushed(c, s, t, seen, s')
    ensures Timely(c, s', t) && s.lastCutoff <= s'.lastCutoff
  {
    BucketStartHolds(c.interval, t);
    BucketStartGreatest(c.interval, s.lastCutoff, t);
    forall b | b in s.buckets
      ensures StillOpen(c.interval, b, s'.lastCutoff) <==> b >= s'.lastCutoff
    {
      SameClosing(c.interval, b, s'.lastCutoff);
    }
    forall st | st in Stamps(c, s, s'.lastCutoff)
      ensures st as real <= t
    {
    }
  }

  /** Contexts are kept while anything of theirs is unflushed, if no bucket is longer than the expiry. */
  lemma FlushedTracked(c: Settings, s: Sampler, now: real, t: real, seen: map<Key, real>, s': Sampler)
    requires Timely(c, s, now) && now <= t && Tracked(s) && Flushed(c, s, t, seen, s')
    requires c.interval <= DEFAULT_EXPIRY
    ensures Tracked(s')
  {
    var cutoff := BucketStart(c.interval, t);
    BucketStartHolds(c.interval, t);
    forall b, k | b in s'.buckets && k in s'.buckets[b]
      ensures SeenSince(s', k, b)
    {
      SameClosing(c.interval, b, cutoff);
      assert SeenSince(s, k, b);
    }
    forall b, k | b in s'.sketches && k in s'.sketches[b]
      ensures SeenSince(s', k, b)
    {
      assert SeenSince(s, k, b);
    }
  }

  /** A bucket longer than the expiry loses its context: after a sample at 0 and a flush at 300.5 the sample is
      still unflushed and its context is gone. So the bound on the interval is exact. */
  lemma LongIntervalLoses(c: Settings, x: Sample, seen: map<Key, real>, s': Sampler)
    requires c.interval > DEFAULT_EXPIRY && x.finite && !x.kind.Distribution?
    requires Flushed(c, AddSample(c, EMPTY, x, 0.0), 300.5, seen, s')
    ensures 0 in s'.buckets && x.key in s'.buckets[0] && x.key !in s'.contexts
  {
    var s := AddSample(c, EMPTY, x, 0.0);
    BucketStartHolds(c.interval, 0.0);
    BucketStartHolds(c.interval, 300.5);
    assert BucketStart(c.interval, 0.0) == 0;
    assert BucketStart(c.interval, 300.5) == 0 by {
      if BucketStart(c.interval, 300.5) > 0 {
        AlignedGap(c.interval, 0, BucketStart(c.interval, 300.5));
      }
    }
    assert Stamps(c, s, 0) == {};
    assert seen[x.key] == 0.0;
  }

  // ---- what a flush reports ----

  lemma StampsInWindow(c: Settings, s: Sampler, now: real, cutoff: int, b: int)
    requires Timely(c, s, now) && Aligned(c.interval, cutoff) && b in Stamps(c, s, cutoff)
    ensures s.lastCutoff <= b && b + c.interval <= cutoff && Aligned(c.interval, b)
  {
    if s.buckets == map[] {
      DivMod(cutoff, c.interval);
      NextMultiple(cutoff / c.interval - 1, c.interval);
      MultipleAligned(cutoff / c.interval - 1, c.interval);
    }
  }

  /** A flush reports only points of the window from the previous cutoff to its own. */
  lemma ReportedInWindow(c: Settings, s: Sampler, now: real, t: real, x: Raw)
    requires Timely(c, s, now) && now <= t
    requires Expected(c, s, BucketStart(c.interval, t), x) > 0
    ensures s.lastCutoff as real <= x.ts < BucketStart(c.interval, t) as real
  {
    var cutoff, b := BucketStart(c.interval, t), BucketStart(c.interval, x.ts);
    BucketStartHolds(c.interval, t);
    StampsInWindow(c, s, now, cutoff, b);
    assert x in FlushMetric(c, x.key, Reported(c, s, b)[x.key], b);
  }

  /** Every context really sampled in a bucket that closes, and every context of a sketch, resolves. */
  lemma FlushResolves(s: Sampler, b: int, k: Key)
    requires Tracked(s)
    requires (b in s.buckets && k in s.buckets[b]) || (b in s.sketches && k in s.sketches[b])
    ensures k in s.contexts
  {
    assert SeenSince(s, k, b);
  }

  /** A zero changes nothing for a counter that was sampled. */
  lemma ZeroIsHarmless(c: Settings, k: Key, total: real, b: int)
    ensures FlushMetric(c, k, Fed(Counter(total), 0.0, 0.0, b as real), b) == FlushMetric(c, k, Counter(total), b)
  {
    assert total + 0.0 == total;
  }

  // ---- everything that leaves is reported ----

  /** The metric of a bucket once a zero was added, if its context is that of a counter not yet expired. */
  function Zeroed(c: Settings, s: Sampler, b: int, k: Key): Metric
    requires b in s.buckets && k in s.buckets[b]
  {
    if k in s.counters && c.expiry as real + s.counters[k] > b as real then Fed(s.buckets[b][k], 0.0, 0.0, b as real)
    else s.buckets[b][k]
  }

  /** Whatever a closed bucket's metric flushes to is reported, as often as it flushes to it. */
  lemma ClosedIsReported(c: Settings, s: Sampler, now: real, cutoff: int, b: int, k: Key, x: Raw)
    requires Timely(c, s, now) && b in s.buckets && k in s.buckets[b] && b + c.interval <= cutoff
    requires x in FlushMetric(c, k, Zeroed(c, s, b, k), b)
    ensures Expected(c, s, cutoff, x) == multiset(FlushMetric(c, k, Zeroed(c, s, b, k), b))[x]
  {
    assert BucketOk(c, s, b, now);
    assert Inside(s.buckets[b][k], b, c.interval);
    assert Reported(c, s, b)[k] == Zeroed(c, s, b, k);
    FlushMetricKey(c, k, Zeroed(c, s, b, k), b, x);
    assert b as real <= x.ts < (b + c.interval) as real;
    BucketOfStamp(c.interval, b, x.ts);
  }

  /** A counter not yet expired that was not sampled in a closed bucket is reported as zero there, once; and when there
      is no bucket at all, for the last whole interval before the cutoff. */
  lemma ZeroIsReported(c: Settings, s: Sampler, now: real, cutoff: int, b: int, k: Key)
    requires Timely(c, s, now) && 0 <= b && Aligned(c.interval, b)
    requires k in s.counters && c.expiry as real + s.counters[k] > b as real
    requires if s.buckets == map[] then b == cutoff - c.interval && s.lastCutoff + c.interval <= cutoff
             else b in s.buckets && k !in s.buckets[b] && b + c.interval <= cutoff
    ensures Expected(c, s, cutoff, Raw(k, ApiRate, "", b as real, 0.0)) == 1
  {
    var x := Raw(k, ApiRate, "", b as real, 0.0);
    BucketOfStamp(c.interval, b, b as real);
    assert Reported(c, s, b)[k] == Counter(0.0);
    assert FlushMetric(c, k, Counter(0.0), b) == [x];
  }

  /** Nothing else is reported: neither an expired counter that was not sampled in the bucket, nor a bucket still open. */
  lemma NothingElseReported(c: Settings, s: Sampler, now: real, cutoff: int, x: Raw)
    requires Timely(c, s, now) && Expected(c, s, cutoff, x) > 0
    ensures var b := BucketStart(c.interval, x.ts);
            && b + c.interval <= cutoff
            && ((b in s.buckets && x.key in s.buckets[b])
                || (x.key in s.counters && c.expiry as real + s.counters[x.key] > b as real))
  {
  }

  /** A flush that closes a bucket keeps the context of every counter it reports a zero for, unless the bucket is older
      than the expiry of contexts, and forgets every counter that had expired by then. */
  lemma ZerosKeepContexts(c: Settings, s: Sampler, t: real, seen: map<Key, real>, s': Sampler, b: int, k: Key)
    requires c.interval > 0 && Flushed(c, s, t, seen, s') && s.contexts.Keys == s.lastSeen.Keys
    requires b in s.buckets && b + c.interval <= BucketStart(c.interval, t) && k in s.counters
    ensures if c.expiry as real + s.counters[k] > b as real
            then k in s.contexts && b as real >= t - DEFAULT_EXPIRY as real ==> k in s'.contexts
            else k !in s'.counters
  {
    assert b in Stamps(c, s, BucketStart(c.interval, t));
    if c.expiry as real + s.counters[k] > b as real {
      assert k in Live(c, s.counters, b);
    } else {
      assert k !in Live(c, s.counters, b);
    }
  }

  /** The bucket left the map with the flush, and k was sampled in it and resolves. */
  predicate LeftWith(s: Sampler, s': Sampler, b: int, k: Key) {
    b in s.buckets && b !in s'.buckets && k in s.buckets[b] && k in s.contexts
  }

  ghost predicate HandedOut(c: Settings, s: Sampler, b: int, k: Key, series: seq<Serie>)
    requires b in s.buckets && k in s.buckets[b]
  {
    forall x :: x in FlushMetric(c, k, Zeroed(c, s, b, k), b) ==>
      InSeries(series, x) == multiset(FlushMetric(c, k, Zeroed(c, s, b, k), b))[x]
  }

  // ---- runs ----

  datatype Op = SampleOp(x: Sample, t: real) | FlushOp(t: real)

  ghost predicate Stepped(c: Settings, s: Sampler, op: Op, s': Sampler)
    requires c.interval > 0
  {
    match op
    case SampleOp(x, t) => s' == AddSample(c, s, x, t)
    case FlushOp(t) => exists seen :: Flushed(c, s, t, seen, s')
  }

  function TimeBefore(ops: seq<Op>, i: nat): real
    requires i <= |ops|
  {
    if i == 0 then 0.0 else ops[i - 1].t
  }

  /** States of a run with non-decreasing, non-negative times. */
  ghost predicate Execution(c: Settings, states: seq<Sampler>, ops: seq<Op>) {
    && c.interval > 0
    && |states| == |ops| + 1 && states[0] == EMPTY
    && (forall i :: 0 <= i < |ops| ==> StepAt(c, states, ops, i))
  }

  ghost predicate StepAt(c: Settings, states: seq<Sampler>, ops: seq<Op>, i: nat)
    requires c.interval > 0 && |states| == |ops| + 1 && i < |ops|
  {
    TimeBefore(ops, i) <= ops[i].t && Stepped(c, states[i], ops[i], states[i + 1])
  }

  lemma StepKeeps(c: Settings, s: Sampler, op: Op, s': Sampler, now: real)
    requires Timely(c, s, now) && now <= op.t && Stepped(c, s, op, s')
    ensures Timely(c, s', op.t) && s.lastCutoff <= s'.lastCutoff
    ensures c.interval <= DEFAULT_EXPIRY && Tracked(s) ==> Tracked(s')
  {
    if op.SampleOp? {
      AddSampleTimely(c, s, op.x, now, op.t);
      if Tracked(s) {
        AddSampleTracked(c, s, op.x, now, op.t);
      }
    } else {
      var seen :| Flushed(c, s, op.t, seen, s');
      FlushedTimely(c, s, now, op.t, seen, s');
      if c.interval <= DEFAULT_EXPIRY && Tracked(s) {
        FlushedTracked(c, s, now, op.t, seen, s');
      }
    }
  }

  /** Every run keeps bucket starts in the open window, and with intervals up to the expiry keeps the context of
      everything unflushed. */
  lemma {:induction false} ExecutionTimely(c: Settings, states: seq<Sampler>, ops: seq<Op>, i: nat)
    requires Execution(c, states, ops) && i <= |ops|
    ensures Timely(c, states[i], TimeBefore(ops, i))
    ensures c.interval <= DEFAULT_EXPIRY ==> Tracked(states[i])
    ensures i > 0 ==> states[i - 1].lastCutoff <= states[i].lastCutoff
  {
    if i > 0 {
      ExecutionTimely(c, states, ops, i - 1);
      assert StepAt(c, states, ops, i - 1);
      StepKeeps(c, states[i - 1], ops[i - 1], states[i], TimeBefore(ops, i - 1));
    }
  }

  lemma {:induction false} CutoffsAscend(c: Settings, states: seq<Sampler>, ops: seq<Op>, i: nat, j: nat)
    requires Execution(c, states, ops) && i <= j <= |ops|
    ensures states[i].lastCutoff <= states[j].lastCutoff
  {
    if i < j {
      ExecutionTimely(c, states, ops, j);
      CutoffsAscend(c, states, ops, i, j - 1);
    }
  }

  /** In every run whatever series a later flush reports lie in a later bucket than whatever an earlier one
      reported: no bucket is reported twice. */
  lemma NoBucketTwice(c: Settings, states: seq<Sampler>, ops: seq<Op>, i: nat, j: nat, x: Raw, y: Raw)
    requires Execution(c, states, ops) && i < j < |ops| && ops[i].FlushOp? && ops[j].FlushOp?
    requires Expected(c, states[i], BucketStart(c.interval, ops[i].t), x) > 0
    requires Expected(c, states[j], BucketStart(c.interval, ops[j].t), y) > 0
    ensures x.ts < y.ts && BucketStart(c.interval, x.ts) < BucketStart(c.interval, y.ts)
  {
    FlushWindow(c, states, ops, i, x);
    FlushWindow(c, states, ops, j, y);
    CutoffsAscend(c, states, ops, i + 1, j);
    CutoffAligned(c, states, ops, j);
    BucketsApart(c.interval, x.ts, states[j].lastCutoff, y.ts);
  }

  lemma CutoffAligned(c: Settings, states: seq<Sampler>, ops: seq<Op>, i: nat)
    requires Execution(c, states, ops) && i <= |ops|
    ensures Aligned(c.interval, states[i].lastCutoff)
  {
    ExecutionTimely(c, states, ops, i);
  }

  /** What flush i of a run reports lies between the cutoff before it and its own. */
  lemma FlushWindow(c: Settings, states: seq<Sampler>, ops: seq<Op>, i: nat, x: Raw)
    requires Execution(c, states, ops) && i < |ops| && ops[i].FlushOp?
    requires Expected(c, states[i], BucketStart(c.interval, ops[i].t), x) > 0
    ensures 0.0 <= x.ts
    ensures states[i].lastCutoff as real <= x.ts < states[i + 1].lastCutoff as real
  {
    assert StepAt(c, states, ops, i);
    ExecutionTimely(c, states, ops, i);
    ReportedInWindow(c, states[i], TimeBefore(ops, i), ops[i].t, x);
    var seen :| Flushed(c, states[i], ops[i].t, seen, states[i + 1]);
  }

  /** Sketches of a run close exactly with the buckets: what a flush hands out was in its window, and is gone. */
  lemma SketchesClose(c: Settings, states: seq<Sampler>, ops: seq<Op>, i: nat, b: int)
    requires Execution(c, states, ops) && i < |ops| && ops[i].FlushOp? && b in states[i].sketches
    ensures var cutoff := BucketStart(c.interval, ops[i].t);
            && (b in states[i + 1].sketches <==> StillOpen(c.interval, b, cutoff))
            && (b !in states[i + 1].sketches ==> states[i].lastCutoff <= b < cutoff)
  {
    var cutoff := BucketStart(c.interval, ops[i].t);
    assert StepAt(c, states, ops, i);
    ExecutionTimely(c, states, ops, i);
    BucketStartHolds(c.interval, ops[i].t);
    SameClosing(c.interval, b, cutoff);
    assert StepAt(c, states, ops, i);
    var seen :| Flushed(c, states[i], ops[i].t, seen, states[i + 1]);
  }

  // ---- the loops ----

  function SeenAt(seen: map<Key, real>, keys: set<Key>, stamp: int): map<Key, real> {
    map k | k in seen :: if k in keys && seen[k] < stamp as real then stamp as real else seen[k]
  }

  lemma ZerosOneMore(contents: Contents, live: set<Key>, k: Key, stamp: int)
    requires k !in live
    ensures AddToContents(WithZeros(contents, live, stamp), k, CounterKind, 0.0, 0.0, stamp as real)
         == WithZeros(contents, live + {k}, stamp)
  {
  }

  lemma SeenOneMore(seen: map<Key, real>, live: set<Key>, k: Key, stamp: int)
    requires k !in live
    ensures var r := SeenAt(seen, live, stamp);
            SeenAt(seen, live + {k}, stamp) == if k in r && r[k] < stamp as real then r[k := stamp as real] else r
  {
  }

  lemma NoZeros(contents: Contents, seen: map<Key, real>, stamp: int)
    ensures WithZeros(contents, {}, stamp) == contents && SeenAt(seen, {}, stamp) == seen
  {
  }

  /** countersSampleZeroValue: the counters are visited in any order. */
  method CountersSampleZeroValue(c: Settings, counters: map<Key, real>, contents: Contents, seen: map<Key, real>, stamp: int)
    returns (zeroed: Contents, raised: map<Key, real>, lapsed: set<Key>)
    ensures zeroed == WithZeros(contents, Live(c, counters, stamp), stamp)
    ensures raised == SeenAt(seen, Live(c, counters, stamp), stamp)
    ensures lapsed == counters.Keys - Live(c, counters, stamp)
  {
    zeroed, raised, lapsed := contents, seen, {};
    var left := counters.Keys;
    ghost var live: set<Key> := {};
    NoZeros(contents, seen, stamp);
    while left != {}
      invariant left <= counters.Keys
      invariant live <= counters.Keys - left && lapsed <= counters.Keys - left
      invariant forall k :: k in counters && k !in left ==>
                  if c.expiry as real + counters[k] > stamp as real then k in live && k !in lapsed
                  else k in lapsed && k !in live
      invariant zeroed == WithZeros(contents, live, stamp)
      invariant raised == SeenAt(seen, live, stamp)
      decreases |left|
    {
      var k :| k in left;
      left := left - {k};
      if c.expiry as real + counters[k] > stamp as real {
        ZerosOneMore(contents, live, k, stamp);
        SeenOneMore(seen, live, k, stamp);
        zeroed := AddToContents(zeroed, k, CounterKind, 0.0, 0.0, stamp as real);
        if k in raised && raised[k] < stamp as real {
          raised := raised[k := stamp as real];
        }
        live := live + {k};
      } else {
        lapsed := lapsed + {k};
      }
    }
    assert live == Live(c, counters, stamp);
  }

  lemma FlushMetricKey(c: Settings, k: Key, m: Metric, b: int, x: Raw)
    ensures x.key != k ==> multiset(FlushMetric(c, k, m, b))[x] == 0
  {
    var out := FlushMetric(c, k, m, b);
    assert forall i :: 0 <= i < |out| ==> out[i].key == k;
    assert x.key != k ==> x !in out;
  }

  /** How often a raw serie comes out of these contents. */
  ghost function FromContents(c: Settings, contents: Contents, b: int, x: Raw): nat {
    if x.key in contents then multiset(FlushMetric(c, x.key, contents[x.key], b))[x] else 0
  }

  /** ContextMetrics.Flush: the contexts are visited in any order. */
  method FlushContents(c: Settings, contents: Contents, b: int) returns (raw: seq<Raw>)
    ensures forall x :: multiset(raw)[x] == FromContents(c, contents, b, x)
  {
    raw := [];
    var left := contents.Keys;
    while left != {}
      invariant left <= contents.Keys
      invariant forall x :: multiset(raw)[x] == if x.key in left then 0 else FromContents(c, contents, b, x)
      decreases |left|
    {
      var k :| k in left;
      left := left - {k};
      var more := FlushMetric(c, k, contents[k], b);
      forall x: Raw
        ensures x.key != k ==> multiset(more)[x] == 0
      {
        FlushMetricKey(c, k, contents[k], b, x);
      }
      raw := raw + more;
    }
  }

  /** What the stamps visited so far contribute. */
  ghost function FromStamps(c: Settings, s: Sampler, stamps: set<int>, x: Raw): nat
    requires c.interval > 0
  {
    var b := BucketStart(c.interval, x.ts);
    if b in stamps then FromContents(c, Reported(c, s, b), b, x) else 0
  }

  /** One more bucket contributes exactly the series whose timestamp lies in it. */
  lemma FromOneMore(c: Settings, s: Sampler, now: real, stamps: set<int>, b: int, x: Raw)
    requires Timely(c, s, now) && b !in stamps && 0 <= b && Aligned(c.interval, b)
    ensures FromStamps(c, s, stamps + {b}, x)
         == FromStamps(c, s, stamps, x) + FromContents(c, Reported(c, s, b), b, x)
  {
    var contents := Reported(c, s, b);
    if FromContents(c, contents, b, x) > 0 {
      assert x in FlushMetric(c, x.key, contents[x.key], b);
      BucketOfStamp(c.interval, b, x.ts);
    }
  }

  lemma RaisedOneMore(c: Settings, counters: map<Key, real>, stamps: set<int>, b: int, seen: map<Key, real>, raised: map<Key, real>)
    requires Raised(c, counters, stamps, seen, raised)
    ensures Raised(c, counters, stamps + {b}, seen, SeenAt(raised, Live(c, counters, b), b))
  {
    var r := SeenAt(raised, Live(c, counters, b), b);
    forall k | k in seen
      ensures seen[k] <= r[k]
      ensures forall st :: st in stamps + {b} && k in Live(c, counters, st) ==> st as real <= r[k]
      ensures r[k] == seen[k] || exists st :: st in stamps + {b} && ZeroedAt(c, counters, k, st, r[k])
    {
      if r[k] != raised[k] {
        assert b in stamps + {b} && ZeroedAt(c, counters, k, b, r[k]);
      } else if r[k] != seen[k] {
        var st :| st in stamps && ZeroedAt(c, counters, k, st, raised[k]);
        assert st in stamps + {b};
      }
    }
  }

  /** State of the bucket loop of flushSeries. */
  datatype Progress = Progress(raw: seq<Raw>, seen: map<Key, real>, lapsed: set<Key>)

  ghost predicate Visited(c: Settings, s: Sampler, stamps: set<int>, p: Progress)
    requires c.interval > 0
  {
    && (forall x :: multiset(p.raw)[x] == FromStamps(c, s, stamps, x))
    && Raised(c, s.counters, stamps, s.lastSeen, p.seen)
    && p.lapsed == Lapsed(c, s.counters, stamps)
  }

  /** One closed bucket: zeros for the live counters, then its series. */
  method VisitStamp(c: Settings, s: Sampler, ghost now: real, ghost stamps: set<int>, p: Progress, b: int) returns (q: Progress)
    requires Timely(c, s, now) && b !in stamps && 0 <= b && Aligned(c.interval, b)
    requires Visited(c, s, stamps, p)
    ensures Visited(c, s, stamps + {b}, q)
  {
    var contents := if b in s.buckets then s.buckets[b] else map[];
    var zeroed, raised, lapsed := CountersSampleZeroValue(c, s.counters, contents, p.seen, b);
    var more := FlushContents(c, zeroed, b);
    q := Progress(p.raw + more, raised, p.lapsed + lapsed);
    forall x
      ensures multiset(q.raw)[x] == FromStamps(c, s, stamps + {b}, x)
    {
      FromOneMore(c, s, now, stamps, b, x);
    }
    RaisedOneMore(c, s.counters, stamps, b, s.lastSeen, p.seen);
    LapsedOneMore(c, s.counters, stamps, b);
  }

  lemma LapsedOneMore(c: Settings, counters: map<Key, real>, stamps: set<int>, b: int)
    ensures Lapsed(c, counters, stamps + {b}) == Lapsed(c, counters, stamps) + (counters.Keys - Live(c, counters, b))
  {
    forall k | k in counters
      ensures k in Lapsed(c, counters, stamps + {b}) <==> k in Lapsed(c, counters, stamps) || k !in Live(c, counters, b)
    {
      if k !in Live(c, counters, b) {
        assert b in stamps + {b};
      }
      if k in Lapsed(c, counters, stamps) {
        var st :| st in stamps && k !in Live(c, counters, st);
        assert st in stamps + {b};
      }
    }
  }

  /** The bucket loop of flushSeries: the buckets are visited in any order, open ones are passed over. */
  method VisitClosed(c: Settings, s: Sampler, ghost now: real, cutoff: int) returns (p: Progress, ghost done: set<int>)
    requires Timely(c, s, now)
    ensures done == set b | b in s.buckets && !StillOpen(c.interval, b, cutoff)
    ensures Visited(c, s, done, p)
  {
    p := Progress([], s.lastSeen, {});
    done := {};
    var left := s.buckets.Keys;
    while left != {}
      invariant left <= s.buckets.Keys && done <= s.buckets.Keys - left
      invariant forall b :: b in s.buckets && b !in left ==> (b in done <==> !StillOpen(c.interval, b, cutoff))
      invariant Visited(c, s, done, p)
      decreases |left|
    {
      var b := PickOne(left);
      left := left - {b};
      if StillOpen(c.interval, b, cutoff) {
        continue;
      }
      assert BucketOk(c, s, b, now);
      p := VisitStamp(c, s, now, done, p, b);
      done := done + {b};
    }
  }

  /** The branches of flushSeries, up to merging. */
  method FlushRaw(c: Settings, s: Sampler, ghost now: real, cutoff: int) returns (p: Progress)
    requires Timely(c, s, now) && Aligned(c.interval, cutoff) && 0 <= cutoff
    ensures Visited(c, s, Stamps(c, s, cutoff), p)
  {
    if s.buckets != map[] {
      ghost var done;
      p, done := VisitClosed(c, s, now, cutoff);
      assert done == Stamps(c, s, cutoff);
    } else if s.lastCutoff + c.interval <= cutoff {
      p := Progress([], s.lastSeen, {});
      StampsInWindow(c, s, now, cutoff, cutoff - c.interval);
      p := VisitStamp(c, s, now, {}, p, cutoff - c.interval);
      assert {} + {cutoff - c.interval} == Stamps(c, s, cutoff);
    } else {
      p := Progress([], s.lastSeen, {});
      assert Stamps(c, s, cutoff) == {};
    }
  }

  // ---- merging by signature ----

  datatype Serie = Serie(key: Key, api: ApiType, suffix: string, context: Context, points: seq<(real, real)>)

  datatype Signature = Signature(api: ApiType, key: Key, suffix: string)

  function SignatureOf(x: Raw): Signature {
    Signature(x.api, x.key, x.suffix)
  }

  function SerieSignature(s: Serie): Signature {
    Signature(s.api, s.key, s.suffix)
  }

  ghost function InSerie(s: Serie, x: Raw): nat {
    if SerieSignature(s) == SignatureOf(x) then multiset(s.points)[(x.ts, x.value)] else 0
  }

  ghost function InSeries(series: seq<Serie>, x: Raw): nat {
    if series == [] then 0 else InSerie(series[0], x) + InSeries(series[1..], x)
  }

  lemma {:induction false} InSeriesSnoc(series: seq<Serie>, s: Serie, x: Raw)
    ensures InSeries(series + [s], x) == InSeries(series, x) + InSerie(s, x)
  {
    if series != [] {
      assert (series + [s])[1..] == series[1..] + [s];
      InSeriesSnoc(series[1..], s, x);
    }
  }

  lemma {:induction false} InSeriesUpdate(series: seq<Serie>, i: nat, s: Serie, x: Raw)
    requires i < |series|
    ensures InSeries(series[i := s], x) + InSerie(series[i], x) == InSeries(series, x) + InSerie(s, x)
  {
    if i > 0 {
      InSeriesUpdate(series[1..], i - 1, s, x);
      assert series[i := s][1..] == series[1..][i - 1 := s];
    } else {
      assert series[i := s][1..] == series[1..];
    }
  }

  /** The index of series by signature is exact: one serie per signature, with the context of its key. */
  ghost predicate Indexed(series: seq<Serie>, index: map<Signature, nat>, contexts: map<Key, Context>) {
    && (forall g :: g in index ==> index[g] < |series| && SerieSignature(series[index[g]]) == g)
    && (forall i :: 0 <= i < |series| ==> SerieSignature(series[i]) in index && index[SerieSignature(series[i])] == i)
    && (forall i :: 0 <= i < |series| ==> series[i].key in contexts && series[i].context == contexts[series[i].key])
  }

  ghost function Resolved(contexts: map<Key, Context>, raw: seq<Raw>, x: Raw): nat {
    if x.key in contexts then multiset(raw)[x] else 0
  }

  lemma OneRawMore(contexts: map<Key, Context>, raw: seq<Raw>, r: Raw, x: Raw)
    ensures Resolved(contexts, raw + [r], x)
         == Resolved(contexts, raw, x) + if x == r && r.key in contexts then 1 else 0
  {
  }

  /** The merging loop of flushSeries loses and duplicates no point of a context that resolves. */
  method MergeBySignature(raw: seq<Raw>, contexts: map<Key, Context>) returns (series: seq<Serie>)
    ensures forall x :: InSeries(series, x) == Resolved(contexts, raw, x)
    ensures forall i, j :: 0 <= i < j < |series| ==> SerieSignature(series[i]) != SerieSignature(series[j])
    ensures forall i :: 0 <= i < |series| ==> series[i].key in contexts && series[i].context == contexts[series[i].key]
  {
    series := [];
    var index: map<Signature, nat> := map[];
    for n := 0 to |raw|
      invariant Indexed(series, index, contexts)
      invariant forall x :: InSeries(series, x) == Resolved(contexts, raw[..n], x)
    {
      assert raw[..n + 1] == raw[..n] + [raw[n]];
      series, index := MergeOne(raw[..n], raw[n], contexts, series, index);
    }
    assert raw[..|raw|] == raw;
  }

  method MergeOne(ghost done: seq<Raw>, r: Raw, contexts: map<Key, Context>, series: seq<Serie>, index: map<Signature, nat>)
    returns (series': seq<Serie>, index': map<Signature, nat>)
    requires Indexed(series, index, contexts)
    requires forall x :: InSeries(series, x) == Resolved(contexts, done, x)
    ensures Indexed(series', index', contexts)
    ensures forall x :: InSeries(series', x) == Resolved(contexts, done + [r], x)
  {
    series', index' := series, index;
    var g := SignatureOf(r);
    if g in index {
      var i := index[g];
      var s := series[i].(points := series[i].points + [(r.ts, r.value)]);
      series' := series[i := s];
      forall x
        ensures InSeries(series', x) == Resolved(contexts, done + [r], x)
      {
        InSeriesUpdate(series, i, s, x);
        OneRawMore(contexts, done, r, x);
      }
    } else if r.key in contexts {
      var s := Serie(r.key, r.api, r.suffix, contexts[r.key], [(r.ts, r.value)]);
      index' := index[g := |series|];
      series' := series + [s];
      forall x
        ensures InSeries(series', x) == Resolved(contexts, done + [r], x)
      {
        InSeriesSnoc(series, s, x);
        assert [] + [(r.ts, r.value)] == [(r.ts, r.value)];
        OneRawMore(contexts, done, r, x);
      }
    } else {
      forall x
        ensures InSeries(series', x) == Resolved(contexts, done + [r], x)
      {
        OneRawMore(contexts, done, r, x);
      }
    }
  }

  // ---- sketches by context ----

  /** What newSketchSeries finds for a context key; it dereferences the context unchecked. */
  datatype Lookup = Found(context: Context) | Missing

  datatype SketchSerie = SketchSerie(key: Key, context: Lookup, points: seq<SketchMap.Point>)

  function Resolve(contexts: map<Key, Context>, k: Key): Lookup {
    if k in contexts then Found(contexts[k]) else Missing
  }

  ghost function InSketches(series: seq<SketchSerie>, k: Key, p: SketchMap.Point): nat {
    if series == [] then 0
    else (if series[0].key == k then multiset(series[0].points)[p] else 0) + InSketches(series[1..], k, p)
  }

  lemma {:induction false} InSketchesSnoc(series: seq<SketchSerie>, s: SketchSerie, k: Key, p: SketchMap.Point)
    ensures InSketches(series + [s], k, p) == InSketches(series, k, p) + if s.key == k then multiset(s.points)[p] else 0
  {
    if series != [] {
      assert (series + [s])[1..] == series[1..] + [s];
      InSketchesSnoc(series[1..], s, k, p);
    }
  }

  /** The last loop of flushSketches: one serie per context, visited in any order. */
  method NewSketchSeries(points: SketchMap.Points, contexts: map<Key, Context>) returns (series: seq<SketchSerie>)
    ensures forall k, p :: InSketches(series, k, p) == SketchMap.PointsAt(points, k, p)
    ensures forall i, j :: 0 <= i < j < |series| ==> series[i].key != series[j].key
    ensures forall i :: 0 <= i < |series| ==> series[i].key in points && series[i].context == Resolve(contexts, series[i].key)
  {
    series := [];
    var left := points.Keys;
    while left != {}
      invariant left <= points.Keys
      invariant forall i :: 0 <= i < |series| ==>
                  && series[i].key in points && series[i].key !in left
                  && series[i].context == Resolve(contexts, series[i].key)
      invariant forall i, j :: 0 <= i < j < |series| ==> series[i].key != series[j].key
      invariant forall k, p :: InSketches(series, k, p) == if k in left then 0 else SketchMap.PointsAt(points, k, p)
      decreases |left|
    {
      var k :| k in left;
      left := left - {k};
      var s := SketchSerie(k, Resolve(contexts, k), points[k]);
      forall j, p
        ensures InSketches(series + [s], j, p) == if j in left then 0 else SketchMap.PointsAt(points, j, p)
      {
        InSketchesSnoc(series, s, j, p);
      }
      series := series + [s];
    }
  }

  /** What the sketches of a flush with this cutoff hold. */
  ghost function ClosedPoint(s: Sampler, cutoff: int, k: Key, p: SketchMap.Point): nat {
    SketchMap.InBucket(s.sketches, SketchMap.Closed(s.sketches, cutoff), k, p)
  }

  /** Sketches too are handed out for the window from the cutoff before the flush to its own. */
  lemma SketchWindow(c: Settings, states: seq<Sampler>, ops: seq<Op>, i: nat, k: Key, p: SketchMap.Point)
    requires Execution(c, states, ops) && i < |ops| && ops[i].FlushOp?
    requires ClosedPoint(states[i], BucketStart(c.interval, ops[i].t), k, p) > 0
    ensures states[i].lastCutoff <= p.ts < states[i + 1].lastCutoff
  {
    assert StepAt(c, states, ops, i);
    ExecutionTimely(c, states, ops, i);
    assert BucketOk(c, states[i], p.ts, TimeBefore(ops, i));
    var seen :| Flushed(c, states[i], ops[i].t, seen, states[i + 1]);
  }

  /** Hence no sketch bucket is handed out twice in a run. */
  lemma NoSketchTwice(c: Settings, states: seq<Sampler>, ops: seq<Op>, i: nat, j: nat,
                      k: Key, p: SketchMap.Point, l: Key, q: SketchMap.Point)
    requires Execution(c, states, ops) && i < j < |ops| && ops[i].FlushOp? && ops[j].FlushOp?
    requires ClosedPoint(states[i], BucketStart(c.interval, ops[i].t), k, p) > 0
    requires ClosedPoint(states[j], BucketStart(c.interval, ops[j].t), l, q) > 0
    ensures p.ts < q.ts
  {
    SketchWindow(c, states, ops, i, k, p);
    SketchWindow(c, states, ops, j, l, q);
    CutoffsAscend(c, states, ops, i + 1, j);
  }

  /** flushSketches hands out every closed sketch once, and finds the context of each. */
  method FlushSketches(s: Sampler, cutoff: int) returns (kept: SketchMap.Sketches, series: seq<SketchSerie>)
    ensures kept == map b | b in s.sketches && b >= cutoff :: s.sketches[b]
    ensures forall k, p :: InSketches(series, k, p) == ClosedPoint(s, cutoff, k, p)
    ensures forall i, j :: 0 <= i < j < |series| ==> series[i].key != series[j].key
    ensures Tracked(s) ==> forall i :: 0 <= i < |series| ==> series[i].context.Found?
    ensures forall i :: 0 <= i < |series| ==> series[i].context == Resolve(s.contexts, series[i].key)
  {
    var points;
    kept, points := SketchMap.FlushBefore(s.sketches, cutoff);
    series := NewSketchSeries(points, s.contexts);
    if Tracked(s) {
      forall i | 0 <= i < |series|
        ensures series[i].context.Found?
      {
        var p := points[series[i].key][0];
        assert SketchMap.PointsAt(points, series[i].key, p) > 0;
        FlushResolves(s, p.ts, series[i].key);
      }
    }
  }

  // ---- the object ----

  class TimeSampler {
    const c: Settings
    var contextsByKey: map<Key, Context>
    var lastSeenByKey: map<Key, real>
    var metricsByTimestamp: map<int, Contents>
    var counterLastSampledByContext: map<Key, real>
    var lastCutOffTime: int
    var sketchMap: SketchMap.Sketches

    ghost function Contents(): Sampler
      reads this
    {
      Sampler(contextsByKey, lastSeenByKey, metricsByTimestamp, counterLastSampledByContext, lastCutOffTime, sketchMap)
    }

    constructor (c: Settings)
      ensures this.c == c && Contents() == EMPTY
    {
      this.c := c;
      contextsByKey, lastSeenByKey, metricsByTimestamp := map[], map[], map[];
      counterLastSampledByContext, lastCutOffTime, sketchMap := map[], 0, map[];
    }

    method Add(x: Sample, t: real)
      requires c.interval > 0
      modifies this
      ensures Contents() == AddSample(c, old(Contents()), x, t)
    {
      if x.key !in contextsByKey {
        contextsByKey := contextsByKey[x.key := x.context];
      }
      lastSeenByKey := lastSeenByKey[x.key := t];
      var bucketStart := BucketStart(c.interval, t);
      if x.kind.Distribution? {
        if x.finite {
          sketchMap := SketchMap.Insert(sketchMap, bucketStart, x.key, x.value);
        }
      } else {
        if bucketStart !in metricsByTimestamp {
          metricsByTimestamp := metricsByTimestamp[bucketStart := map[]];
        }
        if x.kind.CounterKind? {
          counterLastSampledByContext := counterLastSampledByContext[x.key := t];
        }
        if x.finite {
          var fed := AddToContents(metricsByTimestamp[bucketStart], x.key, x.kind, x.value, x.scaled, t);
          UpdateTwice(old(metricsByTimestamp), bucketStart, map[], fed);
          metricsByTimestamp := metricsByTimestamp[bucketStart := fed];
        } else {
          UpdateSame(metricsByTimestamp, bucketStart);
        }
      }
    }

    /** A flush hands out every point of its stamps whose context resolves, once, and every closed sketch. */
    method Flush(t: real, ghost now: real)
      returns (series: seq<Serie>, sketches: seq<SketchSerie>, ghost seen: map<Key, real>)
      requires Timely(c, Contents(), now) && now <= t
      modifies this
      ensures Flushed(c, old(Contents()), t, seen, Contents())
      ensures forall x :: InSeries(series, x) ==
                if x.key in old(contextsByKey) then Expected(c, old(Contents()), BucketStart(c.interval, t), x) else 0
      ensures Tracked(old(Contents())) ==>
                forall b, x: Raw :: b in old(metricsByTimestamp) && x.key in old(metricsByTimestamp)[b] ==>
                  InSeries(series, x) == Expected(c, old(Contents()), BucketStart(c.interval, t), x)
      ensures forall b, k :: LeftWith(old(Contents()), Contents(), b, k) ==> HandedOut(c, old(Contents()), b, k, series)
      ensures forall i, j :: 0 <= i < j < |series| ==> SerieSignature(series[i]) != SerieSignature(series[j])
      ensures forall k, p :: InSketches(sketches, k, p) == ClosedPoint(old(Contents()), BucketStart(c.interval, t), k, p)
      ensures forall i, j :: 0 <= i < j < |sketches| ==> sketches[i].key != sketches[j].key
      ensures Tracked(old(Contents())) ==> forall i :: 0 <= i < |sketches| ==> sketches[i].context.Found?
    {
      var cutoffTime := BucketStart(c.interval, t);
      BucketStartHolds(c.interval, t);
      var s := Sampler(contextsByKey, lastSeenByKey, metricsByTimestamp, counterLastSampledByContext, lastCutOffTime, sketchMap);
      var p := FlushRaw(c, s, now, cutoffTime);
      metricsByTimestamp := map b | b in metricsByTimestamp && StillOpen(c.interval, b, cutoffTime) :: metricsByTimestamp[b];
      counterLastSampledByContext := counterLastSampledByContext - p.lapsed;
      series := MergeBySignature(p.raw, contextsByKey);
      if Tracked(s) {
        forall b, k | b in s.buckets && k in s.buckets[b]
          ensures k in s.contexts
        {
          FlushResolves(s, b, k);
        }
      }
      sketchMap, sketches := FlushSketches(s, cutoffTime);
      seen := p.seen;
      var stale := Stale(p.seen, t - DEFAULT_EXPIRY as real);
      contextsByKey := contextsByKey - stale;
      lastSeenByKey := p.seen - stale;
      lastCutOffTime := cutoffTime;
      AllHandedOut(c, s, now, cutoffTime, Contents(), series);
    }
  }

  lemma AllHandedOut(c: Settings, s: Sampler, now: real, cutoff: int, s': Sampler, series: seq<Serie>)
    requires Timely(c, s, now)
    requires s'.buckets == map b | b in s.buckets && StillOpen(c.interval, b, cutoff) :: s.buckets[b]
    requires forall x :: InSeries(series, x) == if x.key in s.contexts then Expected(c, s, cutoff, x) else 0
    ensures forall b, k :: LeftWith(s, s', b, k) ==> HandedOut(c, s, b, k, series)
  {
    forall b, k | LeftWith(s, s', b, k)
      ensures HandedOut(c, s, b, k, series)
    {
      forall x | x in FlushMetric(c, k, Zeroed(c, s, b, k), b)
        ensures InSeries(series, x) == multiset(FlushMetric(c, k, Zeroed(c, s, b, k), b))[x]
      {
        ClosedIsReported(c, s, now, cutoff, b, k, x);
        FlushMetricKey(c, k, Zeroed(c, s, b, k), b, x);
      }
    }
  }
}
