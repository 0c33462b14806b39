/**
 The histogram metric (metrics/histogram.go): single-pass walks over weighted samples against
 indexing the sorted list in which every sample is repeated by its weight.
 */
module Histogram {
  import opened Collections
  import opened GoArith

  datatype Sample = Sample(value: real, weight: int)

  ghost predicate Ascending(s: seq<real>) {
    |s| <= 1 || (s[0] <= s[1] && Ascending(s[1..]))
  }

  ghost predicate ByValue(s: seq<Sample>) {
    |s| <= 1 || (s[0].value <= s[1].value && ByValue(s[1..]))
  }

  ghost predicate NonNegative(s: seq<Sample>) {
    s == [] || (0 <= s[0].weight && NonNegative(s[1..]))
  }

  function TotalWeight(s: seq<Sample>): int {
    if s == [] then 0 else s[0].weight + TotalWeight(s[1..])
  }

  /** Every value as often as its weight says. */
  ghost function Expand(s: seq<Sample>): seq<real> {
    if s == [] then [] else Copies(s[0]) + Expand(s[1..])
  }

  ghost function Copies(x: Sample): seq<real> {
    seq(if x.weight > 0 then x.weight else 0, _ => x.value)
  }

  // ---- the sorted expansion ----

  function InsertReal(s: seq<real>, v: real): seq<real> {
    if s == [] || v <= s[0] then [v] + s else [s[0]] + InsertReal(s[1..], v)
  }

  function SortReals(s: seq<real>): seq<real> {
    if s == [] then [] else InsertReal(SortReals(s[1..]), s[0])
  }

  lemma {:induction false} InsertRealHolds(s: seq<real>, v: real)
    requires Ascending(s)
    ensures Ascending(InsertReal(s, v)) && multiset(InsertReal(s, v)) == multiset(s) + multiset{v}
  {
    if s == [] || v <= s[0] {
      assert ([v] + s)[1..] == s;
    } else {
      InsertRealHolds(s[1..], v);
      assert s == [s[0]] + s[1..];
      assert ([s[0]] + InsertReal(s[1..], v))[1..] == InsertReal(s[1..], v);
    }
  }

  lemma {:induction false} SortRealsHolds(s: seq<real>)
    ensures Ascending(SortReals(s)) && multiset(SortReals(s)) == multiset(s)
  {
    if s != [] {
      SortRealsHolds(s[1..]);
      InsertRealHolds(SortReals(s[1..]), s[0]);
      assert s == [s[0]] + s[1..];
    }
  }

  lemma {:induction false} HeadIsLeast(s: seq<real>, v: real)
    requires Ascending(s) && v in multiset(s)
    ensures s != [] && s[0] <= v
  {
    assert v in s;
    if s[0] != v {
      assert s == [s[0]] + s[1..];
      assert v in s[1..];
      HeadIsLeast(s[1..], v);
    }
  }

  /** An ascending list is determined by its multiset. */
  lemma {:induction false} AscendingUnique(a: seq<real>, b: seq<real>)
    requires Ascending(a) && Ascending(b) && multiset(a) == multiset(b)
    ensures a == b
  {
    SameLength(a, b);
    if a != [] {
      TailMultiset(a);
      TailMultiset(b);
      HeadIsLeast(a, b[0]);
      HeadIsLeast(b, a[0]);
      assert multiset(a[1..]) == multiset(b[1..]);
      AscendingUnique(a[1..], b[1..]);
      SameHeadAndTail(a, b);
    }
  }

  lemma {:induction false} ExpandConcat(a: seq<Sample>, b: seq<Sample>)
    ensures Expand(a + b) == Expand(a) + Expand(b) && TotalWeight(a + b) == TotalWeight(a) + TotalWeight(b)
  {
    if a == [] {
      assert a + b == b;
    } else {
      assert (a + b)[1..] == a[1..] + b;
      ExpandConcat(a[1..], b);
      assert Copies(a[0]) + (Expand(a[1..]) + Expand(b)) == Copies(a[0]) + Expand(a[1..]) + Expand(b);
    }
  }

  /** The expansion holds the same values whatever the order of the samples. */
  lemma {:induction false} ExpandPermuted(a: seq<Sample>, b: seq<Sample>)
    requires multiset(a) == multiset(b)
    ensures multiset(Expand(a)) == multiset(Expand(b)) && TotalWeight(a) == TotalWeight(b)
  {
    if a == [] {
      assert |b| == |multiset(b)| == 0;
    } else {
      assert a[0] in multiset(b);
      var i :| 0 <= i < |b| && b[i] == a[0];
      var c := b[..i] + b[i + 1..];
      PermutedTail(a, b, i);
      ExpandPermuted(a[1..], c);
      ExpandAround(b, i);
    }
  }

  lemma PermutedTail(a: seq<Sample>, b: seq<Sample>, i: nat)
    requires multiset(a) == multiset(b) && a != [] && i < |b| && b[i] == a[0]
    ensures multiset(a[1..]) == multiset(b[..i] + b[i + 1..])
  {
    assert a == [a[0]] + a[1..];
    assert b == b[..i] + ([b[i]] + b[i + 1..]);
    assert multiset(a[1..]) == multiset(a) - multiset{a[0]};
    assert multiset(b[..i] + b[i + 1..]) == multiset(b) - multiset{b[i]};
  }

  lemma ExpandAround(b: seq<Sample>, i: nat)
    requires i < |b|
    ensures multiset(Expand(b)) == multiset(Copies(b[i])) + multiset(Expand(b[..i] + b[i + 1..]))
    ensures TotalWeight(b) == b[i].weight + TotalWeight(b[..i] + b[i + 1..])
  {
    assert b == b[..i] + b[i..] && b[i..][1..] == b[i + 1..];
    ExpandConcat(b[..i], b[i..]);
    ExpandConcat(b[..i], b[i + 1..]);
  }

  lemma {:induction false} ExpandAscending(s: seq<Sample>, v: real)
    requires ByValue(s) && (s != [] ==> v <= s[0].value)
    ensures Ascending([v] + Expand(s))
  {
    if s != [] {
      ExpandAscending(s[1..], s[0].value);
      AscendingCopies(s[0], Expand(s[1..]), v);
    }
  }

  lemma AscendingCopies(x: Sample, tail: seq<real>, v: real)
    requires v <= x.value && Ascending([x.value] + tail)
    ensures Ascending([v] + (Copies(x) + tail))
    decreases x.weight
  {
    assert ([x.value] + tail)[1..] == tail;
    if x.weight <= 0 {
      assert Copies(x) + tail == tail;
      assert ([v] + tail)[1..] == tail;
    } else {
      var y := x.(weight := x.weight - 1);
      assert Copies(x) == [x.value] + Copies(y);
      AscendingCopies(y, tail, x.value);
      assert [v] + (Copies(x) + tail) == [v] + ([x.value] + (Copies(y) + tail));
      assert ([v] + (Copies(x) + tail))[1..] == [x.value] + (Copies(y) + tail);
    }
  }

  /** Sorting the samples and expanding is expanding and sorting, however ties were ordered. */
  lemma SortedExpansion(samples: seq<Sample>, sorted: seq<Sample>)
    requires ByValue(sorted) && multiset(sorted) == multiset(samples)
    ensures Expand(sorted) == SortReals(Expand(samples)) && TotalWeight(sorted) == TotalWeight(samples)
  {
    ExpandPermuted(sorted, samples);
    SortRealsHolds(Expand(samples));
    if sorted != [] {
      var v := sorted[0].value;
      ExpandAscending(sorted, v);
      assert ([v] + Expand(sorted))[1..] == Expand(sorted);
      assert Ascending(Expand(sorted));
    }
    AscendingUnique(Expand(sorted), SortReals(Expand(samples)));
  }

  lemma {:induction false} ExpandLength(s: seq<Sample>)
    requires NonNegative(s)
    ensures |Expand(s)| == TotalWeight(s)
  {
    if s != [] {
      ExpandLength(s[1..]);
    }
  }

  /** Position t of the expansion lies in the first sample whose running weight exceeds t. */
  lemma ExpandAt(s: seq<Sample>, i: nat, t: int)
    requires i < |s| && NonNegative(s) && TotalWeight(s[..i]) <= t < TotalWeight(s[..i + 1])
    ensures 0 <= t < |Expand(s)| && Expand(s)[t] == s[i].value
  {
    var pre, post := s[..i], s[i..];
    assert s == pre + post && post[1..] == s[i + 1..];
    assert s[..i + 1] == pre + [s[i]];
    NonNegativeParts(s, i);
    ExpandConcat(pre, post);
    ExpandConcat(pre, [s[i]]);
    ExpandLength(pre);
    assert TotalWeight([s[i]]) == s[i].weight;
    assert Expand(post) == Copies(s[i]) + Expand(s[i + 1..]);
    assert Expand(s)[t] == Copies(s[i])[t - |Expand(pre)|];
  }

  lemma {:induction false} NonNegativeParts(s: seq<Sample>, i: nat)
    requires NonNegative(s) && i <= |s|
    ensures NonNegative(s[..i]) && NonNegative(s[i..])
    ensures 0 <= TotalWeight(s[..i]) <= TotalWeight(s)
    ensures i < |s| ==> 0 <= s[i].weight
  {
    if i == 0 {
      assert s[..0] == [] && s[0..] == s;
      ExpandLength(s);
    } else {
      NonNegativeParts(s[1..], i - 1);
      assert s[..i][1..] == s[1..][..i - 1] && s[1..][i - 1..] == s[i..];
    }
  }

  lemma PrefixWeight(s: seq<Sample>, i: nat)
    requires i < |s|
    ensures TotalWeight(s[..i + 1]) == TotalWeight(s[..i]) + s[i].weight
  {
    assert s[..i + 1] == s[..i] + [s[i]];
    ExpandConcat(s[..i], [s[i]]);
  }

  // ---- the walks ----

  /** What addSample maintains while no sample rate is negative. */
  ghost predicate Counted(samples: seq<Sample>, count: int) {
    NonNegative(samples) && count == TotalWeight(samples)
  }

  /** The value at position t of a list, or 0 when it is shorter. */
  ghost function At(e: seq<real>, t: int): real {
    if 0 <= t < |e| then e[t] else 0.0
  }

  function MedianTarget(count: int): int {
    Div(count - 1, 2)
  }

  method MedianWalk(samples: seq<Sample>, count: int) returns (value: real)
    ensures Counted(samples, count) ==> value == At(Expand(samples), MedianTarget(count))
  {
    var weight, target := 0, MedianTarget(count);
    ghost var counted := Counted(samples, count);
    if counted {
      ExpandLength(samples);
    }
    for i := 0 to |samples|
      invariant weight == TotalWeight(samples[..i])
      invariant counted ==> weight <= target
    {
      PrefixWeight(samples, i);
      weight := weight + samples[i].weight;
      if weight > target {
        if counted {
          ExpandAt(samples, i, target);
        }
        return samples[i].value;
      }
    }
    assert samples[..|samples|] == samples;
    return 0.0;
  }

  function PercentileTarget(p: int, count: int): int {
    Div(p * count - 1, 100)
  }

  function Targets(ps: seq<int>, count: int): (ts: seq<int>)
    ensures |ts| == |ps| && forall j :: 0 <= j < |ps| ==> ts[j] == PercentileTarget(ps[j], count)
  {
    seq(|ps|, j requires 0 <= j < |ps| => PercentileTarget(ps[j], count))
  }

  /** Configured percentiles are sorted; each lies in 0..100. */
  ghost predicate Percentiles(ps: seq<int>) {
    && (forall j :: 0 <= j < |ps| ==> 0 <= ps[j] <= 100)
    && (forall i, j :: 0 <= i < j < |ps| ==> ps[i] <= ps[j])
  }

  lemma TargetRange(p: int, q: int, count: int)
    requires 0 <= p <= q <= 100 && 0 <= count
    ensures 0 <= PercentileTarget(p, count) <= PercentileTarget(q, count)
    ensures count > 0 ==> PercentileTarget(q, count) < count
    ensures count == 0 ==> PercentileTarget(p, count) == 0
  {
    TimesCount(0, p, count);
    TimesCount(p, q, count);
    TimesCount(q, 100, count);
  }

  lemma TimesCount(p: int, q: int, count: int)
    requires p <= q && 0 <= count
    ensures p * count <= q * count
  {
  }

  /** One value per percentile, each at its position of the expansion; none when every weight is zero. */
  ghost function PercentileValues(e: seq<real>, ps: seq<int>, count: int): seq<(int, real)> {
    if count == 0 then []
    else seq(|ps|, j requires 0 <= j < |ps| => (ps[j], At(e, PercentileTarget(ps[j], count))))
  }

  ghost predicate Walked(out: seq<(int, real)>, e: seq<real>, ps: seq<int>, ts: seq<int>, weight: int) {
    && |out| <= |ps| == |ts|
    && (forall j :: 0 <= j < |out| ==> out[j] == (ps[j], At(e, ts[j])))
    && (forall j :: |out| <= j < |ts| ==> weight <= ts[j])
  }

  method PercentileWalk(samples: seq<Sample>, ps: seq<int>, count: int) returns (out: seq<(int, real)>)
    ensures Counted(samples, count) && Percentiles(ps) ==> out == PercentileValues(Expand(samples), ps, count)
  {
    var ts := Targets(ps, count);
    out := [];
    ghost var regular := Counted(samples, count) && Percentiles(ps);
    if |ts| == 0 {
      return;
    }
    if regular {
      TargetsInRange(samples, ps, count);
    }
    var weight := 0;
    for i := 0 to |samples|
      invariant weight == TotalWeight(samples[..i])
      invariant |out| < |ts|
      invariant regular ==> Walked(out, Expand(samples), ps, ts, weight) && (count == 0 ==> out == [])
    {
      PrefixWeight(samples, i);
      ghost var before := weight;
      weight := weight + samples[i].weight;
      while |out| < |ts| && weight > ts[|out|]
        invariant |out| <= |ts|
        invariant regular ==> Walked(out, Expand(samples), ps, ts, before) && (count == 0 ==> out == [])
        decreases |ts| - |out|
      {
        if regular {
          ExpandAt(samples, i, ts[|out|]);
        }
        out := out + [(ps[|out|], samples[i].value)];
      }
      if |out| >= |ps| {
        break;
      }
    }
    assert samples[..|samples|] == samples;
    if regular {
      WalkEnds(out, Expand(samples), ps, ts, count);
    }
  }

  lemma WalkEnds(out: seq<(int, real)>, e: seq<real>, ps: seq<int>, ts: seq<int>, count: int)
    requires ts == Targets(ps, count) && Walked(out, e, ps, ts, if |out| < |ps| then count else 0)
    requires forall j :: 0 <= j < |ts| ==> if count == 0 then ts[j] == 0 else ts[j] < count
    requires count == 0 ==> out == []
    ensures out == PercentileValues(e, ps, count)
  {
    var next := if |out| < |ts| then ts[|out|] else 0;
    assert |out| < |ts| ==> count <= next;
  }

  lemma TargetsInRange(samples: seq<Sample>, ps: seq<int>, count: int)
    requires Counted(samples, count) && Percentiles(ps)
    ensures |Expand(samples)| == count
    ensures var ts := Targets(ps, count);
            && (forall i, j :: 0 <= i <= j < |ts| ==> 0 <= ts[i] <= ts[j])
            && (forall j :: 0 <= j < |ts| ==> if count == 0 then ts[j] == 0 else ts[j] < |Expand(samples)|)
  {
    ExpandLength(samples);
    forall i, j | 0 <= i <= j < |ps|
      ensures 0 <= PercentileTarget(ps[i], count) <= PercentileTarget(ps[j], count)
      ensures count > 0 ==> PercentileTarget(ps[j], count) < count
      ensures count == 0 ==> PercentileTarget(ps[j], count) == 0
    {
      TargetRange(ps[i], ps[j], count);
    }
  }

  method SortSamples(samples: seq<Sample>) returns (sorted: seq<Sample>)
    ensures ByValue(sorted) && multiset(sorted) == multiset(samples)
  {
    sorted := [];
    for i := 0 to |samples|
      invariant ByValue(sorted) && multiset(sorted) == multiset(samples[..i])
    {
      InsertSampleHolds(sorted, samples[i]);
      assert samples[..i + 1] == samples[..i] + [samples[i]];
      sorted := InsertSample(sorted, samples[i]);
    }
    assert samples[..|samples|] == samples;
  }

  function InsertSample(s: seq<Sample>, x: Sample): seq<Sample> {
    if s == [] || x.value <= s[0].value then [x] + s else [s[0]] + InsertSample(s[1..], x)
  }

  lemma {:induction false} InsertSampleHolds(s: seq<Sample>, x: Sample)
    requires ByValue(s)
    ensures ByValue(InsertSample(s, x)) && multiset(InsertSample(s, x)) == multiset(s) + multiset{x}
  {
    if s == [] || x.value <= s[0].value {
      assert ([x] + s)[1..] == s;
    } else {
      InsertSampleHolds(s[1..], x);
      assert s == [s[0]] + s[1..];
      assert ([s[0]] + InsertSample(s[1..], x))[1..] == InsertSample(s[1..], x);
    }
  }

  // ---- the metric ----

  ghost predicate IsHighest(s: seq<Sample>, v: real) {
    (exists x :: x in s && x.value == v) && forall x :: x in s ==> x.value <= v
  }

  ghost predicate IsLowest(s: seq<Sample>, v: real) {
    (exists x :: x in s && x.value == v) && forall x :: x in s ==> v <= x.value
  }

  lemma {:induction false} SortedEnds(s: seq<Sample>)
    requires ByValue(s) && s != []
    ensures IsHighest(s, s[|s| - 1].value) && IsLowest(s, s[0].value)
  {
    assert s[0] in s && s[|s| - 1] in s;
    if |s| > 1 {
      SortedEnds(s[1..]);
      assert s[1..][|s| - 2] == s[|s| - 1] && s[1..][0] == s[1];
      assert s[1] in s[1..];
      assert forall x :: x in s <==> x == s[0] || x in s[1..];
    }
  }

  lemma PermutedEnds(s: seq<Sample>, t: seq<Sample>, v: real)
    requires multiset(s) == multiset(t)
    ensures IsHighest(s, v) <==> IsHighest(t, v)
    ensures IsLowest(s, v) <==> IsLowest(t, v)
  {
    assert forall x :: x in s <==> x in multiset(s);
    assert forall x :: x in t <==> x in multiset(t);
  }

  datatype Aggregate = Max | Min | Median | Avg | Sum | Count | Unknown(name: string)

  /** Undefined stands for what the float division by a zero count gives. */
  datatype Value = Undefined | Number(v: real)

  datatype Serie = Aggregated(a: Aggregate, value: Value) | Percentile(p: int, value: Value)

  /** What an aggregate must report for the samples of the period. */
  ghost predicate Reports(a: Aggregate, value: Value, samples: seq<Sample>, sum: real, count: int, interval: int) {
    match a
    case Max => value.Number? && IsHighest(samples, value.v)
    case Min => value.Number? && IsLowest(samples, value.v)
    case Median =>
      Counted(samples, count) ==> value == Number(At(SortReals(Expand(samples)), MedianTarget(count)))
    case Avg => value == if count == 0 then Undefined else Number(sum / count as real)
    case Sum => value == Number(sum)
    case Count => value == if interval == 0 then Undefined else Number(count as real / interval as real)
    case Unknown(_) => false
  }

  function Implemented(aggs: seq<Aggregate>): seq<Aggregate> {
    if aggs == [] then []
    else Implemented(aggs[..|aggs| - 1])
         + if aggs[|aggs| - 1].Unknown? then [] else [aggs[|aggs| - 1]]
  }

  ghost predicate AggregatesReported(series: seq<Serie>, aggs: seq<Aggregate>,
                                     samples: seq<Sample>, sum: real, count: int, interval: int)
  {
    && |series| == |Implemented(aggs)|
    && forall i :: 0 <= i < |series| ==>
         && series[i].Aggregated? && series[i].a == Implemented(aggs)[i]
         && Reports(series[i].a, series[i].value, samples, sum, count, interval)
  }

  class Metric {
    const aggregates: seq<Aggregate>
    const percentiles: seq<int>
    const interval: int
    var samples: seq<Sample>
    var sum: real
    var count: int

    ghost predicate Valid()
      reads this
    {
      count == TotalWeight(samples) && (samples == [] ==> sum == 0.0)
    }

    constructor (aggregates: seq<Aggregate>, percentiles: seq<int>, interval: int)
      ensures Valid() && samples == [] && sum == 0.0 && count == 0
      ensures this.aggregates == aggregates && this.percentiles == percentiles && this.interval == interval
    {
      this.aggregates, this.percentiles, this.interval := aggregates, percentiles, interval;
      samples, sum, count := [], 0.0, 0;
    }

    method AddSample(value: real, sampleRate: real)
      requires Valid()
      modifies this
      ensures Valid()
      ensures samples == old(samples) + [Sample(value, WeightOf(sampleRate))]
      ensures sum == old(sum) + Scaled(value, sampleRate)
      ensures 0.0 <= sampleRate <= 1.0 ==> samples[|samples| - 1].weight >= 1
    {
      var weight := WeightOf(sampleRate);
      samples := samples + [Sample(value, weight)];
      sum := sum + Scaled(value, sampleRate);
      count := count + weight;
      ExpandConcat(old(samples), [Sample(value, weight)]);
      assert TotalWeight([Sample(value, weight)]) == weight;
      if 0.0 <= sampleRate <= 1.0 {
        WeightAtLeastOne(sampleRate);
      }
    }

    /** One aggregate of the sorted samples. */
    method AggregateOf(a: Aggregate, sorted: seq<Sample>) returns (value: Value)
      requires samples != [] && ByValue(sorted) && multiset(sorted) == multiset(samples) && !a.Unknown?
      ensures Reports(a, value, samples, sum, count, interval)
    {
      SortedEnds(sorted);
      PermutedEnds(samples, sorted, sorted[|sorted| - 1].value);
      PermutedEnds(samples, sorted, sorted[0].value);
      match a
      case Max => value := Number(sorted[|sorted| - 1].value);
      case Min => value := Number(sorted[0].value);
      case Median =>
        var m := MedianWalk(sorted, count);
        value := Number(m);
        if Counted(samples, count) {
          NonNegativePermuted(samples, sorted);
          SortedExpansion(samples, sorted);
        }
      case Avg => value := if count == 0 then Undefined else Number(sum / count as real);
      case Sum => value := Number(sum);
      case Count => value := if interval == 0 then Undefined else Number(count as real / interval as real);
    }

    /** Flushing reports every implemented aggregate and every percentile of the period, then starts over. */
    method Flush() returns (series: seq<Serie>)
      requires Valid()
      modifies this
      ensures Valid() && samples == [] && sum == 0.0 && count == 0
      ensures old(samples) == [] ==> series == []
      ensures old(samples) != [] ==>
                var n := |Implemented(aggregates)|;
                && n <= |series|
                && AggregatesReported(series[..n], aggregates, old(samples), old(sum), old(count), interval)
                && (Counted(old(samples), old(count)) && Percentiles(percentiles) ==>
                      series[n..] == PercentileSeries(
                        PercentileValues(SortReals(Expand(old(samples))), percentiles, old(count))))
    {
      if |samples| == 0 {
        return [];
      }
      var sorted := SortSamples(samples);
      SameLength(samples, sorted);
      series := [];
      for i := 0 to |aggregates|
        invariant AggregatesReported(series, aggregates[..i], samples, sum, count, interval)
        invariant samples == old(samples) && sum == old(sum) && count == old(count)
      {
        assert aggregates[..i + 1][..i] == aggregates[..i];
        if aggregates[i].Unknown? {
          continue;
        }
        var value := AggregateOf(aggregates[i], sorted);
        series := series + [Aggregated(aggregates[i], value)];
      }
      assert aggregates[..|aggregates|] == aggregates;
      var values := PercentileWalk(sorted, percentiles, count);
      if Counted(samples, count) {
        NonNegativePermuted(samples, sorted);
        SortedExpansion(samples, sorted);
      }
      series := series + PercentileSeries(values);
      samples, sum, count := [], 0.0, 0;
    }
  }

  function PercentileSeries(values: seq<(int, real)>): seq<Serie> {
    seq(|values|, i requires 0 <= i < |values| => Percentile(values[i].0, Number(values[i].1)))
  }

  /** A missing sample rate counts as 1. */
  function Inverse(sampleRate: real): real {
    1.0 / if sampleRate == 0.0 then 1.0 else sampleRate
  }

  function WeightOf(sampleRate: real): int {
    Trunc(Inverse(sampleRate))
  }

  function Scaled(value: real, sampleRate: real): real {
    value * Inverse(sampleRate)
  }

  lemma WeightAtLeastOne(sampleRate: real)
    requires 0.0 <= sampleRate <= 1.0
    ensures WeightOf(sampleRate) >= 1
  {
    assert sampleRate != 0.0 ==> Inverse(sampleRate) * sampleRate == 1.0;
    assert Inverse(sampleRate) >= 1.0;
  }

  /** The weight is the whole number of times the rate goes into one, and the scaled value times the rate the value. */
  lemma WeightOfRate(value: real, sampleRate: real)
    requires 0.0 < sampleRate <= 1.0
    ensures var w := WeightOf(sampleRate) as real; w * sampleRate <= 1.0 < (w + 1.0) * sampleRate
    ensures Scaled(value, sampleRate) * sampleRate == value
  {
    var inverse, w := Inverse(sampleRate), WeightOf(sampleRate) as real;
    WeightAtLeastOne(sampleRate);
    InverseProduct(value, sampleRate);
    WholeTimes(w, inverse, sampleRate);
  }

  lemma WholeTimes(w: real, inverse: real, r: real)
    requires w <= inverse < w + 1.0 && inverse * r == 1.0 && 0.0 < r
    ensures w * r <= 1.0 < (w + 1.0) * r
  {
    ProductOrder(w, inverse, r);
    StrictProductOrder(inverse, w + 1.0, r);
  }

  lemma InverseProduct(value: real, sampleRate: real)
    requires 0.0 < sampleRate
    ensures Inverse(sampleRate) * sampleRate == 1.0
    ensures Scaled(value, sampleRate) * sampleRate == value
  {
    var inverse := Inverse(sampleRate);
    assert (value * inverse) * sampleRate == value * (inverse * sampleRate);
  }

  lemma ProductOrder(a: real, b: real, r: real)
    requires a <= b && 0.0 < r
    ensures a * r <= b * r
  {
  }

  lemma StrictProductOrder(a: real, b: real, r: real)
    requires a < b && 0.0 < r
    ensures a * r < b * r
  {
  }

  // ---- what medians and percentiles split ----

  /** How many values lie below, and above, v. */
  ghost function Below(e: seq<real>, v: real): nat {
    if e == [] then 0 else (if e[0] < v then 1 else 0) + Below(e[1..], v)
  }

  ghost function Above(e: seq<real>, v: real): nat {
    if e == [] then 0 else (if e[0] > v then 1 else 0) + Above(e[1..], v)
  }

  lemma {:induction false} AboveAtMost(e: seq<real>, v: real)
    ensures Above(e, v) <= |e|
  {
    if e != [] {
      AboveAtMost(e[1..], v);
    }
  }

  lemma {:induction false} NoneBelow(e: seq<real>, v: real)
    requires Ascending(e) && (e != [] ==> v <= e[0])
    ensures Below(e, v) == 0
  {
    if e != [] {
      NoneBelow(e[1..], v);
    }
  }

  lemma {:induction false} AscendingAt(e: seq<real>, t: int)
    requires Ascending(e) && 0 <= t < |e|
    ensures e[0] <= e[t]
  {
    if t > 0 {
      AscendingAt(e[1..], t - 1);
    }
  }

  /** At position t of a sorted list at most t values lie below, and at most the rest above. */
  lemma {:induction false} PositionSplits(e: seq<real>, t: int)
    requires Ascending(e) && 0 <= t < |e|
    ensures Below(e, e[t]) <= t && Above(e, e[t]) <= |e| - 1 - t
  {
    AscendingAt(e, t);
    if t == 0 {
      NoneBelow(e, e[0]);
      AboveAtMost(e[1..], e[0]);
    } else {
      PositionSplits(e[1..], t - 1);
    }
  }

  /** The median: less than half of the values lie below it, and at most half above. */
  lemma MedianSplits(e: seq<real>)
    requires Ascending(e) && e != []
    ensures var v := At(e, MedianTarget(|e|)); 2 * Below(e, v) < |e| && 2 * Above(e, v) <= |e|
  {
    PositionSplits(e, MedianTarget(|e|));
  }

  /** The percentile p: less than p hundredths of the values lie below it, and at most the other hundredths above. */
  lemma PercentileSplits(e: seq<real>, p: int)
    requires Ascending(e) && e != [] && 1 <= p <= 100
    ensures var v := At(e, PercentileTarget(p, |e|));
            100 * Below(e, v) < p * |e| && 100 * Above(e, v) <= 100 * |e| - p * |e|
  {
    TargetRange(p, p, |e|);
    TimesCount(1, p, |e|);
    PositionSplits(e, PercentileTarget(p, |e|));
  }

  lemma NonNegativeIndex(s: seq<Sample>)
    ensures NonNegative(s) <==> forall x :: x in s ==> 0 <= x.weight
  {
    if s != [] {
      NonNegativeIndex(s[1..]);
      assert forall x :: x in s <==> x == s[0] || x in s[1..];
    }
  }

  lemma NonNegativePermuted(s: seq<Sample>, t: seq<Sample>)
    requires multiset(s) == multiset(t) && NonNegative(s)
    ensures NonNegative(t) && TotalWeight(s) == TotalWeight(t)
  {
    NonNegativeIndex(s);
    NonNegativeIndex(t);
    assert forall x :: x in t <==> x in multiset(t);
    assert forall x :: x in s <==> x in multiset(s);
    ExpandPermuted(s, t);
  }
}
