/**
 Quantile queries (quantile/sparse.go:72-125): the bin a query picks, its weight and its value.
 */
module Quantile {
  import opened Bins
  import opened Keys
  import opened Reals
  import opened SketchRuns

  /** math.RoundToEven over the reals. */
  function RoundToEven(r: real): int {
    var f := r.Floor;
    if r - f as real < 0.5 || (r - f as real == 0.5 && f % 2 == 0) then f else f + 1
  }

  /** The whole number nearest to x, the even one of two equally near. */
  predicate Nearest(n: int, x: real) {
    && x - 0.5 <= n as real <= x + 0.5
    && (n as real == x - 0.5 || n as real == x + 0.5 ==> n % 2 == 0)
  }

  /** There is one. */
  lemma NearestUnique(m: int, n: int, x: real)
    requires Nearest(m, x) && Nearest(n, x)
    ensures m == n
  {
  }

  lemma RoundToEvenNearest(r: real)
    ensures Nearest(RoundToEven(r), r)
  {
  }

  function Rank(count: int, q: real): int {
    RoundToEven(Times(q, (count - 1) as real))
  }

  lemma RankMonotone(count: int, p: real, q: real)
    requires 1 <= count && p <= q
    ensures Rank(count, p) <= Rank(count, q)
  {
    var d := (count - 1) as real;
    TimesOrder(d, p, q);
  }

  lemma RankInRange(count: int, q: real)
    requires 1 <= count && 0.0 <= q <= 1.0
    ensures 0 <= Rank(count, q) < count
  {
    RankMonotone(count, 0.0, q);
    RankMonotone(count, q, 1.0);
  }

  /** The bin holding the item of rank r. */
  ghost function PickIndex(l: seq<Bin>, r: int): (i: nat)
    requires WellFormed(l) && 0 <= r < Mass(l)
    ensures i < |l|
  {
    if r < l[0].n then 0 else 1 + PickIndex(l[1..], r - l[0].n)
  }

  /** The part of the picked bin at or above the item of rank r. */
  ghost function PickWeight(l: seq<Bin>, r: int): real
    requires WellFormed(l) && 0 <= r < Mass(l)
  {
    Share(Mass(l[..PickIndex(l, r) + 1]) - r, l[PickIndex(l, r)].n)
  }

  ghost function Share(part: int, whole: int): real {
    if whole == 0 then 0.0 else part as real / whole as real
  }

  lemma {:induction false} PickHolds(l: seq<Bin>, r: int)
    requires WellFormed(l) && 0 <= r < Mass(l)
    ensures var i := PickIndex(l, r);
            && Mass(l[..i]) <= r < Mass(l[..i + 1]) == Mass(l[..i]) + l[i].n
            && Cum(l, l[i].k - 1) <= r < Cum(l, l[i].k)
            && Width(l[i])
  {
    var i := PickIndex(l, r);
    if r < l[0].n {
      CumBelow(l, l[0].k - 1);
      CumBounds(l[1..], l[0].k);
      assert l[..1][1..] == [];
    } else {
      PickHolds(l[1..], r - l[0].n);
      WellFormedIndex(l);
      assert l[i] == l[1..][i - 1];
      assert l[..i][1..] == l[1..][..i - 1] && l[..i + 1][1..] == l[1..][..i];
    }
  }

  /** The weight is in (0, 1]. */
  lemma PickWeightRange(l: seq<Bin>, r: int)
    requires WellFormed(l) && 0 <= r < Mass(l)
    ensures 0.0 < PickWeight(l, r) <= 1.0
  {
    PickHolds(l, r);
    var i := PickIndex(l, r);
    DivideIn((Mass(l[..i + 1]) - r) as real, l[i].n as real);
  }

  lemma DivideIn(a: real, n: real)
    requires 0.0 < a <= n
    ensures 0.0 < a / n <= 1.0
  {
    if a / n > 1.0 {
      assert a == (a / n) * n;
    }
  }

  /** A higher rank picks the same bin with less weight or a later bin. */
  lemma {:induction false} PickMonotone(l: seq<Bin>, r: int, t: int)
    requires WellFormed(l) && 0 <= r <= t < Mass(l)
    ensures PickIndex(l, r) <= PickIndex(l, t)
    ensures PickIndex(l, r) == PickIndex(l, t) ==> PickWeight(l, t) <= PickWeight(l, r)
  {
    PickIndexMonotone(l, r, t);
    if PickIndex(l, r) == PickIndex(l, t) {
      PickHolds(l, r);
      var i := PickIndex(l, r);
      var m := Mass(l[..i + 1]);
      DivideMonotone((m - t) as real, (m - r) as real, l[i].n as real);
    }
  }

  lemma {:induction false} PickIndexMonotone(l: seq<Bin>, r: int, t: int)
    requires WellFormed(l) && 0 <= r <= t < Mass(l)
    ensures PickIndex(l, r) <= PickIndex(l, t)
  {
    if l[0].n <= r {
      PickIndexMonotone(l[1..], r - l[0].n, t - l[0].n);
    }
  }

  lemma DivideMonotone(a: real, b: real, n: real)
    requires a <= b && 0.0 < n
    ensures a / n <= b / n
  {
  }

  /**
   Of every sketch, however it was filled, merged and trimmed: the rank is the whole number nearest to q times
   one less than the count, even where two are as near, and the bin picked for it has a key no smaller
   than the key of the item of that rank among everything ever inserted, no greater than any key from
   which the counts are exact, and so the very key of that item wherever it is itself exact.
   */
  lemma QuantilePicksRank(h: History, limit: nat, q: real, y: int)
    requires AllKeys(h) != [] && 0.0 < q < 1.0
    ensures var s := Eval(h, limit);
            var r := Rank(s.count, q);
            && Valid(s) && s.count == |AllKeys(h)| && Nearest(r, Times(q, (|AllKeys(h)| - 1) as real))
            && 0 <= r < Mass(s.bins) && r < |SortKeys(AllKeys(h))|
            && var trueKey := SortKeys(AllKeys(h))[r];
               var picked := s.bins[PickIndex(s.bins, r)].k;
               && trueKey <= picked
               && (trueKey <= y && ExactFrom(h, limit, y) ==> picked <= y)
               && (ExactFrom(h, limit, trueKey) ==> picked == trueKey)
  {
    var s := Eval(h, limit);
    RunValid(h, limit);
    var r := Rank(s.count, q);
    RankInRange(s.count, q);
    RoundToEvenNearest(Times(q, (s.count - 1) as real));
    SortKeysHolds(AllKeys(h), 0);
    var trueKey := SortKeys(AllKeys(h))[r];
    PickedNotBelow(h, limit, r);
    if trueKey <= y && ExactFrom(h, limit, y) {
      PickedNotAbove(h, limit, r, y);
    }
    if ExactFrom(h, limit, trueKey) {
      PickedNotAbove(h, limit, r, trueKey);
    }
  }

  lemma PickedNotBelow(h: History, limit: nat, r: int)
    requires 0 <= r < |SortKeys(AllKeys(h))| && Valid(Eval(h, limit)) && r < Mass(Eval(h, limit).bins)
    ensures var s := Eval(h, limit); SortKeys(AllKeys(h))[r] <= s.bins[PickIndex(s.bins, r)].k
  {
    var s, keys := Eval(h, limit), SortKeys(AllKeys(h));
    var picked := s.bins[PickIndex(s.bins, r)].k;
    PickHolds(s.bins, r);
    SortKeysHolds(AllKeys(h), picked);
    RankLocates(keys, r);
    RunCounts(h, limit, picked);
    PickedAtLeast(keys, r, keys[r], picked);
  }

  lemma PickedNotAbove(h: History, limit: nat, r: int, x: int)
    requires 0 <= r < |SortKeys(AllKeys(h))| && Valid(Eval(h, limit)) && r < Mass(Eval(h, limit).bins)
    requires SortKeys(AllKeys(h))[r] <= x && ExactFrom(h, limit, x)
    ensures var s := Eval(h, limit); s.bins[PickIndex(s.bins, r)].k <= x
  {
    var s, keys := Eval(h, limit), SortKeys(AllKeys(h));
    PickHolds(s.bins, r);
    SortKeysHolds(AllKeys(h), x);
    RankLocates(keys, r);
    RunCounts(h, limit, x);
    PickedAtMost(s.bins, keys, r, keys[r], s.bins[PickIndex(s.bins, r)].k, x);
  }

  lemma PickedAtLeast(keys: seq<int>, r: int, trueKey: int, picked: int)
    requires CountLE(keys, trueKey - 1) <= r < CountLE(keys, picked)
    ensures trueKey <= picked
  {
    if picked < trueKey {
      CountLEMonotone(keys, picked, trueKey - 1);
    }
  }

  lemma PickedAtMost(l: seq<Bin>, keys: seq<int>, r: int, trueKey: int, picked: int, x: int)
    requires WellFormed(l) && Cum(l, picked - 1) <= r < CountLE(keys, trueKey)
    requires trueKey <= x && Cum(l, x) == CountLE(keys, x)
    ensures picked <= x
  {
    CountLEMonotone(keys, trueKey, x);
    if x < picked {
      CumMonotone(l, x, picked - 1);
    }
  }

  // ---- values ----

  datatype Answer = NaN | Number(value: real)

  /** The low and the high end of the bin of a key. */
  datatype Scale = Scale(low: int -> real, high: int -> real)

  /** The scale of a configuration: f64 gives the low end, gamma the ratio of the high end to it. */
  function ScaleOf(f64: int -> real, gamma: real): Scale {
    Scale(f64, k => Times(f64(k), gamma))
  }

  function Between(low: real, high: real, weight: real): real {
    low * weight + high * (1.0 - weight)
  }

  /** The low end of a bin: the minimum for the first one. */
  ghost function Low(l: seq<Bin>, c: Scale, minimum: real, i: nat): real
    requires i < |l|
  {
    if i == 0 then minimum else c.low(l[i].k)
  }

  /** The value for the item of rank r. */
  ghost function RankValue(l: seq<Bin>, c: Scale, minimum: real, r: int): real
    requires WellFormed(l) && 0 <= r < Mass(l)
  {
    var i := PickIndex(l, r);
    Between(Low(l, c, minimum, i), c.high(l[i].k), PickWeight(l, r))
  }

  method Query(l: seq<Bin>, count: int, minimum: real, maximum: real, f64: int -> real, gamma: real, q: real)
    returns (v: Answer)
    requires WellFormed(l) && Mass(l) == count
    ensures count == 0 ==> v == Number(0.0)
    ensures count != 0 && q <= 0.0 ==> v == Number(minimum)
    ensures count != 0 && q >= 1.0 ==> v == Number(maximum)
    ensures count != 0 && 0.0 < q < 1.0 ==>
              0 <= Rank(count, q) < count && v == Number(RankValue(l, ScaleOf(f64, gamma), minimum, Rank(count, q)))
    ensures Nearest(Rank(count, q), Times(q, (count - 1) as real))
  {
    RoundToEvenNearest(Times(q, (count - 1) as real));
    if count == 0 {
      return Number(0.0);
    }
    if q <= 0.0 {
      return Number(minimum);
    }
    if q >= 1.0 {
      return Number(maximum);
    }
    CumBounds(l, 0);
    RankInRange(count, q);
    assert l[..|l|] == l;
    var n, rWant := 0, Rank(count, q);
    for i := 0 to |l|
      invariant n == Mass(l[..i]) <= rWant
    {
      PrefixMass(l, i);
      WellFormedIndex(l);
      n := n + l[i].n;
      if n <= rWant {
        continue;
      }
      PickUnique(l, rWant, i);
      assert Width(l[i]);
      var weight := (n - rWant) as real / l[i].n as real;
      var vLow := f64(l[i].k);
      var vHigh := vLow * gamma;
      assert weight == PickWeight(l, rWant) && vHigh == ScaleOf(f64, gamma).high(l[i].k);
      if i == |l| {
        vHigh := maximum;
      } else if i == 0 {
        vLow := minimum;
      }
      return Number(Between(vLow, vHigh, weight));
    }
    return NaN;
  }

  lemma PrefixMass(l: seq<Bin>, i: nat)
    requires i < |l|
    ensures Mass(l[..i + 1]) == Mass(l[..i]) + l[i].n
  {
    assert l[..i + 1] == l[..i] + [l[i]];
    CumConcat(l[..i], [l[i]], 0);
  }

  lemma {:induction false} PickUnique(l: seq<Bin>, r: int, i: nat)
    requires WellFormed(l) && 0 <= r < Mass(l) && i < |l|
    requires Mass(l[..i]) <= r < Mass(l[..i + 1])
    ensures i == PickIndex(l, r)
  {
    assert i > 0 ==> l[..i][0] == l[0] && l[..i][1..] == l[1..][..i - 1];
    assert l[..i + 1][0] == l[0] && l[..i + 1][1..] == l[1..][..i];
    if r < l[0].n {
      if i > 0 {
        PrefixMassBounds(l[1..], i - 1);
      }
    } else {
      PickUnique(l[1..], r - l[0].n, i - 1);
    }
  }

  lemma {:induction false} PrefixMassBounds(l: seq<Bin>, i: nat)
    requires WellFormed(l) && i <= |l|
    ensures 0 <= Mass(l[..i]) <= Mass(l)
  {
    if i == 0 {
      CumBounds(l, 0);
    } else {
      assert l[..i][1..] == l[1..][..i - 1];
      PrefixMassBounds(l[1..], i - 1);
    }
  }
}
