/**
 The order of quantile values (quantile/sparse.go:93-115, quantile/config.go:49-61): when a higher quantile has
 no smaller value, and where it drops.
 */
module QuantileOrder {
  import opened Bins
  import opened Reals
  import opened Quantile

  // ---- values by bin and position ----

  /** What a value per bin and position in the bin makes of a rank. */
  ghost function ValueAt(l: seq<Bin>, f: (int, int) -> real, r: int): real
    requires WellFormed(l) && 0 <= r < Mass(l)
  {
    f(PickIndex(l, r), Position(l, r))
  }

  /** The position of rank r in its bin. */
  ghost function Position(l: seq<Bin>, r: int): int
    requires WellFormed(l) && 0 <= r < Mass(l)
  {
    r - Mass(l[..PickIndex(l, r)])
  }

  /** The item behind position j of bin i, if that bin has one, is not smaller. */
  predicate InsideOrder(l: seq<Bin>, f: (int, int) -> real, i: int, j: int)
    requires 0 <= i < |l|
  {
    j + 1 < l[i].n ==> f(i, j) <= f(i, j + 1)
  }

  /** The first item of the next bin, if there is one, is not smaller than the last of bin i. */
  predicate BorderOrder(l: seq<Bin>, f: (int, int) -> real, i: int)
    requires 0 <= i < |l|
  {
    i + 1 < |l| ==> f(i, l[i].n - 1) <= f(i + 1, 0)
  }

  ghost predicate BinInOrder(l: seq<Bin>, f: (int, int) -> real, i: int)
    requires 0 <= i < |l|
  {
    BorderOrder(l, f, i) && forall j :: 0 <= j ==> InsideOrder(l, f, i, j)
  }

  ghost predicate BinsInOrder(l: seq<Bin>, f: (int, int) -> real) {
    forall i :: 0 <= i < |l| ==> BinInOrder(l, f, i)
  }

  lemma RankOf(l: seq<Bin>, i: int, j: int, r: int)
    requires WellFormed(l) && 0 <= i < |l| && 0 <= j < l[i].n && r == Mass(l[..i]) + j
    ensures 0 <= r < Mass(l) && PickIndex(l, r) == i && Position(l, r) == j
  {
    PrefixMassBounds(l, i);
    PrefixMassBounds(l, i + 1);
    PrefixMass(l, i);
    PickUnique(l, r, i);
  }

  /** The value at the rank of position j of bin i. */
  lemma ValueOf(l: seq<Bin>, f: (int, int) -> real, i: int, j: int, r: int)
    requires WellFormed(l) && 0 <= i < |l| && 0 <= j < l[i].n && r == Mass(l[..i]) + j
    ensures 0 <= r < Mass(l) && ValueAt(l, f, r) == f(i, j)
  {
    RankOf(l, i, j, r);
  }

  lemma NextInside(l: seq<Bin>, f: (int, int) -> real, i: int, j: int, r: int)
    requires WellFormed(l) && 0 <= i < |l| && 0 <= j && j + 1 < l[i].n && r == Mass(l[..i]) + j
    ensures 0 <= r && r + 1 < Mass(l) && ValueAt(l, f, r) == f(i, j) && ValueAt(l, f, r + 1) == f(i, j + 1)
  {
    ValueOf(l, f, i, j, r);
    ValueOf(l, f, i, j + 1, r + 1);
  }

  lemma NextAcross(l: seq<Bin>, f: (int, int) -> real, i: int, r: int)
    requires WellFormed(l) && 0 <= i && i + 1 < |l| && r == Mass(l[..i + 1]) - 1
    ensures 0 <= r && r + 1 < Mass(l) && ValueAt(l, f, r) == f(i, l[i].n - 1) && ValueAt(l, f, r + 1) == f(i + 1, 0)
  {
    LastOf(l, f, i, l[i].n - 1, r);
    FirstOf(l, f, i + 1, r + 1);
  }

  lemma LastOf(l: seq<Bin>, f: (int, int) -> real, i: int, j: int, r: int)
    requires WellFormed(l) && 0 <= i < |l| && j == l[i].n - 1 && r == Mass(l[..i + 1]) - 1
    ensures 0 <= r < Mass(l) && ValueAt(l, f, r) == f(i, j)
  {
    WidthAt(l, i);
    PrefixMass(l, i);
    ValueOf(l, f, i, j, r);
  }

  lemma FirstOf(l: seq<Bin>, f: (int, int) -> real, i: int, r: int)
    requires WellFormed(l) && 0 <= i < |l| && r == Mass(l[..i])
    ensures 0 <= r < Mass(l) && ValueAt(l, f, r) == f(i, 0)
  {
    WidthAt(l, i);
    ValueOf(l, f, i, 0, r);
  }

  lemma WidthAt(l: seq<Bin>, i: int)
    requires WellFormed(l) && 0 <= i < |l|
    ensures 1 <= l[i].n
  {
    WellFormedIndex(l);
    assert Width(l[i]);
  }

  lemma InsideFalls(l: seq<Bin>, f: (int, int) -> real, i: int, j: int, r: int)
    requires WellFormed(l) && 0 <= i < |l| && 0 <= j && j + 1 < l[i].n && r == Mass(l[..i]) + j
    ensures 0 <= r && r + 1 < Mass(l) && (ValueAt(l, f, r) > ValueAt(l, f, r + 1) <==> !InsideOrder(l, f, i, j))
  {
    NextInside(l, f, i, j, r);
  }

  lemma BorderFalls(l: seq<Bin>, f: (int, int) -> real, i: int, r: int)
    requires WellFormed(l) && 0 <= i && i + 1 < |l| && r == Mass(l[..i + 1]) - 1
    ensures 0 <= r && r + 1 < Mass(l) && (ValueAt(l, f, r) > ValueAt(l, f, r + 1) <==> !BorderOrder(l, f, i))
  {
    NextAcross(l, f, i, r);
  }

  lemma StepInOrder(l: seq<Bin>, f: (int, int) -> real, r: int)
    requires WellFormed(l) && 0 <= r && r + 1 < Mass(l) && BinsInOrder(l, f)
    ensures ValueAt(l, f, r) <= ValueAt(l, f, r + 1)
  {
    PickHolds(l, r);
    var i := PickIndex(l, r);
    var j := Position(l, r);
    assert BinInOrder(l, f, i) && l[..|l|] == l;
    if j + 1 < l[i].n {
      NextInside(l, f, i, j, r);
      assert InsideOrder(l, f, i, j);
    } else {
      NextAcross(l, f, i, r);
    }
  }

  lemma {:induction false} RanksInOrder(l: seq<Bin>, f: (int, int) -> real, r: int, t: int)
    requires WellFormed(l) && 0 <= r <= t < Mass(l) && BinsInOrder(l, f)
    ensures ValueAt(l, f, r) <= ValueAt(l, f, t)
    decreases t
  {
    if r < t {
      RanksInOrder(l, f, r, t - 1);
      StepInOrder(l, f, t - 1);
    }
  }

  /** Values are monotone over the ranks exactly if they are inside every bin and at every border. */
  lemma MonotoneByBins(l: seq<Bin>, f: (int, int) -> real)
    requires WellFormed(l)
    ensures (forall r, t :: 0 <= r <= t < Mass(l) ==> ValueAt(l, f, r) <= ValueAt(l, f, t)) <==> BinsInOrder(l, f)
  {
    if BinsInOrder(l, f) {
      forall r, t | 0 <= r <= t < Mass(l)
        ensures ValueAt(l, f, r) <= ValueAt(l, f, t)
      {
        RanksInOrder(l, f, r, t);
      }
    }
    if forall r, t :: 0 <= r <= t < Mass(l) ==> ValueAt(l, f, r) <= ValueAt(l, f, t) {
      forall i | 0 <= i < |l|
        ensures BinInOrder(l, f, i)
      {
        if i + 1 < |l| {
          NextAcross(l, f, i, Mass(l[..i + 1]) - 1);
        }
        forall j | 0 <= j
          ensures InsideOrder(l, f, i, j)
        {
          if j + 1 < l[i].n {
            NextInside(l, f, i, j, Mass(l[..i]) + j);
          }
        }
      }
    }
  }

  // ---- the interpolated values ----

  /** The value at position j of a bin of n items between these ends. */
  ghost function Item(low: real, high: real, j: int, n: int): real {
    Between(low, high, Share(n - j, n))
  }

  lemma Half(n: real)
    requires 2.0 <= n
    ensures 0.0 < 1.0 / n <= 0.5
  {
    DivideMonotone(1.0, n / 2.0, n);
    assert (n / 2.0) / n == 0.5;
  }

  lemma ShareStep(j: int, n: int)
    requires 1 <= n
    ensures Share(n - j, n) == 1.0 - Share(j, n) && Share(j + 1, n) == Share(j, n) + Share(1, n)
    ensures Share(0, n) == 0.0 && Share(n, n) == 1.0 && Share(1, n) > 0.0
  {
    var x := n as real;
    assert (x - j as real) / x == 1.0 - j as real / x;
    assert (j as real + 1.0) / x == j as real / x + 1.0 / x;
  }

  lemma ItemForm(low: real, high: real, j: int, n: int)
    requires 1 <= n
    ensures Item(low, high, j, n) == low + Times(Share(j, n), high - low)
  {
    ShareStep(j, n);
    var w := Share(j, n);
    assert Between(low, high, 1.0 - w) == low + Times(w, high - low);
  }

  /** Everywhere in a bin the value rises, stays or falls as the high end lies above, at or below the low end. */
  lemma ItemStep(low: real, high: real, j: int, n: int)
    requires 1 <= n
    ensures Item(low, high, j, n) > Item(low, high, j + 1, n) <==> low > high
    ensures Item(low, high, 0, n) == low
  {
    var w := Share(1, n);
    ShareStep(j, n);
    ItemForm(low, high, j, n);
    ItemForm(low, high, j + 1, n);
    ItemForm(low, high, 0, n);
    assert Times(Share(j, n) + w, high - low) == Times(Share(j, n), high - low) + Times(w, high - low);
  }

  /** The last item of a bin against its ends. */
  lemma LastItem(low: real, high: real, n: int)
    requires 1 <= n
    ensures Item(low, high, n - 1, n) > low <==> n != 1 && low < high
    ensures low <= high ==> Item(low, high, n - 1, n) <= high
    ensures n == 1 ==> Item(low, high, n - 1, n) == low
  {
    if n == 1 {
      ItemStep(low, high, 0, n);
    } else {
      ItemForm(low, high, n - 1, n);
      ShareStep(1, n);
      Half(n as real);
      assert Times(1.0 - Share(1, n), high - low) == high - low + Times(Share(1, n), low - high);
    }
  }

  /** The values of a list by bin and position. */
  ghost function Values(l: seq<Bin>, c: Scale, minimum: real): (int, int) -> real {
    (i, j) => if 0 <= i < |l| then Item(Low(l, c, minimum, i), c.high(l[i].k), j, l[i].n) else 0.0
  }

  lemma RankValueIs(l: seq<Bin>, c: Scale, minimum: real, r: int)
    requires WellFormed(l) && 0 <= r < Mass(l)
    ensures RankValue(l, c, minimum, r) == ValueAt(l, Values(l, c, minimum), r)
  {
    PickHolds(l, r);
  }

  /** The ends of a bin of several items are in order. */
  ghost predicate InsideAscends(l: seq<Bin>, c: Scale, minimum: real, i: nat)
    requires i < |l|
  {
    l[i].n >= 2 ==> Low(l, c, minimum, i) <= c.high(l[i].k)
  }

  /** The value of the last item of a bin. */
  ghost function LastValue(l: seq<Bin>, c: Scale, minimum: real, i: nat): real
    requires i < |l|
  {
    Item(Low(l, c, minimum, i), c.high(l[i].k), l[i].n - 1, l[i].n)
  }

  /** The last item of a bin does not exceed the low end of the next one. */
  ghost predicate BorderAscends(l: seq<Bin>, c: Scale, minimum: real, i: nat)
    requires i < |l|
  {
    i + 1 < |l| ==> LastValue(l, c, minimum, i) <= c.low(l[i + 1].k)
  }

  ghost predicate BinAscends(l: seq<Bin>, c: Scale, minimum: real, i: nat)
    requires i < |l|
  {
    InsideAscends(l, c, minimum, i) && BorderAscends(l, c, minimum, i)
  }

  ghost predicate Ascends(l: seq<Bin>, c: Scale, minimum: real) {
    forall i :: 0 <= i < |l| ==> BinAscends(l, c, minimum, i)
  }

  ghost predicate Monotone(l: seq<Bin>, c: Scale, minimum: real)
    requires WellFormed(l)
  {
    forall r, t :: 0 <= r <= t < Mass(l) ==> RankValue(l, c, minimum, r) <= RankValue(l, c, minimum, t)
  }

  lemma InsideOrderIs(l: seq<Bin>, c: Scale, minimum: real, i: int, j: int)
    requires 0 <= i < |l| && 0 <= j && j + 1 < l[i].n
    ensures InsideOrder(l, Values(l, c, minimum), i, j) <==> InsideAscends(l, c, minimum, i)
  {
    ItemStep(Low(l, c, minimum, i), c.high(l[i].k), j, l[i].n);
  }

  lemma BorderOrderIs(l: seq<Bin>, c: Scale, minimum: real, i: int)
    requires WellFormed(l) && 0 <= i < |l|
    ensures BorderOrder(l, Values(l, c, minimum), i) <==> BorderAscends(l, c, minimum, i)
  {
    if i + 1 < |l| {
      WidthAt(l, i + 1);
      ItemStep(c.low(l[i + 1].k), c.high(l[i + 1].k), 0, l[i + 1].n);
      assert Values(l, c, minimum)(i + 1, 0) == c.low(l[i + 1].k);
    }
  }

  lemma BinInOrderIs(l: seq<Bin>, c: Scale, minimum: real, i: int)
    requires WellFormed(l) && 0 <= i < |l|
    ensures BinInOrder(l, Values(l, c, minimum), i) <==> BinAscends(l, c, minimum, i)
  {
    var f := Values(l, c, minimum);
    BorderOrderIs(l, c, minimum, i);
    forall j | 0 <= j && j + 1 < l[i].n
      ensures InsideOrder(l, f, i, j) <==> InsideAscends(l, c, minimum, i)
    {
      InsideOrderIs(l, c, minimum, i, j);
    }
    assert l[i].n >= 2 && !InsideAscends(l, c, minimum, i) ==> !InsideOrder(l, f, i, 0);
  }

  /** The value is monotone over all ranks if and only if the ends of every bin of several items are in order
      and the last item of every bin does not exceed the low end of the next. */
  lemma ValueMonotone(l: seq<Bin>, c: Scale, minimum: real)
    requires WellFormed(l)
    ensures Monotone(l, c, minimum) <==> Ascends(l, c, minimum)
  {
    forall r | 0 <= r < Mass(l)
      ensures RankValue(l, c, minimum, r) == ValueAt(l, Values(l, c, minimum), r)
    {
      RankValueIs(l, c, minimum, r);
    }
    MonotoneByBins(l, Values(l, c, minimum));
    forall i | 0 <= i < |l|
      ensures BinInOrder(l, Values(l, c, minimum), i) <==> BinAscends(l, c, minimum, i)
    {
      BinInOrderIs(l, c, minimum, i);
    }
  }

  /** Every value lies on the way from the low to the high end of its bin, where the first bin starts at the minimum:
      at the low end for the first item, and by an equal step further for each next one (ItemForm). */
  lemma ValueInBin(l: seq<Bin>, c: Scale, minimum: real, i: nat, j: nat, r: int)
    requires WellFormed(l) && i < |l| && j < l[i].n && r == Mass(l[..i]) + j
    ensures 0 <= r < Mass(l)
    ensures RankValue(l, c, minimum, r)
         == Item(if i == 0 then minimum else c.low(l[i].k), c.high(l[i].k), j, l[i].n)
  {
    ValueOf(l, Values(l, c, minimum), i, j, r);
    RankValueIs(l, c, minimum, r);
  }

  /** The least item has the value of the minimum. */
  lemma LeastValue(l: seq<Bin>, c: Scale, minimum: real)
    requires WellFormed(l) && 0 < Mass(l)
    ensures RankValue(l, c, minimum, 0) == minimum
  {
    WidthAt(l, 0);
    assert l[..0] == [];
    ValueInBin(l, c, minimum, 0, 0, 0);
    ItemStep(minimum, c.high(l[0].k), 0, l[0].n);
  }

  /** At every position of a bin the value drops to the next one exactly if the ends are out of order. */
  lemma InsideDrops(l: seq<Bin>, c: Scale, minimum: real, i: nat, j: nat, r: int)
    requires WellFormed(l) && i < |l| && j + 1 < l[i].n && r == Mass(l[..i]) + j
    ensures 0 <= r && r + 1 < Mass(l)
    ensures RankValue(l, c, minimum, r) > RankValue(l, c, minimum, r + 1) <==> !InsideAscends(l, c, minimum, i)
  {
    var f := Values(l, c, minimum);
    InsideFalls(l, f, i, j, r);
    RankValueIs(l, c, minimum, r);
    RankValueIs(l, c, minimum, r + 1);
    InsideOrderIs(l, c, minimum, i, j);
  }

  /** At the border to the next bin the value drops exactly if the last item exceeds the low end of that bin. */
  lemma BorderDrops(l: seq<Bin>, c: Scale, minimum: real, i: nat, r: int)
    requires WellFormed(l) && i + 1 < |l| && r == Mass(l[..i + 1]) - 1
    ensures 0 <= r && r + 1 < Mass(l)
    ensures RankValue(l, c, minimum, r) > RankValue(l, c, minimum, r + 1) <==> !BorderAscends(l, c, minimum, i)
  {
    var f := Values(l, c, minimum);
    BorderFalls(l, f, i, r);
    RankValueIs(l, c, minimum, r);
    RankValueIs(l, c, minimum, r + 1);
    BorderOrderIs(l, c, minimum, i);
  }

  /** Behind the first bin, a bin of several items with a negative low end has its ends the wrong way round:
      the value drops from each of its items to the next. */
  lemma NegativeBinDrops(l: seq<Bin>, f64: int -> real, gamma: real, minimum: real, i: nat, j: nat, r: int)
    requires WellFormed(l) && 1 <= i < |l| && j + 1 < l[i].n && r == Mass(l[..i]) + j
    requires f64(l[i].k) < 0.0 && gamma > 1.0
    ensures 0 <= r && r + 1 < Mass(l)
    ensures var c := ScaleOf(f64, gamma); RankValue(l, c, minimum, r) > RankValue(l, c, minimum, r + 1)
  {
    Stretch(f64, gamma, l[i].k);
    InsideDrops(l, ScaleOf(f64, gamma), minimum, i, j, r);
  }

  lemma Stretch(f64: int -> real, gamma: real, k: int)
    requires gamma > 1.0
    ensures var low, high := f64(k), ScaleOf(f64, gamma).high(k);
            if low > 0.0 then low < high else if low < 0.0 then high < low else high == 0.0
  {
    assert ScaleOf(f64, gamma).high(k) == Times(f64(k), gamma);
    StretchReal(f64(k), gamma);
  }

  lemma StretchReal(x: real, gamma: real)
    requires gamma > 1.0
    ensures if x > 0.0 then x < Times(x, gamma) else if x < 0.0 then Times(x, gamma) < x else Times(x, gamma) == 0.0
  {
  }

  /** A key split over two bins: behind the first bin the value drops at the border between them exactly if the
      earlier one holds several items and its ends are in order and apart; for the first bin exactly if its last
      item exceeds the low end of the key. */
  lemma SplitKeyDrops(l: seq<Bin>, c: Scale, minimum: real, i: nat, r: int)
    requires WellFormed(l) && i + 1 < |l| && l[i].k == l[i + 1].k && r == Mass(l[..i + 1]) - 1
    ensures 0 <= r && r + 1 < Mass(l)
    ensures RankValue(l, c, minimum, r) > RankValue(l, c, minimum, r + 1) <==>
              if i == 0 then LastValue(l, c, minimum, 0) > c.low(l[0].k)
              else 2 <= l[i].n && c.low(l[i].k) < c.high(l[i].k)
  {
    BorderDrops(l, c, minimum, i, r);
    WidthAt(l, i);
    if i > 0 {
      LastItem(c.low(l[i].k), c.high(l[i].k), l[i].n);
    }
  }

  // ---- the condition on keys ----

  /** The scale of the source's configuration around a key: powers of gamma at positive keys, mirrored at
      negative ones. */
  predicate GeometricAt(f64: int -> real, gamma: real, k: int) {
    (k > 0 ==> f64(k + 1) == f64(k) * gamma) && f64(-k) == -f64(k)
  }

  ghost predicate Geometric(f64: int -> real, gamma: real) {
    gamma > 1.0 && f64(0) == 0.0 && f64(1) > 0.0 && forall k :: GeometricAt(f64, gamma, k)
  }

  /** Low and high ends around a key, as they follow from a ratio above one. */
  predicate EndsAt(f: int -> real, h: int -> real, k: int) {
    && (k > 0 ==> f(k + 1) == h(k)) && f(-k) == -f(k)
    && (if f(k) > 0.0 then f(k) < h(k) else if f(k) < 0.0 then h(k) < f(k) else h(k) == 0.0)
  }

  ghost predicate Ends(f: int -> real, h: int -> real) {
    f(0) == 0.0 && f(1) > 0.0 && forall k :: EndsAt(f, h, k)
  }

  lemma GeometricEnds(f64: int -> real, gamma: real)
    requires Geometric(f64, gamma)
    ensures Ends(f64, ScaleOf(f64, gamma).high)
  {
    forall k
      ensures EndsAt(f64, ScaleOf(f64, gamma).high, k)
    {
      assert GeometricAt(f64, gamma, k);
      Stretch(f64, gamma, k);
    }
  }

  lemma {:induction false} PositiveEnds(f: int -> real, h: int -> real, j: int, k: int)
    requires Ends(f, h) && 0 < j <= k
    ensures 0.0 < f(j) <= f(k)
    ensures j < k ==> h(j) <= f(k)
    decreases k
  {
    if k > 1 {
      PositiveEnds(f, h, if j < k then j else k - 1, k - 1);
      assert EndsAt(f, h, k - 1);
    }
  }

  /** The sign of the scale, and its order. */
  lemma EndsOrder(f: int -> real, h: int -> real, j: int, k: int)
    requires Ends(f, h) && j <= k
    ensures f(j) <= f(k)
    ensures j < k && 0 <= j ==> h(j) <= f(k)
    ensures if j < 0 then h(j) < f(j) < 0.0 else if j == 0 then f(j) == h(j) == 0.0 else 0.0 < f(j) < h(j)
  {
    assert EndsAt(f, h, j) && EndsAt(f, h, k);
    if 0 < j {
      PositiveEnds(f, h, j, k);
    } else if j < 0 {
      PositiveEnds(f, h, -j, -j);
      if k < 0 {
        PositiveEnds(f, h, -k, -j);
      }
    }
    if j <= 0 < k {
      PositiveEnds(f, h, k, k);
    }
  }

  /** Behind the first bin: a bin of several items has no negative key, and repeats its key in the next bin only
      if that key is zero. */
  predicate KeyAscends(l: seq<Bin>, i: nat)
    requires i < |l|
  {
    l[i].n >= 2 ==> l[i].k >= 0 && (i + 1 < |l| && l[i + 1].k == l[i].k ==> l[i].k == 0)
  }

  lemma KeyAscendsIs(l: seq<Bin>, c: Scale, minimum: real, i: nat)
    requires WellFormed(l) && Ends(c.low, c.high) && 1 <= i < |l|
    ensures BinAscends(l, c, minimum, i) <==> KeyAscends(l, i)
  {
    WellFormedIndex(l);
    assert Width(l[i]);
    EndsOrder(c.low, c.high, l[i].k, l[i].k);
    if i + 1 < |l| {
      assert l[i].k <= l[i + 1].k;
      EndsOrder(c.low, c.high, l[i].k, l[i + 1].k);
      LastItem(c.low(l[i].k), c.high(l[i].k), l[i].n);
    }
  }

  /** On the configuration's scale quantiles are monotone if and only if the first bin ascends and every other
      bin of several items has no negative key and does not repeat a positive key in the next bin. */
  lemma MonotoneKeys(l: seq<Bin>, f64: int -> real, gamma: real, minimum: real)
    requires WellFormed(l) && Geometric(f64, gamma) && l != []
    ensures Monotone(l, ScaleOf(f64, gamma), minimum) <==>
              BinAscends(l, ScaleOf(f64, gamma), minimum, 0) && forall i :: 1 <= i < |l| ==> KeyAscends(l, i)
  {
    var c := ScaleOf(f64, gamma);
    GeometricEnds(f64, gamma);
    ValueMonotone(l, c, minimum);
    forall i | 1 <= i < |l|
      ensures BinAscends(l, c, minimum, i) <==> KeyAscends(l, i)
    {
      KeyAscendsIs(l, c, minimum, i);
    }
    assert Ascends(l, c, minimum) <==> BinAscends(l, c, minimum, 0) && forall i :: 1 <= i < |l| ==> BinAscends(l, c, minimum, i);
  }
}
