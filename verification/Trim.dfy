/**
 trimLeft of the sparse store (quantile/store.go:48-99): the bins before the first kept one are
 drained into full overflow bins, and what is left over lands on the first kept bin.
 */
module Trim {
  import opened Bins

  /** The amount m lands on the first bin of a; what exceeds its width goes in front of it. */
  ghost function Land(a: seq<Bin>, m: int): seq<Bin>
    requires a != []
  {
    var next := m + a[0].n;
    if next > MAX_BIN_WIDTH then Split(a[0].k, next - MAX_BIN_WIDTH) + ([Bin(a[0].k, MAX_BIN_WIDTH)] + a[1..])
    else [Bin(a[0].k, next)] + a[1..]
  }

  /** Removing the first r bins of a while m removed items are still to be placed. */
  ghost function Drain(a: seq<Bin>, r: nat, m: int): seq<Bin>
    requires r < |a|
  {
    if r == 0 then Land(a, m)
    else if m + a[0].n > MAX_BIN_WIDTH then
      [Bin(a[0].k, MAX_BIN_WIDTH)] + Drain(a[1..], r - 1, m + a[0].n - MAX_BIN_WIDTH)
    else Drain(a[1..], r - 1, m + a[0].n)
  }

  ghost function Trimmed(a: seq<Bin>, limit: nat): seq<Bin> {
    if limit == 0 || |a| <= limit then a else Drain(a, |a| - limit, 0)
  }

  lemma {:induction false} DrainFrom(a: seq<Bin>, r: nat, m: int)
    requires r < |a| && WellFormed(a) && 0 <= m <= MAX_BIN_WIDTH
    ensures WellFormed(Drain(a, r, m)) && From(a[0].k, Drain(a, r, m))
  {
    var k, next := a[0].k, m + a[0].n;
    if r == 0 {
      if next > MAX_BIN_WIDTH {
        SplitCanonical(k, next - MAX_BIN_WIDTH);
        Prepend([Bin(k, MAX_BIN_WIDTH)], a[1..], k);
        Prepend(Split(k, next - MAX_BIN_WIDTH), [Bin(k, MAX_BIN_WIDTH)] + a[1..], k);
      } else {
        Prepend([Bin(k, next)], a[1..], k);
      }
    } else if next > MAX_BIN_WIDTH {
      DrainFrom(a[1..], r - 1, next - MAX_BIN_WIDTH);
      Prepend([Bin(k, MAX_BIN_WIDTH)], Drain(a[1..], r - 1, next - MAX_BIN_WIDTH), k);
    } else {
      DrainFrom(a[1..], r - 1, next);
    }
  }

  lemma LandHolds(a: seq<Bin>, m: int, x: int)
    requires a != []
    ensures Mass(Land(a, m)) == Mass(a) + m
    ensures Cum(Land(a, m), x) == Cum(a, x) + (if a[0].k <= x then m else 0)
  {
    var k, next := a[0].k, m + a[0].n;
    if next > MAX_BIN_WIDTH {
      SplitHolds(k, next - MAX_BIN_WIDTH, x);
      CumConcat([Bin(k, MAX_BIN_WIDTH)], a[1..], x);
      CumConcat(Split(k, next - MAX_BIN_WIDTH), [Bin(k, MAX_BIN_WIDTH)] + a[1..], x);
    } else {
      CumConcat([Bin(k, next)], a[1..], x);
    }
  }

  /** No item is lost, none moves to a smaller key, and from the first kept key upward all counts are exact. */
  lemma {:induction false} DrainHolds(a: seq<Bin>, r: nat, m: int, x: int)
    requires r < |a| && WellFormed(a) && 0 <= m <= MAX_BIN_WIDTH
    ensures Mass(Drain(a, r, m)) == Mass(a) + m
    ensures Cum(Drain(a, r, m), x) <= Cum(a, x) + m <= Cum(Drain(a, r, m), x) + MAX_BIN_WIDTH
    ensures x < a[0].k ==> Cum(Drain(a, r, m), x) == 0
    ensures a[r].k <= x ==> Cum(Drain(a, r, m), x) == Cum(a, x) + m
  {
    var next := m + a[0].n;
    WellFormedIndex(a);
    DrainFrom(a, r, m);
    if x < a[0].k {
      CumBelow(Drain(a, r, m), x);
      CumBelow(a, x);
    }
    if r == 0 {
      LandHolds(a, m, x);
    } else if next > MAX_BIN_WIDTH {
      var rest := Drain(a[1..], r - 1, next - MAX_BIN_WIDTH);
      DrainHolds(a[1..], r - 1, next - MAX_BIN_WIDTH, x);
      assert Drain(a, r, m) == [Bin(a[0].k, MAX_BIN_WIDTH)] + rest;
      CumConcat([Bin(a[0].k, MAX_BIN_WIDTH)], rest, x);
    } else {
      DrainHolds(a[1..], r - 1, next, x);
    }
  }

  /** The length is exact: one more bin for every full width held by the first r + 1 bins. */
  lemma {:induction false} DrainLength(a: seq<Bin>, r: nat, m: int)
    requires r < |a| && WellFormed(a) && 0 <= m <= MAX_BIN_WIDTH
    ensures |Drain(a, r, m)| == |a| - r + (Mass(a[..r + 1]) + m - 1) / MAX_BIN_WIDTH
  {
    var next := m + a[0].n;
    assert a[..r + 1][1..] == a[1..][..r];
    if r == 0 {
      assert Mass(a[..1]) == a[0].n;
    } else if next > MAX_BIN_WIDTH {
      DrainLength(a[1..], r - 1, next - MAX_BIN_WIDTH);
    } else {
      DrainLength(a[1..], r - 1, next);
    }
  }

  lemma {:induction false} MassUpper(a: seq<Bin>)
    requires WellFormed(a)
    ensures Mass(a) <= |a| * MAX_BIN_WIDTH
  {
    if a != [] {
      MassUpper(a[1..]);
    }
  }

  lemma PrefixWellFormed(a: seq<Bin>, n: nat)
    requires WellFormed(a) && n <= |a|
    ensures WellFormed(a[..n])
  {
    WellFormedIndex(a);
    WellFormedIndex(a[..n]);
  }

  /** Total mass, order and widths survive trimming; counts never rise, fall by at most one full bin, and are exact
      from the first kept key on. */
  lemma TrimmedHolds(a: seq<Bin>, limit: nat, x: int)
    requires WellFormed(a)
    ensures WellFormed(Trimmed(a, limit)) && Mass(Trimmed(a, limit)) == Mass(a)
    ensures Cum(Trimmed(a, limit), x) <= Cum(a, x) <= Cum(Trimmed(a, limit), x) + MAX_BIN_WIDTH
    ensures limit == 0 || |a| <= limit || a[|a| - limit].k <= x ==> Cum(Trimmed(a, limit), x) == Cum(a, x)
  {
    if limit != 0 && |a| > limit {
      DrainFrom(a, |a| - limit, 0);
      DrainHolds(a, |a| - limit, 0, x);
    }
  }

  /** The limit is exceeded by exactly as many bins as the drained part held full widths beyond one item,
      and the list never grows. */
  lemma TrimmedLength(a: seq<Bin>, limit: nat)
    requires WellFormed(a) && limit != 0 && |a| > limit
    ensures |Trimmed(a, limit)| == limit + (Mass(a[..|a| - limit + 1]) - 1) / MAX_BIN_WIDTH
    ensures |Trimmed(a, limit)| <= |a|
  {
    var r := |a| - limit;
    DrainLength(a, r, 0);
    PrefixWellFormed(a, r + 1);
    MassUpper(a[..r + 1]);
  }

  /** The loop of trimLeft over the bins to remove: full overflow bins, and the rest still missing. */
  method DrainLeft(a: array<Bin>, nRemove: nat) returns (overflow: seq<Bin>, missing: int)
    requires WellFormed(a[..]) && 0 < nRemove < a.Length
    ensures |overflow| < nRemove && 0 <= missing <= MAX_BIN_WIDTH
    ensures overflow + Drain(a[nRemove..], 0, missing) == Drain(a[..], nRemove, 0)
  {
    WellFormedIndex(a[..]);
    missing, overflow := 0, [];
    for i := 0 to nRemove
      invariant 0 <= missing <= MAX_BIN_WIDTH
      invariant if i == 0 then missing == 0 && overflow == [] else |overflow| < i
      invariant overflow + Drain(a[i..], nRemove - i, missing) == Drain(a[..], nRemove, 0)
    {
      assert a[..][i] == a[i] && a[i..][1..] == a[i + 1..];
      missing := missing + a[i].n;
      if missing > MAX_BIN_WIDTH {
        overflow := overflow + [Bin(a[i].k, MAX_BIN_WIDTH)];
        missing := missing - MAX_BIN_WIDTH;
      }
    }
  }

  /** The two copies of trimLeft. No unread bin is overwritten: the front is never longer than the gap. */
  method CopyDown(a: array<Bin>, front: seq<Bin>, gap: nat) returns (n: nat)
    requires |front| <= gap <= a.Length
    modifies a
    ensures n <= a.Length && a[..n] == front + old(a[gap..])
  {
    for j := 0 to |front|
      invariant forall i :: 0 <= i < j ==> a[i] == front[i]
      invariant forall i :: gap <= i < a.Length ==> a[i] == old(a[i])
    {
      a[j] := front[j];
    }
    for j := 0 to a.Length - gap
      invariant forall i :: 0 <= i < |front| ==> a[i] == front[i]
      invariant forall i :: gap <= i < gap + j ==> a[i - gap + |front|] == old(a[i])
      invariant forall i :: gap + j <= i < a.Length ==> a[i] == old(a[i])
    {
      a[|front| + j] := a[gap + j];
    }
    n := a.Length - gap + |front|;
    forall i | 0 <= i < n
      ensures a[i] == (front + old(a[gap..]))[i]
    {
      if |front| <= i {
        assert old(a[gap..])[i - |front|] == old(a[i - |front| + gap]);
        assert a[i - |front| + gap - gap + |front|] == old(a[i - |front| + gap]);
      }
    }
  }

  method TrimLeft(a: array<Bin>, limit: nat) returns (n: nat)
    requires WellFormed(a[..])
    modifies a
    ensures n <= a.Length
    ensures a[..n] == Trimmed(old(a[..]), limit)
  {
    if limit == 0 || a.Length <= limit {
      assert a[..a.Length] == a[..];
      return a.Length;
    }
    var nRemove := a.Length - limit;
    var overflow, missing := DrainLeft(a, nRemove);
    ghost var kept, drained, m := a[nRemove..], overflow, missing;
    WellFormedIndex(a[..]);
    assert Width(a[..][nRemove]);
    a[nRemove], missing := IncrSafe(a[nRemove], missing);
    if missing > 0 {
      overflow := AppendSafe(overflow, a[nRemove].k, missing);
    }
    assert a[nRemove..] == [a[nRemove]] + kept[1..];
    LandIs(drained, kept, m, a[nRemove], missing);
    n := CopyDown(a, overflow, nRemove);
  }

  /** incrSafe on the first kept bin, with the rest appended to the overflow, is Land. */
  lemma LandIs(overflow: seq<Bin>, kept: seq<Bin>, m: int, b: Bin, left: int)
    requires kept != [] && b.k == kept[0].k && b.n + left == kept[0].n + m
    requires 0 <= left <= MAX_BIN_WIDTH && b.n <= MAX_BIN_WIDTH && (left > 0 ==> b.n == MAX_BIN_WIDTH)
    ensures |Split(b.k, left)| == 1
    ensures (if left > 0 then overflow + Split(b.k, left) else overflow) + ([b] + kept[1..])
         == overflow + Drain(kept, 0, m)
  {
  }
}
