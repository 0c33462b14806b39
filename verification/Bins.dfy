/**
 The bins of the quantile sketch (quantile/bin.go).

 A bin list is read through its cumulative distribution: Cum(l, x) is the number of items the
 list holds at keys not above x. Two lists with the same Cum hold the same multiset of keys.
 */
module Bins {

  const MAX_BIN_WIDTH: int := 65535

  datatype Bin = Bin(k: int, n: int)

  predicate Width(b: Bin) {
    1 <= b.n <= MAX_BIN_WIDTH
  }

  /** The list may stand behind a bin of key k in a sorted list. */
  predicate From(k: int, l: seq<Bin>) {
    l == [] || k <= l[0].k
  }

  /** Keys never decrease along the list, and every bin holds 1 to 65535 items. */
  predicate WellFormed(l: seq<Bin>) {
    l == [] || (Width(l[0]) && From(l[0].k, l[1..]) && WellFormed(l[1..]))
  }

  /** As From, and a bin that repeats the key k must be full. */
  predicate After(k: int, l: seq<Bin>) {
    l == [] || k < l[0].k || (k == l[0].k && l[0].n == MAX_BIN_WIDTH)
  }

  /** Well-formed, and per key one bin of any width followed by full bins only. */
  predicate Canonical(l: seq<Bin>) {
    l == [] || (Width(l[0]) && After(l[0].k, l[1..]) && Canonical(l[1..]))
  }

  lemma {:induction false} CanonicalWellFormed(l: seq<Bin>)
    requires Canonical(l)
    ensures WellFormed(l)
  {
    if l != [] {
      CanonicalWellFormed(l[1..]);
    }
  }

  /** The same by index. */
  lemma {:induction false} WellFormedIndex(l: seq<Bin>)
    ensures WellFormed(l) <==>
            && (forall i :: 0 <= i < |l| ==> Width(l[i]))
            && (forall i, j :: 0 <= i < j < |l| ==> l[i].k <= l[j].k)
  {
    if l != [] {
      WellFormedIndex(l[1..]);
      assert forall i :: 0 <= i < |l| - 1 ==> l[1..][i] == l[i + 1];
      if WellFormed(l) {
        forall i | 0 <= i < |l|
          ensures Width(l[i])
        {
          assert i > 0 ==> l[1..][i - 1] == l[i];
        }
        forall i, j | 0 <= i < j < |l|
          ensures l[i].k <= l[j].k
        {
          assert l[1..][j - 1] == l[j];
        }
      }
    }
  }

  /** Putting a non-empty well-formed run of bins of one key in front. */
  lemma {:induction false} Prepend(a: seq<Bin>, b: seq<Bin>, k: int)
    requires WellFormed(a) && WellFormed(b) && OneKey(a, k) && From(k, b)
    ensures WellFormed(a + b)
  {
    if a == [] {
      assert a + b == b;
    } else {
      assert (a + b)[1..] == a[1..] + b;
      Prepend(a[1..], b, k);
    }
  }

  /** Putting a canonical run of bins of one key in front. */
  lemma {:induction false} CanonicalPrepend(a: seq<Bin>, b: seq<Bin>, k: int)
    requires Canonical(a) && Canonical(b) && OneKey(a, k) && After(k, b)
    ensures Canonical(a + b)
  {
    if a == [] {
      assert a + b == b;
    } else {
      assert (a + b)[1..] == a[1..] + b;
      CanonicalPrepend(a[1..], b, k);
    }
  }

  ghost predicate OneKey(l: seq<Bin>, k: int) {
    l == [] || (l[0].k == k && OneKey(l[1..], k))
  }

  lemma {:induction false} OneKeyConcat(a: seq<Bin>, b: seq<Bin>, k: int)
    requires OneKey(a, k) && OneKey(b, k)
    ensures OneKey(a + b, k)
  {
    if a == [] {
      assert a + b == b;
    } else {
      assert (a + b)[1..] == a[1..] + b;
      OneKeyConcat(a[1..], b, k);
    }
  }

  /** Total number of items. */
  function Mass(l: seq<Bin>): int {
    if l == [] then 0 else l[0].n + Mass(l[1..])
  }

  /** Number of items at keys <= x. */
  ghost function Cum(l: seq<Bin>, x: int): int {
    if l == [] then 0 else (if l[0].k <= x then l[0].n else 0) + Cum(l[1..], x)
  }

  lemma {:induction false} CumConcat(a: seq<Bin>, b: seq<Bin>, x: int)
    ensures Cum(a + b, x) == Cum(a, x) + Cum(b, x)
    ensures Mass(a + b) == Mass(a) + Mass(b)
  {
    if a == [] {
      assert a + b == b;
    } else {
      assert (a + b)[1..] == a[1..] + b;
      CumConcat(a[1..], b, x);
    }
  }

  lemma {:induction false} CumBounds(l: seq<Bin>, x: int)
    requires WellFormed(l)
    ensures 0 <= Cum(l, x) <= Mass(l) && |l| <= Mass(l)
  {
    if l != [] {
      CumBounds(l[1..], x);
    }
  }

  /** Below the least key nothing is counted. */
  lemma {:induction false} CumBelow(l: seq<Bin>, x: int)
    requires WellFormed(l) && From(x + 1, l)
    ensures Cum(l, x) == 0
  {
    if l != [] {
      CumBelow(l[1..], x);
    }
  }

  lemma {:induction false} CumMonotone(l: seq<Bin>, x: int, y: int)
    requires WellFormed(l) && x <= y
    ensures Cum(l, x) <= Cum(l, y)
  {
    if l != [] {
      CumMonotone(l[1..], x, y);
    }
  }

  /** The bins appendSafe adds for n items of key k: the remainder first, full bins behind it. */
  ghost function Split(k: int, n: int): seq<Bin>
    decreases n
  {
    if n <= MAX_BIN_WIDTH then [Bin(k, n)] else Split(k, n - MAX_BIN_WIDTH) + [Bin(k, MAX_BIN_WIDTH)]
  }

  lemma {:induction false} SplitHolds(k: int, n: int, x: int)
    ensures Cum(Split(k, n), x) == (if k <= x then n else 0)
    ensures Mass(Split(k, n)) == n
    decreases n
  {
    if n > MAX_BIN_WIDTH {
      SplitHolds(k, n - MAX_BIN_WIDTH, x);
      CumConcat(Split(k, n - MAX_BIN_WIDTH), [Bin(k, MAX_BIN_WIDTH)], x);
    }
  }

  lemma {:induction false} SplitCanonical(k: int, n: int)
    requires 1 <= n
    ensures Canonical(Split(k, n)) && WellFormed(Split(k, n))
    ensures Split(k, n) != [] && OneKey(Split(k, n), k)
    decreases n
  {
    if n > MAX_BIN_WIDTH {
      SplitCanonical(k, n - MAX_BIN_WIDTH);
      CanonicalPrepend(Split(k, n - MAX_BIN_WIDTH), [Bin(k, MAX_BIN_WIDTH)], k);
      OneKeyConcat(Split(k, n - MAX_BIN_WIDTH), [Bin(k, MAX_BIN_WIDTH)], k);
    }
    CanonicalWellFormed(Split(k, n));
  }

  /** The bins of key k in a canonical list that may stand behind key k are whole multiples of full bins. */
  lemma CumAt(l: seq<Bin>, k: int) returns (c: int)
    requires Canonical(l) && After(k, l)
    ensures Cum(l, k) == c * MAX_BIN_WIDTH
  {
    if l == [] || k < l[0].k {
      c := 0;
      CanonicalWellFormed(l);
      CumBelow(l, k);
    } else {
      c := CumAt(l[1..], k);
      c := c + 1;
    }
  }

  /** A canonical list is determined by the multiset of keys it holds. */
  lemma {:induction false} CanonicalUnique(a: seq<Bin>, b: seq<Bin>)
    requires Canonical(a) && Canonical(b)
    requires forall x :: Cum(a, x) == Cum(b, x)
    ensures a == b
  {
    CanonicalWellFormed(a);
    CanonicalWellFormed(b);
    if a != [] {
      CumBounds(a[1..], a[0].k);
      assert Cum(b, a[0].k) >= 1;
    }
    if b != [] {
      CumBounds(b[1..], b[0].k);
      assert Cum(a, b[0].k) >= 1;
    }
    if a != [] && b != [] {
      if a[0].k < b[0].k {
        CumBelow(b, a[0].k);
      } else if b[0].k < a[0].k {
        CumBelow(a, b[0].k);
      }
      var k := a[0].k;
      var ca := CumAt(a[1..], k);
      var cb := CumAt(b[1..], k);
      assert Cum(a, k) == Cum(b, k);
      assert a[0].n - b[0].n == (cb - ca) * MAX_BIN_WIDTH;
      forall x
        ensures Cum(a[1..], x) == Cum(b[1..], x)
      {
        assert Cum(a, x) == Cum(b, x);
      }
      CanonicalUnique(a[1..], b[1..]);
      assert a == [a[0]] + a[1..] && b == [b[0]] + b[1..];
    }
  }

  /** incrSafe: the bin's new width and what is left over. */
  method IncrSafe(b: Bin, amount: int) returns (b': Bin, left: int)
    requires 0 <= amount && 0 <= b.n <= MAX_BIN_WIDTH
    ensures b'.k == b.k && b'.n + left == b.n + amount
    ensures 0 <= b'.n <= MAX_BIN_WIDTH && 0 <= left
    ensures left > 0 ==> b'.n == MAX_BIN_WIDTH
  {
    var next := amount + b.n;
    if next > MAX_BIN_WIDTH {
      return Bin(b.k, MAX_BIN_WIDTH), next - MAX_BIN_WIDTH;
    }
    return Bin(b.k, next), 0;
  }

  /** n == (n / MAX) * MAX + n % MAX: the remainder bin and the full ones of appendSafe. */
  lemma {:induction false} SplitParts(k: int, r: int, m: nat)
    requires 0 <= r < MAX_BIN_WIDTH && 1 <= m
    ensures Split(k, r + m * MAX_BIN_WIDTH)
         == (if r != 0 then [Bin(k, r)] else []) + seq(m, _ => Bin(k, MAX_BIN_WIDTH))
  {
    var full := seq(m, _ => Bin(k, MAX_BIN_WIDTH));
    if r == 0 && m == 1 {
      assert full == [Bin(k, MAX_BIN_WIDTH)];
    } else if m == 1 {
      assert Split(k, r) == [Bin(k, r)];
      assert full == [Bin(k, MAX_BIN_WIDTH)];
    } else {
      SplitParts(k, r, m - 1);
      assert full == seq(m - 1, _ => Bin(k, MAX_BIN_WIDTH)) + [Bin(k, MAX_BIN_WIDTH)];
    }
  }

  method AppendSafe(bins: seq<Bin>, k: int, n: int) returns (r: seq<Bin>)
    ensures r == bins + Split(k, n)
  {
    if n <= MAX_BIN_WIDTH {
      return bins + [Bin(k, n)];
    }
    r := bins;
    if n % MAX_BIN_WIDTH != 0 {
      r := r + [Bin(k, n % MAX_BIN_WIDTH)];
    }
    ghost var start := r;
    for i := 0 to n / MAX_BIN_WIDTH
      invariant r == start + seq(i, _ => Bin(k, MAX_BIN_WIDTH))
    {
      r := r + [Bin(k, MAX_BIN_WIDTH)];
      assert seq(i + 1, _ => Bin(k, MAX_BIN_WIDTH)) == seq(i, _ => Bin(k, MAX_BIN_WIDTH)) + [Bin(k, MAX_BIN_WIDTH)];
    }
    SplitParts(k, n % MAX_BIN_WIDTH, n / MAX_BIN_WIDTH);
  }

  method NSum(l: seq<Bin>) returns (s: int)
    ensures s == Mass(l)
  {
    s := 0;
    for i := 0 to |l|
      invariant s + Mass(l[i..]) == Mass(l)
    {
      assert l[i..][1..] == l[i + 1..];
      s := s + l[i].n;
    }
  }
}
