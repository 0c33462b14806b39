/**
 The sparse store of the quantile sketch (quantile/store.go): a sorted list of bins with a
 two-pointer insert of a key batch, a two-pointer merge, and left trimming to a bin limit.
 */
module SparseStore {
  import opened Bins
  import opened Keys

  // ---- what insert and merge compute before trimming ----

  /** The merged list of insert, for sorted keys. */
  ghost function InsertBins(b: seq<Bin>, keys: seq<int>): seq<Bin>
    decreases |b| + |keys|
  {
    if keys == [] then b
    else if b != [] && b[0].k < keys[0] then [b[0]] + InsertBins(b[1..], keys)
    else
      var kn := LeadingEqual(keys);
      if b == [] || b[0].k > keys[0] then Split(keys[0], kn) + InsertBins(b, keys[kn..])
      else Split(b[0].k, b[0].n + kn) + InsertBins(b[1..], keys[kn..])
  }

  /** The merged list of merge. */
  ghost function MergeBins(s: seq<Bin>, o: seq<Bin>): seq<Bin>
    decreases |s| + |o|
  {
    if o == [] then s
    else if s != [] && s[0].k < o[0].k then [s[0]] + MergeBins(s[1..], o)
    else if s == [] || s[0].k > o[0].k then [o[0]] + MergeBins(s, o[1..])
    else Split(o[0].k, o[0].n + s[0].n) + MergeBins(s[1..], o[1..])
  }

  lemma {:induction false} InsertCum(b: seq<Bin>, keys: seq<int>, x: int)
    ensures Cum(InsertBins(b, keys), x) == Cum(b, x) + CountLE(keys, x)
    ensures Mass(InsertBins(b, keys)) == Mass(b) + |keys|
    decreases |b| + |keys|
  {
    if keys == [] {
    } else if b != [] && b[0].k < keys[0] {
      InsertCum(b[1..], keys, x);
      CumConcat([b[0]], InsertBins(b[1..], keys), x);
    } else {
      var kn := LeadingEqual(keys);
      LeadingEqualHolds(keys, x);
      if b == [] || b[0].k > keys[0] {
        InsertCum(b, keys[kn..], x);
        SplitHolds(keys[0], kn, x);
        CumConcat(Split(keys[0], kn), InsertBins(b, keys[kn..]), x);
      } else {
        InsertCum(b[1..], keys[kn..], x);
        SplitHolds(b[0].k, b[0].n + kn, x);
        CumConcat(Split(b[0].k, b[0].n + kn), InsertBins(b[1..], keys[kn..]), x);
      }
    }
  }

  /** The first key of the result is no smaller than a bound on both inputs. */
  lemma InsertFrom(b: seq<Bin>, keys: seq<int>, k: int)
    requires From(k, b) && (keys == [] || k <= keys[0]) && WellFormed(b)
    ensures From(k, InsertBins(b, keys))
  {
    if keys != [] && !(b != [] && b[0].k < keys[0]) {
      SplitCanonical(keys[0], LeadingEqual(keys));
      if b != [] {
        SplitCanonical(keys[0], b[0].n + LeadingEqual(keys));
      }
    }
  }

  lemma InsertAfter(b: seq<Bin>, keys: seq<int>, k: int)
    requires After(k, b) && (keys == [] || k < keys[0]) && WellFormed(b)
    ensures After(k, InsertBins(b, keys))
  {
    if keys != [] && !(b != [] && b[0].k < keys[0]) {
      SplitCanonical(keys[0], LeadingEqual(keys));
      if b != [] {
        SplitCanonical(keys[0], b[0].n + LeadingEqual(keys));
      }
    }
  }

  /** Insertion keeps the list sorted with legal widths and never shortens it. */
  lemma {:induction false} InsertWellFormed(b: seq<Bin>, keys: seq<int>)
    requires WellFormed(b) && Ascending(keys)
    ensures WellFormed(InsertBins(b, keys)) && |b| <= |InsertBins(b, keys)|
    decreases |b| + |keys|
  {
    if keys == [] {
    } else if b != [] && b[0].k < keys[0] {
      InsertWellFormed(b[1..], keys);
      InsertFrom(b[1..], keys, b[0].k);
      Prepend([b[0]], InsertBins(b[1..], keys), b[0].k);
    } else {
      var kn := LeadingEqual(keys);
      var k, rest := keys[0], keys[kn..];
      LeadingEqualAscending(keys);
      if b == [] || b[0].k > k {
        SplitCanonical(k, kn);
        InsertWellFormed(b, rest);
        InsertFrom(b, rest, k);
        Prepend(Split(k, kn), InsertBins(b, rest), k);
      } else {
        SplitCanonical(k, b[0].n + kn);
        InsertWellFormed(b[1..], rest);
        InsertFrom(b[1..], rest, k);
        Prepend(Split(k, b[0].n + kn), InsertBins(b[1..], rest), k);
      }
    }
  }

  /** Insertion keeps the canonical form. */
  lemma {:induction false} InsertCanonical(b: seq<Bin>, keys: seq<int>)
    requires Canonical(b) && Ascending(keys)
    ensures Canonical(InsertBins(b, keys))
    decreases |b| + |keys|
  {
    CanonicalWellFormed(b);
    if keys == [] {
    } else if b != [] && b[0].k < keys[0] {
      InsertCanonical(b[1..], keys);
      InsertAfter(b[1..], keys, b[0].k);
      CanonicalPrepend([b[0]], InsertBins(b[1..], keys), b[0].k);
    } else {
      var kn := LeadingEqual(keys);
      var k, rest := keys[0], keys[kn..];
      LeadingEqualAscending(keys);
      if b == [] || b[0].k > k {
        SplitCanonical(k, kn);
        InsertCanonical(b, rest);
        InsertAfter(b, rest, k);
        CanonicalPrepend(Split(k, kn), InsertBins(b, rest), k);
      } else {
        SplitCanonical(k, b[0].n + kn);
        InsertCanonical(b[1..], rest);
        InsertAfter(b[1..], rest, k);
        CanonicalPrepend(Split(k, b[0].n + kn), InsertBins(b[1..], rest), k);
      }
    }
  }

  lemma {:induction false} MergeCum(s: seq<Bin>, o: seq<Bin>, x: int)
    ensures Cum(MergeBins(s, o), x) == Cum(s, x) + Cum(o, x)
    ensures Mass(MergeBins(s, o)) == Mass(s) + Mass(o)
    decreases |s| + |o|
  {
    if o == [] {
    } else if s != [] && s[0].k < o[0].k {
      MergeCum(s[1..], o, x);
      CumConcat([s[0]], MergeBins(s[1..], o), x);
    } else if s == [] || s[0].k > o[0].k {
      MergeCum(s, o[1..], x);
      CumConcat([o[0]], MergeBins(s, o[1..]), x);
    } else {
      MergeCum(s[1..], o[1..], x);
      SplitHolds(o[0].k, o[0].n + s[0].n, x);
      CumConcat(Split(o[0].k, o[0].n + s[0].n), MergeBins(s[1..], o[1..]), x);
    }
  }

  lemma MergeFrom(s: seq<Bin>, o: seq<Bin>, k: int)
    requires From(k, s) && From(k, o) && WellFormed(s) && WellFormed(o)
    ensures From(k, MergeBins(s, o))
  {
    if o != [] && s != [] {
      SplitCanonical(o[0].k, o[0].n + s[0].n);
    }
  }

  lemma MergeAfter(s: seq<Bin>, o: seq<Bin>, k: int)
    requires After(k, s) && After(k, o) && WellFormed(s) && WellFormed(o)
    ensures After(k, MergeBins(s, o))
  {
    if o != [] && s != [] {
      SplitCanonical(o[0].k, o[0].n + s[0].n);
      assert Split(k, MAX_BIN_WIDTH) == [Bin(k, MAX_BIN_WIDTH)];
    }
  }

  /** Merging keeps the list sorted with legal widths and is no shorter than either input. */
  lemma {:induction false} MergeWellFormed(s: seq<Bin>, o: seq<Bin>)
    requires WellFormed(s) && WellFormed(o)
    ensures WellFormed(MergeBins(s, o))
    ensures |s| <= |MergeBins(s, o)| && |o| <= |MergeBins(s, o)|
    decreases |s| + |o|
  {
    if o == [] {
    } else if s != [] && s[0].k < o[0].k {
      MergeWellFormed(s[1..], o);
      MergeFrom(s[1..], o, s[0].k);
      Prepend([s[0]], MergeBins(s[1..], o), s[0].k);
    } else if s == [] || s[0].k > o[0].k {
      MergeWellFormed(s, o[1..]);
      MergeFrom(s, o[1..], o[0].k);
      Prepend([o[0]], MergeBins(s, o[1..]), o[0].k);
    } else {
      var k, n := o[0].k, o[0].n + s[0].n;
      SplitCanonical(k, n);
      MergeWellFormed(s[1..], o[1..]);
      MergeFrom(s[1..], o[1..], k);
      Prepend(Split(k, n), MergeBins(s[1..], o[1..]), k);
    }
  }

  /** Merging keeps the canonical form. */
  lemma {:induction false} MergeCanonical(s: seq<Bin>, o: seq<Bin>)
    requires Canonical(s) && Canonical(o)
    ensures Canonical(MergeBins(s, o))
    decreases |s| + |o|
  {
    CanonicalWellFormed(s);
    CanonicalWellFormed(o);
    if o == [] {
    } else if s != [] && s[0].k < o[0].k {
      MergeCanonical(s[1..], o);
      MergeAfter(s[1..], o, s[0].k);
      CanonicalPrepend([s[0]], MergeBins(s[1..], o), s[0].k);
    } else if s == [] || s[0].k > o[0].k {
      MergeCanonical(s, o[1..]);
      MergeAfter(s, o[1..], o[0].k);
      CanonicalPrepend([o[0]], MergeBins(s, o[1..]), o[0].k);
    } else {
      var k, n := o[0].k, o[0].n + s[0].n;
      SplitCanonical(k, n);
      MergeCanonical(s[1..], o[1..]);
      MergeAfter(s[1..], o[1..], k);
      CanonicalPrepend(Split(k, n), MergeBins(s[1..], o[1..]), k);
    }
  }
}
