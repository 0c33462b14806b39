/**
 Runs of the quantile sketch (quantile/sparse.go, quantile/store.go:101-185): what any mix of
 insert batches and merges leaves in the bins, and which bin a quantile query picks.
 */
module SketchRuns {
  import opened Bins
  import opened Keys
  import opened SparseStore
  import opened Trim

  /** The two fields of a sparse store. */
  datatype View = View(bins: seq<Bin>, count: int)

  ghost function InsertView(s: View, keys: seq<int>, limit: nat): View {
    View(Trimmed(InsertBins(s.bins, SortKeys(keys)), limit), s.count + |keys|)
  }

  ghost function MergeView(s: View, o: View, limit: nat): View {
    View(Trimmed(MergeBins(s.bins, o.bins), limit), s.count + o.count)
  }

  ghost predicate Valid(s: View) {
    WellFormed(s.bins) && Mass(s.bins) == s.count
  }

  /** How a sketch came to be. A copy has the history of its original, a reset starts over at Fresh. */
  datatype History =
    | Fresh
    | Inserted(base: History, batch: seq<int>)
    | Merged(left: History, right: History)

  ghost function Eval(h: History, limit: nat): View {
    match h
    case Fresh => View([], 0)
    case Inserted(b, batch) => InsertView(Eval(b, limit), batch, limit)
    case Merged(l, r) => MergeView(Eval(l, limit), Eval(r, limit), limit)
  }

  /** Every key ever put in. */
  ghost function AllKeys(h: History): seq<int> {
    match h
    case Fresh => []
    case Inserted(b, batch) => AllKeys(b) + batch
    case Merged(l, r) => AllKeys(l) + AllKeys(r)
  }

  /** Trimming this list keeps the counts up to x exact. */
  ghost predicate TrimExact(a: seq<Bin>, limit: nat, x: int) {
    limit == 0 || |a| <= limit || a[|a| - limit].k <= x
  }

  /** Every trim of the history had its first kept key at or below x. */
  ghost predicate ExactFrom(h: History, limit: nat, x: int) {
    match h
    case Fresh => true
    case Inserted(b, batch) =>
      ExactFrom(b, limit, x) && TrimExact(InsertBins(Eval(b, limit).bins, SortKeys(batch)), limit, x)
    case Merged(l, r) =>
      && ExactFrom(l, limit, x) && ExactFrom(r, limit, x)
      && TrimExact(MergeBins(Eval(l, limit).bins, Eval(r, limit).bins), limit, x)
  }

  /** Every history leaves a sorted list with legal widths whose total is the count of inserted keys. */
  lemma {:induction false} RunValid(h: History, limit: nat)
    ensures Valid(Eval(h, limit)) && Eval(h, limit).count == |AllKeys(h)|
  {
    match h
    case Fresh =>
    case Inserted(b, batch) =>
      RunValid(b, limit);
      InsertValid(Eval(b, limit), batch, limit);
    case Merged(l, r) =>
      RunValid(l, limit);
      RunValid(r, limit);
      MergeValid(Eval(l, limit), Eval(r, limit), limit);
  }

  lemma InsertValid(s: View, keys: seq<int>, limit: nat)
    requires Valid(s)
    ensures Valid(InsertView(s, keys, limit)) && WellFormed(InsertBins(s.bins, SortKeys(keys)))
  {
    SortKeysHolds(keys, 0);
    InsertWellFormed(s.bins, SortKeys(keys));
    InsertCum(s.bins, SortKeys(keys), 0);
    TrimmedHolds(InsertBins(s.bins, SortKeys(keys)), limit, 0);
  }

  lemma MergeValid(s: View, o: View, limit: nat)
    requires Valid(s) && Valid(o)
    ensures Valid(MergeView(s, o, limit)) && WellFormed(MergeBins(s.bins, o.bins))
  {
    MergeWellFormed(s.bins, o.bins);
    MergeCum(s.bins, o.bins, 0);
    TrimmedHolds(MergeBins(s.bins, o.bins), limit, 0);
  }

  lemma InsertCounts(s: View, keys: seq<int>, limit: nat, x: int)
    requires Valid(s)
    ensures var all := Cum(s.bins, x) + CountLE(keys, x);
            && Cum(InsertView(s, keys, limit).bins, x) <= all
            && (TrimExact(InsertBins(s.bins, SortKeys(keys)), limit, x)
                ==> Cum(InsertView(s, keys, limit).bins, x) == all)
  {
    InsertValid(s, keys, limit);
    SortKeysHolds(keys, x);
    InsertCum(s.bins, SortKeys(keys), x);
    TrimmedHolds(InsertBins(s.bins, SortKeys(keys)), limit, x);
  }

  lemma MergeCounts(s: View, o: View, limit: nat, x: int)
    requires Valid(s) && Valid(o)
    ensures var all := Cum(s.bins, x) + Cum(o.bins, x);
            && Cum(MergeView(s, o, limit).bins, x) <= all
            && (TrimExact(MergeBins(s.bins, o.bins), limit, x)
                ==> Cum(MergeView(s, o, limit).bins, x) == all)
  {
    MergeValid(s, o, limit);
    MergeCum(s.bins, o.bins, x);
    TrimmedHolds(MergeBins(s.bins, o.bins), limit, x);
  }

  /** Items only ever move to greater keys, and not at all from the highest trim point on. */
  lemma {:induction false} RunCounts(h: History, limit: nat, x: int)
    ensures Cum(Eval(h, limit).bins, x) <= CountLE(AllKeys(h), x)
    ensures ExactFrom(h, limit, x) ==> Cum(Eval(h, limit).bins, x) == CountLE(AllKeys(h), x)
  {
    match h
    case Fresh =>
    case Inserted(b, batch) =>
      RunCounts(b, limit, x);
      RunValid(b, limit);
      InsertCounts(Eval(b, limit), batch, limit, x);
      CountLEConcat(AllKeys(b), batch, x);
    case Merged(l, r) =>
      RunCounts(l, limit, x);
      RunCounts(r, limit, x);
      RunValid(l, limit);
      RunValid(r, limit);
      MergeCounts(Eval(l, limit), Eval(r, limit), limit, x);
      CountLEConcat(AllKeys(l), AllKeys(r), x);
  }

  // ---- canonical form ----

  /** What one insertion of all the keys at once, never trimmed, makes of an empty store. */
  ghost function Reference(keys: seq<int>): seq<Bin> {
    InsertBins([], SortKeys(keys))
  }

  lemma ReferenceCanonical(keys: seq<int>, x: int)
    ensures Canonical(Reference(keys)) && Cum(Reference(keys), x) == CountLE(keys, x)
  {
    SortKeysHolds(keys, x);
    InsertCanonical([], SortKeys(keys));
    InsertCum([], SortKeys(keys), x);
  }

  /** Without a limit every history is canonical, hence the reference. */
  lemma {:induction false} UntrimmedIsReference(h: History)
    ensures Canonical(Eval(h, 0).bins) && Eval(h, 0).bins == Reference(AllKeys(h))
  {
    match h {
      case Fresh =>
      case Inserted(b, batch) =>
        UntrimmedIsReference(b);
        SortKeysHolds(batch, 0);
        InsertCanonical(Eval(b, 0).bins, SortKeys(batch));
      case Merged(l, r) =>
        UntrimmedIsReference(l);
        UntrimmedIsReference(r);
        MergeCanonical(Eval(l, 0).bins, Eval(r, 0).bins);
    }
    forall x
      ensures Cum(Eval(h, 0).bins, x) == Cum(Reference(AllKeys(h)), x)
    {
      Untrimmed(h, x);
      RunCounts(h, 0, x);
      ReferenceCanonical(AllKeys(h), x);
    }
    ReferenceCanonical(AllKeys(h), 0);
    CanonicalUnique(Eval(h, 0).bins, Reference(AllKeys(h)));
  }

  lemma {:induction false} Untrimmed(h: History, x: int)
    ensures ExactFrom(h, 0, x)
  {
    match h
    case Fresh =>
    case Inserted(b, batch) => Untrimmed(b, x);
    case Merged(l, r) => Untrimmed(l, x); Untrimmed(r, x);
  }

  /** A history whose untrimmed bins fit the limit was never trimmed on the way. */
  lemma {:induction false} FitsNeverTrims(h: History, limit: nat)
    requires |Eval(h, 0).bins| <= limit
    ensures Eval(h, limit) == Eval(h, 0)
  {
    match h
    case Fresh =>
    case Inserted(b, batch) =>
      RunValid(b, 0);
      SortKeysHolds(batch, 0);
      InsertWellFormed(Eval(b, 0).bins, SortKeys(batch));
      FitsNeverTrims(b, limit);
    case Merged(l, r) =>
      RunValid(l, 0);
      RunValid(r, 0);
      MergeWellFormed(Eval(l, 0).bins, Eval(r, 0).bins);
      FitsNeverTrims(l, limit);
      FitsNeverTrims(r, limit);
  }

  /** While the keys fit, any mix of batches and merges gives the one canonical list for those keys. */
  lemma RunIsReference(h: History, limit: nat)
    requires limit == 0 || |Reference(AllKeys(h))| <= limit
    ensures Eval(h, limit) == View(Reference(AllKeys(h)), |AllKeys(h)|)
    ensures Canonical(Eval(h, limit).bins)
  {
    UntrimmedIsReference(h);
    if limit != 0 {
      FitsNeverTrims(h, limit);
    }
    RunValid(h, limit);
  }

  /** Batching and order are invisible: two histories of the same keys end in the same store. */
  lemma OrderInvisible(h: History, g: History, limit: nat)
    requires multiset(AllKeys(h)) == multiset(AllKeys(g))
    requires limit == 0 || |Reference(AllKeys(h))| <= limit
    ensures Eval(h, limit) == Eval(g, limit)
  {
    forall x
      ensures Cum(Reference(AllKeys(h)), x) == Cum(Reference(AllKeys(g)), x)
    {
      CountLEMultiset(AllKeys(h), AllKeys(g), x);
      ReferenceCanonical(AllKeys(h), x);
      ReferenceCanonical(AllKeys(g), x);
    }
    ReferenceCanonical(AllKeys(h), 0);
    ReferenceCanonical(AllKeys(g), 0);
    assert |AllKeys(h)| == |multiset(AllKeys(h))| == |multiset(AllKeys(g))| == |AllKeys(g)|;
    CanonicalUnique(Reference(AllKeys(h)), Reference(AllKeys(g)));
    RunIsReference(h, limit);
    RunIsReference(g, limit);
  }

  /** Merging is commutative and associative on stores that fit. */
  lemma MergeCommutes(a: History, b: History, limit: nat)
    requires limit == 0 || |Reference(AllKeys(Merged(a, b)))| <= limit
    ensures Eval(Merged(a, b), limit) == Eval(Merged(b, a), limit)
  {
    assert multiset(AllKeys(Merged(a, b))) == multiset(AllKeys(Merged(b, a)));
    OrderInvisible(Merged(a, b), Merged(b, a), limit);
  }

  lemma MergeAssociates(a: History, b: History, c: History, limit: nat)
    requires limit == 0 || |Reference(AllKeys(Merged(Merged(a, b), c)))| <= limit
    ensures Eval(Merged(Merged(a, b), c), limit) == Eval(Merged(a, Merged(b, c)), limit)
  {
    var g, h := Merged(Merged(a, b), c), Merged(a, Merged(b, c));
    assert AllKeys(g) == AllKeys(h) by {
      assert AllKeys(g) == (AllKeys(a) + AllKeys(b)) + AllKeys(c);
      assert AllKeys(h) == AllKeys(a) + (AllKeys(b) + AllKeys(c));
    }
    OrderInvisible(g, h, limit);
  }
}
