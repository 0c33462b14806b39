/**
 The sketch object (quantile/sparse.go, quantile/store.go) and the buffered agent sketch
 (quantile/agent.go). Values enter as the keys the configuration gives them.
 */
module AgentSketch {
  import opened Bins
  import opened Keys
  import opened SparseStore
  import opened Trim
  import opened SketchRuns
  import Quantile
  import Reals

  const AGENT_BUF_CAP := 512
  const DEFAULT_BIN_LIMIT: nat := 4096

  class Sketch {
    var bins: seq<Bin>
    var count: int
    var cnt: int  // Basic.Cnt, the summary's own count

    ghost function Contents(): View
      reads this
    {
      View(bins, count)
    }

    constructor ()
      ensures Contents() == Eval(Fresh, 0) && cnt == 0
    {
      bins, count, cnt := [], 0, 0;
    }

    method InsertBatch(limit: nat, batch: seq<int>)
      requires Valid(Contents())
      modifies this
      ensures Contents() == InsertView(old(Contents()), batch, limit) && Valid(Contents())
      ensures cnt == old(cnt)
    {
      count := count + |batch|;
      var tmp := InsertInto(bins, SortKeys(batch));
      InsertValid(old(Contents()), batch, limit);
      bins := TrimList(tmp, limit);
    }

    method MergeFrom(limit: nat, o: Sketch)
      requires Valid(Contents()) && Valid(o.Contents())
      modifies this
      ensures Contents() == MergeView(old(Contents()), old(o.Contents()), limit) && Valid(Contents())
      ensures cnt == old(cnt) + old(o.cnt)
      ensures o != this ==> o.Contents() == old(o.Contents())
    {
      var others := o.bins;
      cnt := cnt + o.cnt;
      count := count + o.count;
      var tmp := MergeInto(bins, others);
      MergeValid(old(Contents()), old(o.Contents()), limit);
      bins := TrimList(tmp, limit);
    }

    method Reset()
      modifies this
      ensures Contents() == Eval(Fresh, 0) && cnt == 0
    {
      bins, count, cnt := [], 0, 0;
    }

    method CopyTo(dst: Sketch)
      modifies dst
      ensures dst.Contents() == old(Contents()) && dst.cnt == old(cnt)
    {
      dst.bins := bins;
      dst.count := count;
      dst.cnt := cnt;
    }

    method QuantileOf(minimum: real, maximum: real, f64: int -> real, gamma: real, q: real) returns (v: Quantile.Answer)
      requires Valid(Contents())
      ensures count != 0 && 0.0 < q < 1.0 ==>
                && 0 <= Quantile.Rank(count, q) < count
                && v == Quantile.Number(Quantile.RankValue(bins, Quantile.ScaleOf(f64, gamma), minimum, Quantile.Rank(count, q)))
      ensures Quantile.Nearest(Quantile.Rank(count, q), Reals.Times(q, (count - 1) as real))
    {
      v := Quantile.Query(bins, count, minimum, maximum, f64, gamma, q);
    }
  }

  /** The insert loops from any point on: what they make of the bins and keys left, behind what is done. */
  ghost function InsertFromHere(done: seq<Bin>, b: seq<Bin>, keys: seq<int>): seq<Bin>
    decreases |b| + |keys|
  {
    if keys == [] then done + b
    else if b != [] && b[0].k < keys[0] then InsertFromHere(done + [b[0]], b[1..], keys)
    else
      var kn := LeadingEqual(keys);
      if b == [] || b[0].k > keys[0] then InsertFromHere(done + Split(keys[0], kn), b, keys[kn..])
      else InsertFromHere(done + Split(b[0].k, b[0].n + kn), b[1..], keys[kn..])
  }

  lemma {:induction false} InsertFromHereIs(done: seq<Bin>, b: seq<Bin>, keys: seq<int>)
    ensures InsertFromHere(done, b, keys) == done + InsertBins(b, keys)
    decreases |b| + |keys|
  {
    if keys == [] {
    } else if b != [] && b[0].k < keys[0] {
      InsertFromHereIs(done + [b[0]], b[1..], keys);
      Shift(done, [b[0]], InsertBins(b[1..], keys));
    } else {
      var kn := LeadingEqual(keys);
      if b == [] || b[0].k > keys[0] {
        InsertFromHereIs(done + Split(keys[0], kn), b, keys[kn..]);
        Shift(done, Split(keys[0], kn), InsertBins(b, keys[kn..]));
      } else {
        InsertFromHereIs(done + Split(b[0].k, b[0].n + kn), b[1..], keys[kn..]);
        Shift(done, Split(b[0].k, b[0].n + kn), InsertBins(b[1..], keys[kn..]));
      }
    }
  }

  lemma Shift(a: seq<Bin>, b: seq<Bin>, c: seq<Bin>)
    ensures (a + b) + c == a + (b + c)
  {
  }

  /** The two-pointer loop of insert over the bins and the sorted keys, and the loop over the keys left. */
  method InsertInto(bins: seq<Bin>, keys: seq<int>) returns (tmp: seq<Bin>)
    ensures tmp == InsertBins(bins, keys)
  {
    tmp := [];
    var sIdx: nat, keyIdx: nat := 0, 0;
    while sIdx < |bins| && keyIdx < |keys|
      invariant sIdx <= |bins| && keyIdx <= |keys|
      invariant InsertFromHere(tmp, bins[sIdx..], keys[keyIdx..]) == InsertFromHere([], bins, keys)
      decreases |bins| - sIdx + |keys| - keyIdx
    {
      var b, vk := bins[sIdx], keys[keyIdx];
      assert bins[sIdx..][1..] == bins[sIdx + 1..];
      if b.k < vk {
        tmp := tmp + [b];
        sIdx := sIdx + 1;
      } else if b.k > vk {
        // Equal keys must go in the same bin.
        var kn := BufCountLeadingEqual(keys, keyIdx);
        assert keys[keyIdx..][kn..] == keys[keyIdx + kn..];
        tmp := AppendSafe(tmp, vk, kn);
        keyIdx := keyIdx + kn;
      } else {
        var kn := BufCountLeadingEqual(keys, keyIdx);
        assert keys[keyIdx..][kn..] == keys[keyIdx + kn..];
        tmp := AppendSafe(tmp, b.k, b.n + kn);
        sIdx := sIdx + 1;
        keyIdx := keyIdx + kn;
      }
    }
    ghost var rest := bins[sIdx..];
    assert rest == [] || keys[keyIdx..] == [];
    assert rest == [] ==> tmp + rest == tmp;
    tmp := tmp + bins[sIdx..];
    assert tmp + [] == tmp;
    while keyIdx < |keys|
      invariant keyIdx <= |keys|
      invariant InsertFromHere(tmp, [], keys[keyIdx..]) == InsertFromHere([], bins, keys)
    {
      var kn := BufCountLeadingEqual(keys, keyIdx);
      assert keys[keyIdx..][kn..] == keys[keyIdx + kn..];
      tmp := AppendSafe(tmp, keys[keyIdx], kn);
      keyIdx := keyIdx + kn;
    }
    assert keys[keyIdx..] == [] && tmp + [] == tmp;
    InsertFromHereIs([], bins, keys);
    assert [] + InsertBins(bins, keys) == InsertBins(bins, keys);
  }

  /** The merge loops from any point on. */
  ghost function MergeFromHere(done: seq<Bin>, s: seq<Bin>, o: seq<Bin>): seq<Bin>
    decreases |s| + |o|
  {
    if o == [] then done + s
    else if s != [] && s[0].k < o[0].k then MergeFromHere(done + [s[0]], s[1..], o)
    else if s == [] || s[0].k > o[0].k then MergeFromHere(done + [o[0]], s, o[1..])
    else MergeFromHere(done + Split(o[0].k, o[0].n + s[0].n), s[1..], o[1..])
  }

  lemma {:induction false} MergeFromHereIs(done: seq<Bin>, s: seq<Bin>, o: seq<Bin>)
    ensures MergeFromHere(done, s, o) == done + MergeBins(s, o)
    decreases |s| + |o|
  {
    if o == [] {
    } else if s != [] && s[0].k < o[0].k {
      MergeFromHereIs(done + [s[0]], s[1..], o);
      Shift(done, [s[0]], MergeBins(s[1..], o));
    } else if s == [] || s[0].k > o[0].k {
      MergeFromHereIs(done + [o[0]], s, o[1..]);
      Shift(done, [o[0]], MergeBins(s, o[1..]));
    } else {
      MergeFromHereIs(done + Split(o[0].k, o[0].n + s[0].n), s[1..], o[1..]);
      Shift(done, Split(o[0].k, o[0].n + s[0].n), MergeBins(s[1..], o[1..]));
    }
  }

  /** The two-pointer loops of merge. */
  method MergeInto(bins: seq<Bin>, others: seq<Bin>) returns (tmp: seq<Bin>)
    ensures tmp == MergeBins(bins, others)
  {
    tmp := [];
    var sIdx: nat := 0;
    for i := 0 to |others|
      invariant sIdx <= |bins|
      invariant MergeFromHere(tmp, bins[sIdx..], others[i..]) == MergeFromHere([], bins, others)
    {
      var ob := others[i];
      while sIdx < |bins| && bins[sIdx].k < ob.k
        invariant sIdx <= |bins|
        invariant MergeFromHere(tmp, bins[sIdx..], others[i..]) == MergeFromHere([], bins, others)
      {
        assert bins[sIdx..][1..] == bins[sIdx + 1..];
        tmp := tmp + [bins[sIdx]];
        sIdx := sIdx + 1;
      }
      assert others[i..][1..] == others[i + 1..];
      if sIdx >= |bins| || bins[sIdx].k > ob.k {
        tmp := tmp + [ob];
      } else {
        assert bins[sIdx..][1..] == bins[sIdx + 1..];
        tmp := AppendSafe(tmp, ob.k, ob.n + bins[sIdx].n);
        sIdx := sIdx + 1;
      }
    }
    tmp := tmp + bins[sIdx..];
    MergeFromHereIs([], bins, others);
  }

  /** trimLeft on the scratch slice that insert and merge build. */
  method TrimList(tmp: seq<Bin>, limit: nat) returns (r: seq<Bin>)
    requires WellFormed(tmp)
    ensures r == Trimmed(tmp, limit)
  {
    var a := new Bin[|tmp|](i requires 0 <= i < |tmp| => tmp[i]);
    assert a[..] == tmp;
    var n := TrimLeft(a, limit);
    r := a[..n];
  }

  // ---- the buffered agent sketch ----

  datatype AgentView = AgentView(sketch: View, buf: seq<int>)

  ghost function FlushView(a: AgentView): AgentView {
    if a.buf == [] then a else AgentView(InsertView(a.sketch, a.buf, DEFAULT_BIN_LIMIT), [])
  }

  ghost function AddView(a: AgentView, k: int, n: nat): AgentView {
    var grown := AgentView(a.sketch, a.buf + Copies(k, n));
    if |grown.buf| < AGENT_BUF_CAP then grown else FlushView(grown)
  }

  ghost function Copies(k: int, n: nat): seq<int> {
    seq(n, _ => k)
  }

  datatype Add = Add(k: int, n: nat)

  ghost function RunAgent(adds: seq<Add>): AgentView {
    if adds == [] then AgentView(View([], 0), [])
    else AddView(RunAgent(adds[..|adds| - 1]), adds[|adds| - 1].k, adds[|adds| - 1].n)
  }

  /** Every key handed to the agent, in order. */
  ghost function Offered(adds: seq<Add>): seq<int> {
    if adds == [] then []
    else Offered(adds[..|adds| - 1]) + Copies(adds[|adds| - 1].k, adds[|adds| - 1].n)
  }

  /** The buffered sketch is an ordinary one fed in batches; what is not in it is in the buffer. */
  lemma {:induction false} AgentRefinesSketch(adds: seq<Add>) returns (h: History)
    ensures RunAgent(adds).sketch == Eval(h, DEFAULT_BIN_LIMIT)
    ensures AllKeys(h) + RunAgent(adds).buf == Offered(adds)
    ensures |RunAgent(adds).buf| < AGENT_BUF_CAP
  {
    if adds == [] {
      h := Fresh;
    } else {
      var last := adds[|adds| - 1];
      h := AgentRefinesSketch(adds[..|adds| - 1]);
      var before := RunAgent(adds[..|adds| - 1]);
      var grown := before.buf + Copies(last.k, last.n);
      assert AllKeys(h) + grown == (AllKeys(h) + before.buf) + Copies(last.k, last.n);
      if |grown| >= AGENT_BUF_CAP {
        h := Inserted(h, grown);
      }
    }
  }

  /** What Finish returns depends only on the multiset of keys, while they fit: the buffering is invisible. */
  lemma AgentFinishIsReference(adds: seq<Add>)
    requires |Reference(Offered(adds))| <= DEFAULT_BIN_LIMIT
    ensures FlushView(RunAgent(adds)).sketch == View(Reference(Offered(adds)), |Offered(adds)|)
  {
    var h := AgentRefinesSketch(adds);
    var buf := RunAgent(adds).buf;
    if buf == [] {
      assert AllKeys(h) + buf == AllKeys(h);
      RunIsReference(h, DEFAULT_BIN_LIMIT);
    } else {
      RunIsReference(Inserted(h, buf), DEFAULT_BIN_LIMIT);
    }
  }

  class Agent {
    const sketch: Sketch
    var buf: seq<int>

    ghost function Contents(): AgentView
      reads this, sketch
    {
      AgentView(sketch.Contents(), buf)
    }

    /** The summary counts every value at once, the bins only when the buffer is flushed. */
    ghost predicate AgentValid()
      reads this, sketch
    {
      Valid(sketch.Contents()) && sketch.cnt == sketch.count + |buf|
    }

    constructor ()
      ensures AgentValid() && Contents() == RunAgent([]) && fresh(sketch)
    {
      sketch := new Sketch();
      buf := [];
    }

    method Flush()
      requires AgentValid()
      modifies this, sketch
      ensures AgentValid() && Contents() == FlushView(old(Contents()))
    {
      if |buf| == 0 {
        return;
      }
      sketch.InsertBatch(DEFAULT_BIN_LIMIT, buf);
      buf := [];
    }

    method InsertN(k: int, n: nat)
      requires AgentValid()
      modifies this, sketch
      ensures AgentValid() && Contents() == AddView(old(Contents()), k, n)
    {
      sketch.cnt := sketch.cnt + n;
      for i := 0 to n
        invariant buf == old(buf) + Copies(k, i)
        invariant sketch.Contents() == old(sketch.Contents()) && sketch.cnt == old(sketch.cnt) + n
      {
        buf := buf + [k];
        assert Copies(k, i + 1) == Copies(k, i) + [k];
      }
      if |buf| < AGENT_BUF_CAP {
        return;
      }
      Flush();
    }

    method Insert(k: int)
      requires AgentValid()
      modifies this, sketch
      ensures AgentValid() && Contents() == AddView(old(Contents()), k, 1)
    {
      sketch.cnt := sketch.cnt + 1;
      buf := buf + [k];
      assert Copies(k, 1) == [k];
      if |buf| < AGENT_BUF_CAP {
        return;
      }
      Flush();
    }

    method Finish() returns (r: Sketch?)
      requires AgentValid()
      modifies this, sketch
      ensures AgentValid() && Contents() == FlushView(old(Contents()))
      ensures r == null <==> old(sketch.count) + |old(buf)| == 0
      ensures r != null ==> fresh(r) && r.Contents() == Contents().sketch
    {
      Flush();
      if sketch.cnt == 0 && |buf| == 0 {
        return null;
      }
      r := new Sketch();
      sketch.CopyTo(r);
    }

    method Reset()
      modifies this, sketch
      ensures AgentValid() && Contents() == RunAgent([])
    {
      sketch.Reset();
      buf := [];
    }
  }
}
