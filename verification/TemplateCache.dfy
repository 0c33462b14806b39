/**
 The template cache of autodiscovery (autodiscovery/templatecache.go): templates by digest, with an
 index from AD identifiers to digests that Set and Del keep by hand.
 */
module TemplateCache {
  import opened Collections

  /** A template: its AD identifiers, and the other contents written to the digest before and behind them. */
  datatype Template = Template(before: string, ids: seq<string>, after: string)

  /** Digest hashes the contents written one after the other (autodiscovery/integration/config.go:255-280). */
  function Digest(hash: string -> string, t: Template): string {
    hash(t.before + Concat(t.ids) + t.after)
  }

  datatype Cache = Cache(
    index: map<string, seq<string>>,      // adIDToDigests
    idsOf: map<string, seq<string>>,      // digestToADId
    templates: map<string, Template>)     // digestToTemplate

  function DigestsUnder(index: map<string, seq<string>>, id: string): seq<string> {
    if id in index then index[id] else []
  }

  ghost function AddAll(index: map<string, seq<string>>, ids: seq<string>, d: string): map<string, seq<string>> {
    if ids == [] then index
    else
      var m := AddAll(index, ids[..|ids| - 1], d);
      m[ids[|ids| - 1] := DigestsUnder(m, ids[|ids| - 1]) + [d]]
  }

  /** The list without the first occurrence of d. */
  function RemoveFirst(s: seq<string>, d: string): seq<string> {
    if s == [] then [] else if s[0] == d then s[1..] else [s[0]] + RemoveFirst(s[1..], d)
  }

  ghost function RemoveAll(index: map<string, seq<string>>, ids: seq<string>, d: string): map<string, seq<string>> {
    if ids == [] then index
    else
      var m := RemoveAll(index, ids[..|ids| - 1], d);
      var id := ids[|ids| - 1];
      if d in DigestsUnder(m, id) then m[id := RemoveFirst(DigestsUnder(m, id), d)] else m
  }

  ghost function Set(hash: string -> string, c: Cache, t: Template): Cache {
    var d := Digest(hash, t);
    if t.ids == [] || d in c.idsOf then c
    else Cache(AddAll(c.index, t.ids, d), c.idsOf[d := t.ids], c.templates[d := t])
  }

  ghost function Del(hash: string -> string, c: Cache, t: Template): Cache {
    var d := Digest(hash, t);
    if d !in c.idsOf then c
    else Cache(RemoveAll(c.index, t.ids, d), c.idsOf - {d}, c.templates - {d})
  }

  /** How often digest d stands under id. */
  ghost function Indexed(c: Cache, id: string, d: string): nat {
    multiset(DigestsUnder(c.index, id))[d]
  }

  /** How often the stored template of digest d names id. */
  ghost function Named(c: Cache, id: string, d: string): nat {
    if d in c.idsOf then multiset(c.idsOf[d])[id] else 0
  }

  ghost predicate Consistent(hash: string -> string, c: Cache) {
    && c.idsOf.Keys == c.templates.Keys
    && (forall d :: d in c.templates ==> c.templates[d].ids == c.idsOf[d] && Digest(hash, c.templates[d]) == d)
    && (forall id, d :: Indexed(c, id, d) == Named(c, id, d))
  }

  lemma {:induction false} AddAllCounts(index: map<string, seq<string>>, ids: seq<string>, d: string, id: string, e: string)
    ensures multiset(DigestsUnder(AddAll(index, ids, d), id))[e]
         == multiset(DigestsUnder(index, id))[e] + if e == d then multiset(ids)[id] else 0
  {
    if ids != [] {
      var last := ids[|ids| - 1];
      AddAllCounts(index, ids[..|ids| - 1], d, id, e);
      assert ids == ids[..|ids| - 1] + [last];
      HeadCounts(last, ids[..|ids| - 1], id);
      HeadCounts(d, DigestsUnder(AddAll(index, ids[..|ids| - 1], d), id), e);
    }
  }

  lemma {:induction false} RemoveFirstCounts(s: seq<string>, d: string, e: string)
    ensures var had := multiset(s)[e];
            multiset(RemoveFirst(s, d))[e] == if e == d && had > 0 then had - 1 else had
  {
    if s != [] {
      RemoveFirstCounts(s[1..], d, e);
      HeadCounts(s[0], s[1..], e);
      HeadCounts(s[0], RemoveFirst(s[1..], d), e);
      assert s == [s[0]] + s[1..];
    }
  }

  lemma HeadCounts(x: string, s: seq<string>, e: string)
    ensures multiset([x] + s)[e] == multiset(s)[e] + if x == e then 1 else 0
    ensures multiset(s + [x])[e] == multiset(s)[e] + if x == e then 1 else 0
  {
  }

  lemma {:induction false} RemoveAllCounts(index: map<string, seq<string>>, ids: seq<string>, d: string, id: string, e: string)
    ensures var had := multiset(DigestsUnder(index, id))[e];
            var gone := if e == d then multiset(ids)[id] else 0;
            multiset(DigestsUnder(RemoveAll(index, ids, d), id))[e] == if gone <= had then had - gone else 0
  {
    if ids != [] {
      var before, last := ids[..|ids| - 1], ids[|ids| - 1];
      RemoveAllCounts(index, before, d, id, e);
      assert ids == before + [last];
      HeadCounts(last, before, id);
      var m := RemoveAll(index, before, d);
      if last == id {
        RemoveFirstCounts(DigestsUnder(m, last), d, e);
        assert d in DigestsUnder(m, last) <==> multiset(DigestsUnder(m, last))[d] > 0;
      }
    }
  }

  /** Storing a template keeps the index exact. */
  lemma SetConsistent(hash: string -> string, c: Cache, t: Template)
    requires Consistent(hash, c)
    ensures Consistent(hash, Set(hash, c, t))
  {
    var d := Digest(hash, t);
    if t.ids != [] && d !in c.idsOf {
      var c' := Set(hash, c, t);
      forall id, e
        ensures Indexed(c', id, e) == Named(c', id, e)
      {
        AddAllCounts(c.index, t.ids, d, id, e);
        assert Indexed(c, id, e) == Named(c, id, e);
      }
    }
  }

  /** Deleting keeps the index exact if and only if the argument names every identifier of the stored
      template at least as often: a check a caller can make before the call. */
  lemma DelConsistent(hash: string -> string, c: Cache, t: Template)
    requires Consistent(hash, c)
    ensures Consistent(hash, Del(hash, c, t)) <==>
            (Digest(hash, t) in c.idsOf ==> multiset(c.idsOf[Digest(hash, t)]) <= multiset(t.ids))
  {
    var d := Digest(hash, t);
    if d in c.idsOf {
      var c' := Del(hash, c, t);
      forall id, e
        ensures Indexed(c, id, e) == Named(c, id, e)
        ensures e != d ==> Indexed(c', id, e) == Named(c', id, e)
        ensures Named(c', id, d) == 0
        ensures Indexed(c', id, d) == 0 <==> multiset(c.idsOf[d])[id] <= multiset(t.ids)[id]
      {
        RemoveAllCounts(c.index, t.ids, d, id, e);
        RemoveAllCounts(c.index, t.ids, d, id, d);
        assert Indexed(c, id, d) == Named(c, id, d);
      }
      DelExact(hash, c, c', d, t.ids);
    }
  }

  lemma DelExact(hash: string -> string, c: Cache, c': Cache, d: string, ids: seq<string>)
    requires Consistent(hash, c) && d in c.idsOf && c'.idsOf == c.idsOf - {d} && c'.templates == c.templates - {d}
    requires forall id, e :: e != d ==> Indexed(c', id, e) == Named(c', id, e)
    requires forall id :: Named(c', id, d) == 0
    requires forall id :: Indexed(c', id, d) == 0 <==> multiset(c.idsOf[d])[id] <= multiset(ids)[id]
    ensures Consistent(hash, c') <==> multiset(c.idsOf[d]) <= multiset(ids)
  {
    if Consistent(hash, c') {
      forall id
        ensures multiset(c.idsOf[d])[id] <= multiset(ids)[id]
      {
        assert Indexed(c', id, d) == Named(c', id, d);
      }
    }
  }

  // ---- runs ----

  datatype Op = SetOp(t: Template) | DelOp(t: Template)

  ghost function Run(hash: string -> string, ops: seq<Op>): Cache {
    if ops == [] then Cache(map[], map[], map[])
    else
      var c, op := Run(hash, ops[..|ops| - 1]), ops[|ops| - 1];
      if op.SetOp? then Set(hash, c, op.t) else Del(hash, c, op.t)
  }

  /** No two of these templates share a digest without sharing their identifiers. */
  ghost predicate Faithful(hash: string -> string, ts: set<Template>) {
    forall t, u :: t in ts && u in ts && Digest(hash, t) == Digest(hash, u) ==> multiset(t.ids) == multiset(u.ids)
  }

  /** Every run over such templates keeps the index exact. */
  lemma {:induction false} RunConsistent(hash: string -> string, ops: seq<Op>, ts: set<Template>)
    requires Faithful(hash, ts) && forall op :: op in ops ==> op.t in ts
    ensures Consistent(hash, Run(hash, ops))
    ensures forall d :: d in Run(hash, ops).templates ==> Run(hash, ops).templates[d] in ts
  {
    if ops != [] {
      var op := ops[|ops| - 1];
      assert op in ops;
      RunConsistent(hash, ops[..|ops| - 1], ts);
      var c := Run(hash, ops[..|ops| - 1]);
      if op.SetOp? {
        SetConsistent(hash, c, op.t);
      } else {
        DelConsistent(hash, c, op.t);
        var d := Digest(hash, op.t);
        assert d in c.idsOf ==> multiset(c.templates[d].ids) == multiset(op.t.ids);
      }
    }
  }

  // ---- lookups ----

  /** A digest whose template is gone yields the zero configuration. */
  datatype Found = Zero | Stored(t: Template)

  function Lookup(c: Cache, d: string): Found {
    if d in c.templates then Stored(c.templates[d]) else Zero
  }

  ghost function Get(c: Cache, id: string): seq<Found> {
    var ds := DigestsUnder(c.index, id);
    seq(|ds|, i requires 0 <= i < |ds| => Lookup(c, ds[i]))
  }

  /** The template a run leaves stored under a digest, if any: the first one with identifiers set since it was last
      deleted. */
  ghost function Left(hash: string -> string, ops: seq<Op>, d: string): seq<Template> {
    if ops == [] then []
    else
      var before, op := Left(hash, ops[..|ops| - 1], d), ops[|ops| - 1];
      if Digest(hash, op.t) != d then before
      else if op.DelOp? then []
      else if before == [] && op.t.ids != [] then [op.t]
      else before
  }

  /** In every run exactly those templates are stored, with their identifiers: one that was set is there, one that was
      deleted is gone, and no operation touches another digest. */
  lemma {:induction false} StoredExactly(hash: string -> string, ops: seq<Op>, d: string)
    ensures var c, left := Run(hash, ops), Left(hash, ops, d);
            && |left| <= 1
            && (d in c.templates <==> left != []) && (d in c.idsOf <==> left != [])
            && (left != [] ==> c.templates[d] == left[0] && c.idsOf[d] == left[0].ids)
  {
    if ops != [] {
      StoredExactly(hash, ops[..|ops| - 1], d);
    }
  }

  /** On a consistent cache Get returns exactly the stored templates naming the identifier, never a zero one,
      and each as often as it names it. */
  lemma GetExact(hash: string -> string, c: Cache, id: string)
    requires Consistent(hash, c)
    ensures Zero !in Get(c, id)
    ensures forall d :: d in c.templates ==> (Stored(c.templates[d]) in Get(c, id) <==> id in c.templates[d].ids)
    ensures forall i :: 0 <= i < |Get(c, id)| ==>
              Get(c, id)[i].Stored? && id in Get(c, id)[i].t.ids
    ensures forall d :: d in c.templates ==>
              multiset(DigestsUnder(c.index, id))[d] == multiset(c.templates[d].ids)[id]
  {
    var ds := DigestsUnder(c.index, id);
    forall d
      ensures Indexed(c, id, d) == Named(c, id, d)
      ensures d in ds <==> d in multiset(ds)
    {
    }
    forall i | 0 <= i < |ds|
      ensures ds[i] in c.templates && id in c.templates[ds[i]].ids
    {
      assert ds[i] in multiset(ds);
      assert Named(c, id, ds[i]) > 0;
      assert id in multiset(c.idsOf[ds[i]]);
    }
    forall d | d in c.templates
      ensures Stored(c.templates[d]) in Get(c, id) <==> id in c.templates[d].ids
    {
      if id in c.templates[d].ids {
        assert id in multiset(c.idsOf[d]);
        assert d in ds;
        var i :| 0 <= i < |ds| && ds[i] == d;
        assert Get(c, id)[i] == Stored(c.templates[d]);
      }
    }
  }

  /** Identifiers are hashed without a separator: for every hash, deleting a template with the identifiers
      "a" and "b" removes one stored with the single identifier "ab" and leaves a zero one behind. */
  lemma DeleteOther(hash: string -> string)
    ensures var c := Run(hash, [SetOp(Template("", ["ab"], "")), DelOp(Template("", ["a", "b"], ""))]);
            Get(c, "ab") == [Zero] && !Consistent(hash, c)
  {
    var t, u := Template("", ["ab"], ""), Template("", ["a", "b"], "");
    var ops := [SetOp(t), DelOp(u)];
    assert Concat(["ab"]) == "ab" by {
      assert "ab" + Concat([]) == "ab";
    }
    assert Concat(["a", "b"]) == "ab" by {
      assert ["a", "b"][1..] == ["b"];
      assert Concat(["b"]) == "b";
    }
    var d := Digest(hash, t);
    assert d == Digest(hash, u);
    var c0 := Cache(map[], map[], map[]);
    var c1, c2 := Set(hash, c0, t), Run(hash, ops);
    assert c2 == Del(hash, c1, u) by {
      assert ops[..1] == [SetOp(t)] && [SetOp(t)][..0] == [];
      assert Run(hash, []) == c0;
      assert Run(hash, [SetOp(t)]) == c1;
    }
    AddOne(c0.index, "ab", d);
    RemoveMissing(c1.index, "a", "b", d);
    assert c2.index == c1.index;
    assert DigestsUnder(c2.index, "ab") == [d];
    assert Indexed(c2, "ab", d) == 1 && Named(c2, "ab", d) == 0;
  }

  lemma AddOne(index: map<string, seq<string>>, id: string, d: string)
    requires id !in index
    ensures AddAll(index, [id], d) == index[id := [d]]
  {
    assert [id][..0] == [];
    assert AddAll(index, [], d) == index;
    assert DigestsUnder(index, id) + [d] == [d];
  }

  lemma RemoveMissing(index: map<string, seq<string>>, x: string, y: string, d: string)
    requires x !in index && y !in index
    ensures RemoveAll(index, [x, y], d) == index
  {
    assert [x, y][..1] == [x] && [x][..0] == [];
    assert RemoveAll(index, [], d) == index;
    assert RemoveAll(index, [x], d) == index;
  }

  // ---- the object ----

  class TemplateStore {
    const hash: string -> string
    var adIDToDigests: map<string, seq<string>>
    var digestToADId: map<string, seq<string>>
    var digestToTemplate: map<string, Template>

    ghost function Contents(): Cache
      reads this
    {
      Cache(adIDToDigests, digestToADId, digestToTemplate)
    }

    constructor (hash: string -> string)
      ensures Contents() == Run(hash, []) && this.hash == hash
    {
      this.hash := hash;
      adIDToDigests, digestToADId, digestToTemplate := map[], map[], map[];
    }

    method Put(t: Template) returns (ok: bool)
      modifies this
      ensures ok == (t.ids != [])
      ensures Contents() == Set(hash, old(Contents()), t)
    {
      if |t.ids| == 0 {
        return false;
      }
      var d := Digest(hash, t);
      if d in digestToADId {
        return true;
      }
      digestToTemplate := digestToTemplate[d := t];
      digestToADId := digestToADId[d := t.ids];
      for i := 0 to |t.ids|
        invariant adIDToDigests == AddAll(old(adIDToDigests), t.ids[..i], d)
        invariant digestToTemplate == old(digestToTemplate)[d := t] && digestToADId == old(digestToADId)[d := t.ids]
      {
        assert t.ids[..i + 1][..i] == t.ids[..i];
        var id := t.ids[i];
        adIDToDigests := adIDToDigests[id := DigestsUnder(adIDToDigests, id) + [d]];
      }
      assert t.ids[..|t.ids|] == t.ids;
      return true;
    }

    method Find(id: string) returns (known: bool, templates: seq<Found>)
      ensures known == (id in adIDToDigests)
      ensures templates == Get(Contents(), id)
    {
      templates := [];
      if id !in adIDToDigests {
        return false, [];
      }
      var digests := adIDToDigests[id];
      for i := 0 to |digests|
        invariant templates == Get(Contents(), id)[..i]
      {
        templates := templates + [Lookup(Cache(map[], map[], digestToTemplate), digests[i])];
      }
      known := true;
    }

    method Remove(t: Template) returns (ok: bool)
      modifies this
      ensures ok == (Digest(hash, t) in old(digestToADId))
      ensures Contents() == Del(hash, old(Contents()), t)
    {
      var d := Digest(hash, t);
      if d !in digestToADId {
        return false;
      }
      digestToADId := digestToADId - {d};
      digestToTemplate := digestToTemplate - {d};
      for i := 0 to |t.ids|
        invariant adIDToDigests == RemoveAll(old(adIDToDigests), t.ids[..i], d)
        invariant digestToTemplate == old(digestToTemplate) - {d} && digestToADId == old(digestToADId) - {d}
      {
        assert t.ids[..i + 1][..i] == t.ids[..i];
        adIDToDigests := RemoveUnder(adIDToDigests, t.ids[i], d);
      }
      assert t.ids[..|t.ids|] == t.ids;
      return true;
    }
  }

  /** The inner loop of Del: the first occurrence of the digest under the identifier is cut out. */
  method RemoveUnder(index: map<string, seq<string>>, id: string, d: string) returns (r: map<string, seq<string>>)
    ensures r == if d in DigestsUnder(index, id) then index[id := RemoveFirst(DigestsUnder(index, id), d)] else index
  {
    var digests := DigestsUnder(index, id);
    for j := 0 to |digests|
      invariant d !in digests[..j]
    {
      if digests[j] == d {
        RemoveFirstAt(digests, j, d);
        return index[id := digests[..j] + digests[j + 1..]];
      }
    }
    assert digests[..|digests|] == digests;
    return index;
  }

  lemma {:induction false} RemoveFirstAt(s: seq<string>, j: nat, d: string)
    requires j < |s| && s[j] == d && d !in s[..j]
    ensures RemoveFirst(s, d) == s[..j] + s[j + 1..]
  {
    if j > 0 {
      assert s[0] == s[..j][0] && s[1..][..j - 1] == s[..j][1..];
      RemoveFirstAt(s[1..], j - 1, d);
    }
  }
}
