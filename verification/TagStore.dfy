/**
 The tag store (tagger/tagstore.go): tags by entity and source at three cardinalities, collated by
 collector priority and cached until the next update.
 */
module TagStore {
  import opened Collections
  import opened MapSums
  import StringOrder

  datatype Cardinality = Low | Orchestrator | High

  /** Tags by source. */
  type Level = map<string, seq<string>>

  datatype Sources = Sources(low: Level, orchestrator: Level, high: Level)

  function LevelOf(e: Sources, card: Cardinality): Level {
    match card
    case Low => e.low
    case Orchestrator => e.orchestrator
    case High => e.high
  }

  /** strings.Split(t, ":")[0] */
  function Name(t: string): string {
    if t == "" || t[0] == ':' then "" else [t[0]] + Name(t[1..])
  }

  /** The name has no colon, and is the whole tag or what stands before its first colon. */
  lemma {:induction false} NameHolds(t: string)
    ensures ':' !in Name(t)
    ensures t == Name(t) || (|Name(t)| < |t| && t[..|Name(t)|] == Name(t) && t[|Name(t)|] == ':')
  {
    if t != "" && t[0] != ':' {
      NameHolds(t[1..]);
      assert t == [t[0]] + t[1..];
    }
  }

  /** Collector priorities; a source without one counts as NodeRuntime, the lowest. */
  type Priorities = map<string, int>

  const NODE_RUNTIME := 0

  function PriorityOf(prios: Priorities, source: string): int {
    if source in prios then prios[source] else NODE_RUNTIME
  }

  // ---- what a lookup must return ----

  /** A source of higher priority than p gives some tag of this name, at any cardinality. */
  ghost predicate Dominated(prios: Priorities, e: Sources, name: string, p: int) {
    exists card, source, t :: Gives(e, card, source, t) && Name(t) == name && p < PriorityOf(prios, source)
  }

  ghost predicate Gives(e: Sources, card: Cardinality, source: string, t: string) {
    source in LevelOf(e, card) && t in LevelOf(e, card)[source]
  }

  /** Per source, how often tag t of this cardinality is returned: as given, unless dominated. */
  ghost function Contributions(prios: Priorities, e: Sources, card: Cardinality, t: string): map<string, int> {
    map source | source in LevelOf(e, card) ::
      if Dominated(prios, e, Name(t), PriorityOf(prios, source)) then 0 else multiset(LevelOf(e, card)[source])[t]
  }

  ghost function Returned(prios: Priorities, e: Sources, card: Cardinality, t: string): int {
    Sum(Contributions(prios, e, card, t))
  }

  /** These tags are what a computation from scratch gives for one cardinality, up to order. */
  ghost predicate Fresh(prios: Priorities, e: Sources, card: Cardinality, tags: seq<string>) {
    forall t :: multiset(tags)[t] == Returned(prios, e, card, t)
  }

  /** A tag is returned if and only if some source gives it whose priority no same-named tag exceeds. */
  lemma ReturnedIff(prios: Priorities, e: Sources, card: Cardinality, t: string)
    ensures Returned(prios, e, card, t) > 0 <==>
            exists source :: Gives(e, card, source, t) && !Dominated(prios, e, Name(t), PriorityOf(prios, source))
  {
    var cs := Contributions(prios, e, card, t);
    if Sum(cs) > 0 {
      var source := SomePositive(cs);
      assert t in multiset(LevelOf(e, card)[source]);
      assert Gives(e, card, source, t);
    }
    if source :| Gives(e, card, source, t) && !Dominated(prios, e, Name(t), PriorityOf(prios, source)) {
      assert t in multiset(LevelOf(e, card)[source]);
      SumAtLeast(cs, source);
    }
  }

  // ---- collation ----

  datatype Entry = Entry(tag: string, priority: int, cardinality: Cardinality)

  type Mapper = map<string, seq<Entry>>

  /** Entries are filed under the name of their tag. */
  ghost predicate Filed(m: Mapper) {
    forall n, x :: n in m && x in m[n] ==> Name(x.tag) == n
  }

  ghost function At(m: Mapper, x: Entry): nat {
    if Name(x.tag) in m then multiset(m[Name(x.tag)])[x] else 0
  }

  method InsertWithPriority(m: Mapper, tags: seq<string>, priority: int, card: Cardinality) returns (r: Mapper)
    requires Filed(m)
    ensures Filed(r)
    ensures forall x :: At(r, x) == At(m, x) + Among(tags, priority, card, x)
  {
    r := m;
    for i := 0 to |tags|
      invariant Filed(r)
      invariant forall x :: At(r, x) == At(m, x) + Among(tags[..i], priority, card, x)
    {
      var name := Name(tags[i]);
      ghost var before := r;
      r := r[name := (if name in r then r[name] else []) + [Entry(tags[i], priority, card)]];
      FileOne(before, Entry(tags[i], priority, card));
      AmongOneMore(tags, i, priority, card);
    }
    assert tags[..|tags|] == tags;
  }

  /** How often an entry is among these tags, given with this priority and cardinality. */
  ghost function Among(tags: seq<string>, priority: int, card: Cardinality, x: Entry): nat {
    if x.priority == priority && x.cardinality == card then multiset(tags)[x.tag] else 0
  }

  lemma AmongOneMore(tags: seq<string>, i: nat, priority: int, card: Cardinality)
    requires i < |tags|
    ensures forall x :: Among(tags[..i + 1], priority, card, x)
              == Among(tags[..i], priority, card, x) + if x == Entry(tags[i], priority, card) then 1 else 0
  {
    PrefixMultiset(tags, i);
  }

  function File(m: Mapper, y: Entry): Mapper {
    m[Name(y.tag) := (if Name(y.tag) in m then m[Name(y.tag)] else []) + [y]]
  }

  lemma FileOne(m: Mapper, y: Entry)
    requires Filed(m)
    ensures Filed(File(m, y))
    ensures forall x :: At(File(m, y), x) == At(m, x) + if x == y then 1 else 0
  {
  }

  /** How often a level gives tag t with priority p. */
  ghost function Offers(prios: Priorities, level: Level, t: string, p: int): map<string, int> {
    map source | source in level :: if PriorityOf(prios, source) == p then multiset(level[source])[t] else 0
  }

  ghost function Offered(prios: Priorities, level: Level, x: Entry): int {
    Sum(Offers(prios, level, x.tag, x.priority))
  }

  lemma OfferedWithout(prios: Priorities, level: Level, source: string, x: Entry)
    requires source in level
    ensures Offered(prios, level, x) == Offered(prios, level - {source}, x)
            + if PriorityOf(prios, source) == x.priority then multiset(level[source])[x.tag] else 0
  {
    SumRemove(Offers(prios, level, x.tag, x.priority), source);
    assert Offers(prios, level, x.tag, x.priority) - {source} == Offers(prios, level - {source}, x.tag, x.priority);
  }

  /** One of the three loops of get that fill the mapper: the sources are visited in any order. */
  method InsertLevel(prios: Priorities, m: Mapper, level: Level, card: Cardinality) returns (r: Mapper)
    requires Filed(m)
    ensures Filed(r)
    ensures forall x :: At(r, x) == At(m, x) + if x.cardinality == card then Offered(prios, level, x) else 0
  {
    r := m;
    var left := level;
    while left.Keys != {}
      invariant left.Keys <= level.Keys && Filed(r)
      invariant forall x :: At(r, x) + (if x.cardinality == card then Offered(prios, left, x) else 0)
                         == At(m, x) + (if x.cardinality == card then Offered(prios, level, x) else 0)
      decreases |left.Keys|
    {
      var source :| source in left.Keys;
      r := InsertWithPriority(r, left[source], PriorityOf(prios, source), card);
      forall x: Entry
        ensures Offered(prios, left, x) == Offered(prios, left - {source}, x)
                + if PriorityOf(prios, source) == x.priority then multiset(left[source])[x.tag] else 0
      {
        OfferedWithout(prios, left, source, x);
      }
      left := left - {source};
    }
    assert left == map[];
  }

  /** The sources of the entity, in any order. */
  method ListSources(level: Level) returns (sources: seq<string>)
    ensures multiset(sources) == multiset(level.Keys)
  {
    sources := [];
    var left := level.Keys;
    while left != {}
      invariant left <= level.Keys && multiset(sources) + multiset(left) == multiset(level.Keys)
      decreases |left|
    {
      var source :| source in left;
      assert multiset(left) == multiset{source} + multiset(left - {source});
      left := left - {source};
      sources := sources + [source];
    }
  }

  /** The highest priority among the entries of a name. */
  function Top(entries: seq<Entry>): int
    requires entries != []
  {
    if |entries| == 1 then entries[0].priority
    else if Top(entries[1..]) > entries[0].priority then Top(entries[1..]) else entries[0].priority
  }

  lemma {:induction false} TopHolds(entries: seq<Entry>)
    requires entries != []
    ensures forall i :: 0 <= i < |entries| ==> entries[i].priority <= Top(entries)
    ensures exists x :: x in entries && x.priority == Top(entries)
  {
    assert entries[0] in entries;
    if |entries| > 1 {
      TopHolds(entries[1..]);
      assert forall i :: 0 < i < |entries| ==> entries[i] == entries[1..][i - 1];
      var x :| x in entries[1..] && x.priority == Top(entries[1..]);
      assert x in entries;
    }
  }

  datatype Collated = Collated(low: seq<string>, orchestrator: seq<string>, high: seq<string>)

  function TagsOf(c: Collated, card: Cardinality): seq<string> {
    match card
    case Low => c.low
    case Orchestrator => c.orchestrator
    case High => c.high
  }

  function Append(c: Collated, x: Entry): Collated {
    match x.cardinality
    case Low => c.(low := c.low + [x.tag])
    case Orchestrator => c.(orchestrator := c.orchestrator + [x.tag])
    case High => c.(high := c.high + [x.tag])
  }

  /** c is start with the entries of priority top among those seen added. */
  ghost predicate Added(start: Collated, c: Collated, seen: seq<Entry>, top: int) {
    forall card, t :: AddedOne(start, c, seen, top, card, t)
  }

  ghost predicate AddedOne(start: Collated, c: Collated, seen: seq<Entry>, top: int, card: Cardinality, t: string) {
    multiset(TagsOf(c, card))[t] == multiset(TagsOf(start, card))[t] + multiset(seen)[Entry(t, top, card)]
  }

  lemma SeenOneMore(seen: seq<Entry>, x: Entry, y: Entry)
    ensures multiset(seen + [x])[y] == multiset(seen)[y] + if x == y then 1 else 0
  {
  }

  lemma AddedOneMore(start: Collated, c: Collated, seen: seq<Entry>, top: int, x: Entry)
    requires Added(start, c, seen, top)
    ensures Added(start, if x.priority == top then Append(c, x) else c, seen + [x], top)
  {
    var c' := if x.priority == top then Append(c, x) else c;
    forall card, t
      ensures AddedOne(start, c', seen + [x], top, card, t)
    {
      assert AddedOne(start, c, seen, top, card, t);
      SeenOneMore(seen, x, Entry(t, top, card));
    }
  }

  /** The entries of one name: those of the highest priority are kept, with their cardinality. */
  method Select(entries: seq<Entry>, start: Collated) returns (c: Collated)
    requires entries != []
    ensures Added(start, c, entries, Top(entries))
  {
    c := start;
    for i := 0 to |entries|
      invariant Added(start, c, entries[..i], Top(entries))
    {
      assert entries[..i + 1] == entries[..i] + [entries[i]];
      AddedOneMore(start, c, entries[..i], Top(entries), entries[i]);
      var insert := KeepEntry(entries, i);
      if !insert {
        continue;
      }
      c := Append(c, entries[i]);
    }
    assert entries[..|entries|] == entries;
  }

  /** The inner loop: an entry is kept unless another one has higher priority. */
  method KeepEntry(entries: seq<Entry>, i: nat) returns (insert: bool)
    requires i < |entries|
    ensures insert <==> entries[i].priority == Top(entries)
  {
    TopHolds(entries);
    insert := true;
    for j := 0 to |entries|
      invariant insert ==> forall k :: 0 <= k < j ==> entries[k].priority <= entries[i].priority
      invariant !insert ==> entries[i].priority < Top(entries)
    {
      if i != j && entries[i].priority < entries[j].priority {
        insert := false;
        break;
      }
    }
    if insert {
      ghost var x :| x in entries && x.priority == Top(entries);
    }
  }

  ghost function Selected(m: Mapper, card: Cardinality, t: string): nat {
    if Name(t) in m && m[Name(t)] != [] then multiset(m[Name(t)])[Entry(t, Top(m[Name(t)]), card)] else 0
  }

  lemma OtherName(m: Mapper, n: string, card: Cardinality, t: string, p: int)
    requires Filed(m) && n in m && Name(t) != n
    ensures multiset(m[n])[Entry(t, p, card)] == 0
  {
    assert Entry(t, p, card) !in m[n];
  }

  /** The tags selected for the names not left. */
  ghost predicate SelectedOutside(m: Mapper, left: set<string>, c: Collated) {
    forall card, t :: SelectedFor(m, left, c, card, t)
  }

  ghost predicate SelectedFor(m: Mapper, left: set<string>, c: Collated, card: Cardinality, t: string) {
    multiset(TagsOf(c, card))[t] == if Name(t) in left then 0 else Selected(m, card, t)
  }

  lemma SelectedOneMore(m: Mapper, left: set<string>, n: string, c: Collated, c': Collated)
    requires Filed(m) && n in left && n in m && SelectedOutside(m, left, c)
    requires if m[n] != [] then Added(c, c', m[n], Top(m[n])) else c' == c
    ensures SelectedOutside(m, left - {n}, c')
  {
    forall card, t
      ensures SelectedFor(m, left - {n}, c', card, t)
    {
      assert SelectedFor(m, left, c, card, t);
      if m[n] != [] {
        assert AddedOne(c, c', m[n], Top(m[n]), card, t);
        if Name(t) != n {
          OtherName(m, n, card, t, Top(m[n]));
        }
      }
    }
  }

  /** The selection loop of get: the names are visited in any order. */
  method SelectAll(m: Mapper) returns (c: Collated)
    requires Filed(m)
    ensures SelectedOutside(m, {}, c)
  {
    c := Collated([], [], []);
    var left := m.Keys;
    while left != {}
      invariant left <= m.Keys && SelectedOutside(m, left, c)
      decreases |left|
    {
      var n :| n in left;
      ghost var before := c;
      if m[n] != [] {
        c := Select(m[n], c);
      }
      SelectedOneMore(m, left, n, before, c);
      left := left - {n};
    }
  }

  // ---- the selection is the one from scratch ----

  /** The mapper holds every entry as often as the sources give it. */
  ghost predicate Complete(prios: Priorities, e: Sources, m: Mapper) {
    forall x :: At(m, x) == Offered(prios, LevelOf(e, x.cardinality), x)
  }

  lemma OfferNonNegative(prios: Priorities, level: Level, t: string, p: int, source: string)
    requires source in level
    ensures 0 <= Offers(prios, level, t, p)[source] <= Sum(Offers(prios, level, t, p))
  {
    SumAtLeast(Offers(prios, level, t, p), source);
  }

  /** A tag some source gives is filed with that source's priority. */
  lemma GivenIsFiled(prios: Priorities, e: Sources, m: Mapper, card: Cardinality, source: string, t: string)
    requires Complete(prios, e, m) && Gives(e, card, source, t)
    ensures At(m, Entry(t, PriorityOf(prios, source), card)) > 0
  {
    var x := Entry(t, PriorityOf(prios, source), card);
    OfferNonNegative(prios, LevelOf(e, card), t, x.priority, source);
    assert t in multiset(LevelOf(e, card)[source]);
    assert At(m, x) == Offered(prios, LevelOf(e, x.cardinality), x);
  }

  lemma {:induction false} SomePositive(m: map<string, int>) returns (k: string)
    requires Sum(m) > 0
    ensures k in m && m[k] > 0
    decreases |m|
  {
    k :| k in m;
    if m[k] <= 0 {
      SumRemove(m, k);
      RemoveSmaller(m, k);
      k := SomePositive(m - {k});
    }
  }

  /** An entry that is filed was given by a source of its priority. */
  lemma FiledIsGiven(prios: Priorities, e: Sources, m: Mapper, x: Entry) returns (source: string)
    requires Complete(prios, e, m) && At(m, x) > 0
    ensures Gives(e, x.cardinality, source, x.tag) && PriorityOf(prios, source) == x.priority
  {
    var level := LevelOf(e, x.cardinality);
    assert At(m, x) == Offered(prios, level, x);
    source := SomePositive(Offers(prios, level, x.tag, x.priority));
    assert x.tag in multiset(level[source]);
  }

  /** Below the highest priority of its name a source is dominated; at or above it is not. */
  lemma DominatedBelowTop(prios: Priorities, e: Sources, m: Mapper, name: string, p: int)
    requires Complete(prios, e, m) && Filed(m) && name in m && m[name] != []
    ensures Dominated(prios, e, name, p) <==> p < Top(m[name])
  {
    TopHolds(m[name]);
    if p < Top(m[name]) {
      var x :| x in m[name] && x.priority == Top(m[name]);
      assert x in multiset(m[name]) && Name(x.tag) == name;
      var source := FiledIsGiven(prios, e, m, x);
      assert Gives(e, x.cardinality, source, x.tag);
    }
    if Dominated(prios, e, name, p) {
      var card, source, t :| Gives(e, card, source, t) && Name(t) == name && p < PriorityOf(prios, source);
      GivenIsFiled(prios, e, m, card, source, t);
      var x := Entry(t, PriorityOf(prios, source), card);
      assert x in multiset(m[name]);
      var i :| 0 <= i < |m[name]| && m[name][i] == x;
    }
  }

  lemma {:induction false} SumOfZeros(m: map<string, int>)
    requires forall k :: k in m ==> m[k] == 0
    ensures Sum(m) == 0
    decreases |m|
  {
    if m != map[] {
      var k :| k in m;
      SumRemove(m, k);
      RemoveSmaller(m, k);
      SumOfZeros(m - {k});
    }
  }

  /** A tag is returned exactly as often as sources give it whose priority no same-named tag exceeds. */
  lemma SelectedIsReturned(prios: Priorities, e: Sources, m: Mapper, card: Cardinality, t: string)
    requires Complete(prios, e, m) && Filed(m)
    ensures Selected(m, card, t) == Returned(prios, e, card, t)
  {
    var level, name := LevelOf(e, card), Name(t);
    var cs := Contributions(prios, e, card, t);
    if name in m && m[name] != [] {
      var top := Top(m[name]);
      var x := Entry(t, top, card);
      assert At(m, x) == Offered(prios, level, x);
      forall source | source in level
        ensures cs[source] == Offers(prios, level, t, top)[source]
      {
        DominatedBelowTop(prios, e, m, name, PriorityOf(prios, source));
        if PriorityOf(prios, source) > top {
          AboveTopGivesNone(prios, e, m, card, source, t);
        }
      }
      SameEntries(cs, Offers(prios, level, t, top));
    } else {
      forall source | source in level
        ensures cs[source] == 0
      {
        NoneFiled(prios, e, m, card, source, t);
      }
      SumOfZeros(cs);
    }
  }

  lemma AboveTopGivesNone(prios: Priorities, e: Sources, m: Mapper, card: Cardinality, source: string, t: string)
    requires Complete(prios, e, m) && Filed(m) && Name(t) in m && m[Name(t)] != []
    requires source in LevelOf(e, card) && PriorityOf(prios, source) > Top(m[Name(t)])
    ensures multiset(LevelOf(e, card)[source])[t] == 0
  {
    if t in LevelOf(e, card)[source] {
      GivenIsFiled(prios, e, m, card, source, t);
      TopHolds(m[Name(t)]);
    }
  }

  lemma NoneFiled(prios: Priorities, e: Sources, m: Mapper, card: Cardinality, source: string, t: string)
    requires Complete(prios, e, m) && source in LevelOf(e, card)
    requires Name(t) !in m || m[Name(t)] == []
    ensures multiset(LevelOf(e, card)[source])[t] == 0
  {
    if t in LevelOf(e, card)[source] {
      GivenIsFiled(prios, e, m, card, source, t);
    }
  }

  /** get on a cache miss, up to the order of the tags. */
  method Collate(prios: Priorities, e: Sources) returns (c: Collated)
    ensures forall card :: Fresh(prios, e, card, TagsOf(c, card))
  {
    var m: Mapper := map[];
    m := InsertLevel(prios, m, e.low, Low);
    m := InsertLevel(prios, m, e.orchestrator, Orchestrator);
    m := InsertLevel(prios, m, e.high, High);
    assert Complete(prios, e, m);
    c := SelectAll(m);
    forall card, t
      ensures multiset(TagsOf(c, card))[t] == Returned(prios, e, card, t)
    {
      assert SelectedFor(m, {}, c, card, t);
      SelectedIsReturned(prios, e, m, card, t);
    }
  }

  // ---- the hash ----

  /** computeTagsHash: the sorted tags written to the hash one after the other. */
  function TagsHash(hash: string -> string, tags: seq<string>): string {
    if |tags| > 0 then hash(Concat(StringOrder.Sort(tags))) else ""
  }

  /** The hash depends only on the multiset of tags. */
  lemma HashIgnoresOrder(hash: string -> string, a: seq<string>, b: seq<string>)
    requires multiset(a) == multiset(b)
    ensures TagsHash(hash, a) == TagsHash(hash, b)
  {
    SameLength(a, b);
    StringOrder.SortHolds(a);
    StringOrder.SortHolds(b);
    StringOrder.OrderedUnique(StringOrder.Sort(a), StringOrder.Sort(b));
  }

  /** Two lists of tags share the hash whatever the hash function, if and only if both are empty, or neither is and
      their sorted tags written one after the other are the same text. */
  lemma SameHashIff(a: seq<string>, b: seq<string>)
    ensures (forall hash: string -> string :: TagsHash(hash, a) == TagsHash(hash, b))
       <==> (a == [] <==> b == []) && Concat(StringOrder.Sort(a)) == Concat(StringOrder.Sort(b))
  {
    var same, nonEmpty: string -> string := s => s, s => "x" + s;
    if forall hash: string -> string :: TagsHash(hash, a) == TagsHash(hash, b) {
      assert TagsHash(same, a) == TagsHash(same, b);
      assert TagsHash(nonEmpty, a) == TagsHash(nonEmpty, b);
      assert a == [] ==> StringOrder.Sort(a) == [];
      assert b == [] ==> StringOrder.Sort(b) == [];
    }
  }

  /** A hash without collisions, written as digits. */
  ghost predicate Perfect(hash: string -> string) {
    (forall s :: hash(s) != "") && forall s, t :: hash(s) == hash(t) ==> s == t
  }

  /** With a perfect hash function that is all that two lists of the same hash have in common. */
  lemma PerfectHashIff(hash: string -> string, a: seq<string>, b: seq<string>)
    requires Perfect(hash)
    ensures TagsHash(hash, a) == TagsHash(hash, b)
       <==> (a == [] <==> b == []) && Concat(StringOrder.Sort(a)) == Concat(StringOrder.Sort(b))
  {
    assert a == [] && b == [] ==> StringOrder.Sort(a) == StringOrder.Sort(b);
  }

  /** No tag of either list is empty or begins another one of the two. */
  ghost predicate PrefixFree(a: seq<string>, b: seq<string>) {
    && "" !in a && "" !in b
    && forall x, y :: x in a && y in b && (x <= y || y <= x) ==> x == y
  }

  /** Of two texts that begin the same text one begins the other. */
  lemma PrefixesOfOne(x: string, y: string, rest: string, more: string)
    requires x + rest == y + more
    ensures x <= y || y <= x
    ensures x == y ==> rest == more
  {
    var s := x + rest;
    assert x == s[..|x|] && y == s[..|y|] && rest == s[|x|..] && more == s[|y|..];
  }

  lemma ConcatNonEmpty(tags: seq<string>)
    requires "" !in tags && tags != []
    ensures Concat(tags) != ""
  {
    assert tags[0] in tags;
    assert |Concat(tags)| >= |tags[0]| > 0;
  }

  /** Prefix-free tags can be read back from the text. */
  lemma {:induction false} ReadBack(a: seq<string>, b: seq<string>)
    requires PrefixFree(a, b) && Concat(a) == Concat(b)
    ensures a == b
  {
    if a == [] && b != [] {
      ConcatNonEmpty(b);
    } else if a != [] && b == [] {
      ConcatNonEmpty(a);
    } else if a != [] {
      assert a[0] in a && b[0] in b;
      assert (forall x :: x in a[1..] ==> x in a) && (forall x :: x in b[1..] ==> x in b);
      PrefixesOfOne(a[0], b[0], Concat(a[1..]), Concat(b[1..]));
      ReadBack(a[1..], b[1..]);
      SameHeadAndTail(a, b);
    }
  }

  /** Where no tag is empty or begins another one, a perfect hash tells the multisets of tags apart: it is the same if
      and only if they are. */
  lemma HashDetermines(hash: string -> string, a: seq<string>, b: seq<string>)
    requires Perfect(hash) && PrefixFree(a, b)
    ensures TagsHash(hash, a) == TagsHash(hash, b) <==> multiset(a) == multiset(b)
  {
    if TagsHash(hash, a) == TagsHash(hash, b) {
      PerfectHashIff(hash, a, b);
      SortedPrefixFree(a, b);
      ReadBack(StringOrder.Sort(a), StringOrder.Sort(b));
      StringOrder.SortHolds(a);
      StringOrder.SortHolds(b);
    }
    if multiset(a) == multiset(b) {
      HashIgnoresOrder(hash, a, b);
    }
  }

  lemma SortedPrefixFree(a: seq<string>, b: seq<string>)
    requires PrefixFree(a, b)
    ensures PrefixFree(StringOrder.Sort(a), StringOrder.Sort(b))
  {
    SortMembers(a);
    SortMembers(b);
  }

  lemma SortMembers(a: seq<string>)
    ensures forall x :: x in StringOrder.Sort(a) <==> x in a
  {
    StringOrder.SortHolds(a);
    forall x
      ensures x in StringOrder.Sort(a) <==> x in a
    {
      assert x in StringOrder.Sort(a) <==> x in multiset(StringOrder.Sort(a));
      assert x in a <==> x in multiset(a);
    }
  }

  /** Without that condition boundaries get lost: text may move from one tag to the next, as from "ab", "c" to
      "a", "bc", and the hash stays the same for every hash function. */
  lemma HashForgetsBoundaries(hash: string -> string, x: string, y: string, z: string)
    requires StringOrder.LessEq(x + y, z) && StringOrder.LessEq(x, y + z)
    ensures TagsHash(hash, [x + y, z]) == TagsHash(hash, [x, y + z])
  {
    SortedPair(x + y, z);
    SortedPair(x, y + z);
    assert (x + y) + z == x + (y + z);
  }

  lemma BoundariesExample(hash: string -> string)
    ensures TagsHash(hash, ["ab", "c"]) == TagsHash(hash, ["a", "bc"]) && multiset(["ab", "c"]) != multiset(["a", "bc"])
  {
    assert "a" + "b" == "ab" && "b" + "c" == "bc";
    HashForgetsBoundaries(hash, "a", "b", "c");
    assert "ab" in multiset(["ab", "c"]) && "ab" !in multiset(["a", "bc"]);
  }

  lemma SortedPair(a: string, b: string)
    requires StringOrder.LessEq(a, b)
    ensures Concat(StringOrder.Sort([a, b])) == a + b
  {
    assert [a, b][1..] == [b] && [b][1..] == [];
    assert StringOrder.Sort([b]) == [b];
    assert StringOrder.Sort([a, b]) == [a, b];
    assert Concat([b]) == b + "" == b;
  }

  // ---- the store ----

  /** What get caches: all tags in order of cardinality, with the lengths of the two shorter prefixes. */
  datatype Cache = Invalid | Cached(sources: seq<string>, all: seq<string>, low: nat, orchestrator: nat, hash: string)

  datatype Entity = Entity(tags: Sources, cache: Cache)

  function Prefix(c: Cache, card: Cardinality): seq<string>
    requires c.Cached? && c.low <= c.orchestrator <= |c.all|
  {
    match card
    case Low => c.all[..c.low]
    case Orchestrator => c.all[..c.orchestrator]
    case High => c.all
  }

  ghost function UpTo(prios: Priorities, e: Sources, card: Cardinality, t: string): int {
    Returned(prios, e, Low, t)
    + (if card != Low then Returned(prios, e, Orchestrator, t) else 0)
    + (if card == High then Returned(prios, e, High, t) else 0)
  }

  /** The answer to a lookup: the tags of this and lower cardinalities computed from scratch, up to order. */
  ghost predicate FreshUpTo(prios: Priorities, e: Sources, card: Cardinality, tags: seq<string>) {
    forall t :: multiset(tags)[t] == UpTo(prios, e, card, t)
  }

  /** A cache that is not invalid agrees with the sources; its answers are nested prefixes. */
  ghost predicate CacheOk(prios: Priorities, hash: string -> string, e: Entity) {
    e.cache.Cached? ==>
      && e.cache.low <= e.cache.orchestrator <= |e.cache.all|
      && FreshUpTo(prios, e.tags, Low, Prefix(e.cache, Low))
      && FreshUpTo(prios, e.tags, Orchestrator, Prefix(e.cache, Orchestrator))
      && FreshUpTo(prios, e.tags, High, Prefix(e.cache, High))
      && multiset(e.cache.sources) == multiset(e.tags.low.Keys)
      && e.cache.hash == TagsHash(hash, e.cache.all)
  }

  method FillCache(prios: Priorities, hash: string -> string, tags: Sources) returns (cache: Cache)
    ensures cache.Cached? && CacheOk(prios, hash, Entity(tags, cache))
  {
    var c := Collate(prios, tags);
    var sources := ListSources(tags.low);
    var all := c.low + c.orchestrator + c.high;
    cache := Cached(sources, all, |c.low|, |c.low| + |c.orchestrator|, TagsHash(hash, all));
    assert all[..|c.low|] == c.low && all[..|c.low| + |c.orchestrator|] == c.low + c.orchestrator;
    JoinedFresh(prios, tags, c);
  }

  /** Joining the three lists in order of cardinality answers all three kinds of lookup. */
  lemma JoinedFresh(prios: Priorities, e: Sources, c: Collated)
    requires forall card :: Fresh(prios, e, card, TagsOf(c, card))
    ensures FreshUpTo(prios, e, Low, c.low)
    ensures FreshUpTo(prios, e, Orchestrator, c.low + c.orchestrator)
    ensures FreshUpTo(prios, e, High, c.low + c.orchestrator + c.high)
  {
    assert Fresh(prios, e, Low, TagsOf(c, Low)) && Fresh(prios, e, Orchestrator, TagsOf(c, Orchestrator))
           && Fresh(prios, e, High, TagsOf(c, High));
  }

  datatype TagInfo = TagInfo(entity: string, source: string, low: seq<string>, orchestrator: seq<string>,
                             high: seq<string>, deleteEntity: bool, cacheMiss: bool)

  const NO_TAGS := Sources(map[], map[], map[])

  function Stored(e: Sources, info: TagInfo): Sources {
    Sources(e.low[info.source := info.low], e.orchestrator[info.source := info.orchestrator],
            e.high[info.source := info.high])
  }

  /** What the message gives at each cardinality. */
  function Given(info: TagInfo, card: Cardinality): seq<string> {
    match card
    case Low => info.low
    case Orchestrator => info.orchestrator
    case High => info.high
  }

  /** The message sets the tags of its source at every cardinality, and those of no other source. */
  lemma StoredLevels(e: Sources, info: TagInfo, card: Cardinality, source: string)
    ensures var before, after := LevelOf(e, card), LevelOf(Stored(e, info), card);
            && (source in after <==> source in before || source == info.source)
            && (source in after ==> after[source] == if source == info.source then Given(info, card) else before[source])
  {
  }

  class Store {
    const prios: Priorities
    const hash: string -> string
    var store: map<string, Entity>
    var toDelete: set<string>

    /** The per-source maps without any cache. */
    ghost function Uncached(): map<string, Sources>
      reads this
    {
      map n | n in store :: store[n].tags
    }

    ghost predicate Valid()
      reads this
    {
      forall n :: n in store ==> CacheOk(prios, hash, store[n])
    }

    constructor (prios: Priorities, hash: string -> string)
      ensures Valid() && store == map[] && toDelete == {} && this.prios == prios && this.hash == hash
    {
      this.prios, this.hash, store, toDelete := prios, hash, map[], {};
    }

    method ProcessTagInfo(info: TagInfo) returns (ok: bool)
      requires Valid()
      modifies this
      ensures Valid()
      ensures var known := old(Uncached());
              var e := if info.entity in known then known[info.entity] else NO_TAGS;
              if info.entity == "" || info.source == "" then !ok && Uncached() == known && toDelete == old(toDelete)
              else if info.deleteEntity then ok && Uncached() == known && toDelete == old(toDelete) + {info.entity}
              else if info.cacheMiss && info.source in e.low then !ok && Uncached() == known && toDelete == old(toDelete)
              else ok && Uncached() == known[info.entity := Stored(e, info)] && toDelete == old(toDelete)
    {
      if info.entity == "" || info.source == "" {
        return false;
      }
      if info.deleteEntity {
        toDelete := toDelete + {info.entity};
        return true;
      }
      var e := if info.entity in store then store[info.entity] else Entity(NO_TAGS, Invalid);
      if info.source in e.tags.low && info.cacheMiss {
        return false;
      }
      store := store[info.entity := Entity(Stored(e.tags, info), Invalid)];
      return true;
    }

    method Prune()
      requires Valid()
      modifies this
      ensures Valid() && toDelete == {} && Uncached() == old(Uncached()) - old(toDelete)
    {
      store := store - toDelete;
      toDelete := {};
    }

    /** Cached or not, a lookup gives what a computation from the sources would, and changes none of them. */
    method Lookup(entity: string, card: Cardinality) returns (tags: seq<string>, sources: seq<string>, digest: string)
      requires Valid()
      modifies this`store
      ensures Valid() && Uncached() == old(Uncached())
      ensures entity !in Uncached() ==> tags == [] && sources == [] && digest == ""
      ensures entity in Uncached() ==>
                && FreshUpTo(prios, Uncached()[entity], card, tags)
                && multiset(sources) == multiset(Uncached()[entity].low.Keys)
                && forall all :: FreshUpTo(prios, Uncached()[entity], High, all) ==> digest == TagsHash(hash, all)
      ensures entity in store ==>
                var cache := store[entity].cache;
                && cache.Cached? && cache.low <= cache.orchestrator <= |cache.all|
                && tags == Prefix(cache, card) && sources == cache.sources && digest == cache.hash
                && Prefix(cache, Low) <= Prefix(cache, Orchestrator) <= Prefix(cache, High)
                && (old(store)[entity].cache.Cached? ==> cache == old(store)[entity].cache)
      ensures store.Keys == old(store).Keys && forall n :: n in store && n != entity ==> store[n] == old(store)[n]
    {
      if entity !in store {
        return [], [], "";
      }
      var e := store[entity];
      if e.cache.Invalid? {
        var cache := FillCache(prios, hash, e.tags);
        e := e.(cache := cache);
        store := store[entity := e];
      }
      tags, sources, digest := Prefix(e.cache, card), e.cache.sources, e.cache.hash;
      HashOfFresh(prios, hash, e);
    }
  }

  lemma HashOfFresh(prios: Priorities, hash: string -> string, e: Entity)
    requires e.cache.Cached? && CacheOk(prios, hash, e)
    ensures forall all :: FreshUpTo(prios, e.tags, High, all) ==> e.cache.hash == TagsHash(hash, all)
  {
    forall all | FreshUpTo(prios, e.tags, High, all)
      ensures e.cache.hash == TagsHash(hash, all)
    {
      assert FreshUpTo(prios, e.tags, High, Prefix(e.cache, High));
      SameCounts(prios, e.tags, all, e.cache.all);
      HashIgnoresOrder(hash, all, e.cache.all);
    }
  }

  lemma SameCounts(prios: Priorities, e: Sources, a: seq<string>, b: seq<string>)
    requires FreshUpTo(prios, e, High, a) && FreshUpTo(prios, e, High, b)
    ensures multiset(a) == multiset(b)
  {
    forall t
      ensures multiset(a)[t] == multiset(b)[t]
    {
      assert multiset(a)[t] == UpTo(prios, e, High, t);
    }
  }
}
