/**
 Rebalancing of cluster checks (clusteragent/clusterchecks/dispatcher_rebalance.go, helpers.go,
 stores.go): checks move from busy nodes to less busy ones while the margin allows it.
 */
module Rebalance {
  import opened Dispatcher
  import opened DispatcherRuns
  import opened GoArith
  import opened MapSums
  import Collections
  import StringOrder

  /** busynessFunc: int(0.8 * execution time + 0.2 * samples). */
  function Weight(st: Stats): int {
    Div(4 * st.averageExecutionTime + st.metricSamples, 5)
  }

  /** Four fifths of the execution time and one fifth of the samples, rounded down. */
  lemma WeightHolds(st: Stats)
    requires st.averageExecutionTime >= 0 && st.metricSamples >= 0
    ensures 5 * Weight(st) <= 4 * st.averageExecutionTime + st.metricSamples < 5 * Weight(st) + 5
  {
  }

  predicate NonNegative(stats: map<string, Stats>) {
    forall id :: id in stats ==> stats[id].averageExecutionTime >= 0 && stats[id].metricSamples >= 0
  }

  ghost function Weights(stats: map<string, Stats>): map<string, int> {
    map id | id in stats :: Weight(stats[id])
  }

  ghost function Load(n: Node): int {
    Sum(Weights(n.stats))
  }

  ghost function Loads(s: Store): map<string, int> {
    map n | n in s.nodes :: Load(s.nodes[n])
  }

  ghost predicate Measured(s: Store) {
    forall n :: n in s.nodes ==> NonNegative(s.nodes[n].stats)
  }

  lemma LoadNonNegative(n: Node)
    requires NonNegative(n.stats)
    ensures Load(n) >= 0
  {
    SumNonNegative(Weights(n.stats));
  }

  // ---- reading the nodes ----

  /** GetBusyness: the checks are visited in any order. */
  method GetBusyness(stats: map<string, Stats>) returns (busyness: int)
    ensures busyness == Sum(Weights(stats))
  {
    busyness := 0;
    var left := stats;
    while left.Keys != {}
      invariant left.Keys <= stats.Keys && forall id :: id in left ==> left[id] == stats[id]
      invariant busyness + Sum(Weights(left)) == Sum(Weights(stats))
      decreases |left.Keys|
    {
      var id :| id in left.Keys;
      SumRemove(Weights(left), id);
      assert Weights(left) - {id} == Weights(left - {id});
      busyness := busyness + Weight(left[id]);
      left := left - {id};
    }
    assert left == map[];
  }

  ghost function Differences(s: Store, avg: int): map<string, int> {
    map n | n in s.nodes :: Load(s.nodes[n]) - avg
  }

  method UpdateDiff(s: Store, avg: int) returns (diff: map<string, int>)
    ensures diff == Differences(s, avg)
  {
    diff := map[];
    var left := s.nodes.Keys;
    while left != {}
      invariant left <= s.nodes.Keys && diff.Keys == s.nodes.Keys - left
      invariant forall n :: n in diff ==> diff[n] == Load(s.nodes[n]) - avg
      decreases |left|
    {
      var n :| n in left;
      left := left - {n};
      var b := GetBusyness(s.nodes[n].stats);
      diff := diff[n := b - avg];
    }
  }

  /** calculateAvg: the busyness of the node visited last, over the number of nodes. */
  method CalculateAvg(s: Store) returns (ok: bool, avg: int)
    ensures ok == (s.nodes != map[])
    ensures ok ==> exists n :: n in s.nodes && avg == Div(Load(s.nodes[n]), |s.nodes|)
  {
    var busyness, length := 0, 0;
    var left := s.nodes.Keys;
    while left != {}
      invariant left <= s.nodes.Keys && length == |s.nodes.Keys| - |left|
      invariant length > 0 ==> exists n :: n in s.nodes && busyness == Load(s.nodes[n])
      decreases |left|
    {
      var n :| n in left;
      left := left - {n};
      busyness := GetBusyness(s.nodes[n].stats);
      length := length + 1;
    }
    if length == 0 {
      assert s.nodes.Keys == {};
      return false, -1;
    }
    return true, Div(busyness, length);
  }

  ghost predicate HeaviestCheck(stats: map<string, Stats>, id: string) {
    && id in stats && stats[id].isClusterCheck
    && forall j :: j in stats && stats[j].isClusterCheck ==> Weight(stats[j]) <= Weight(stats[id])
  }

  /** GetMostWeightedClusterCheck */
  method MostWeightedClusterCheck(stats: map<string, Stats>) returns (found: bool, checkID: string, weight: int)
    ensures found ==> HeaviestCheck(stats, checkID) && weight == Weight(stats[checkID])
    ensures !found ==> forall j :: j in stats ==> !stats[j].isClusterCheck
  {
    var firstItr := true;
    checkID, weight := "", 0;
    var left := stats.Keys;
    while left != {}
      invariant left <= stats.Keys
      invariant firstItr ==> forall j :: j in stats && j !in left ==> !stats[j].isClusterCheck
      invariant !firstItr ==> checkID in stats && stats[checkID].isClusterCheck && weight == Weight(stats[checkID])
      invariant !firstItr ==> forall j :: j in stats && j !in left && stats[j].isClusterCheck ==> Weight(stats[j]) <= weight
      decreases |left|
    {
      var id :| id in left;
      left := left - {id};
      var busyness := Weight(stats[id]);
      if (busyness > weight || firstItr) && stats[id].isClusterCheck {
        weight, checkID, firstItr := busyness, id, false;
      }
    }
    found := !firstItr;
  }

  /** orderedKeys */
  method OrderedKeys(keys: set<string>) returns (r: seq<string>)
    ensures StringOrder.Ordered(r) && forall k :: k in r <==> k in keys
  {
    r := [];
    var left := keys;
    while left != {}
      invariant left <= keys && StringOrder.Ordered(r)
      invariant forall k :: k in r <==> k in keys && k !in left
      decreases |left|
    {
      var k :| k in left;
      left := left - {k};
      StringOrder.InsertHolds(r, k);
      ghost var was := r;
      r := StringOrder.Insert(r, k);
      assert forall x :: x in r <==> x in multiset(r);
      assert forall x :: x in was <==> x in multiset(was);
    }
  }

  /** The node other than the source with the least difference, and of those the first by name. */
  ghost predicate LeastOther(diff: map<string, int>, source: string, r: string) {
    && r in diff && r != source
    && forall n :: n in diff && n != source ==>
         diff[r] < diff[n] || (diff[r] == diff[n] && StringOrder.LessEq(r, n))
  }

  method PickNode(diff: map<string, int>, source: string) returns (picked: string)
    ensures (exists n :: n in diff && n != source) ==> LeastOther(diff, source, picked)
    ensures !(exists n :: n in diff && n != source) ==> picked == ""
  {
    var keys := OrderedKeys(diff.Keys);
    var firstItr, minDiff := true, 0;
    picked := "";
    for i := 0 to |keys|
      invariant firstItr ==> picked == "" && forall n :: n in keys[..i] ==> n == source
      invariant !firstItr ==> picked in diff && picked != source && minDiff == diff[picked] && picked in keys[..i]
      invariant !firstItr ==> forall n :: n in keys[..i] && n != source ==>
                  minDiff < diff[n] || (minDiff == diff[n] && StringOrder.LessEq(picked, n))
    {
      var node := keys[i];
      assert keys[..i + 1] == keys[..i] + [node];
      assert node in keys;
      if node == source {
        continue;
      }
      EarlierIsLess(keys, i);
      if diff[node] < minDiff || firstItr {
        minDiff, picked, firstItr := diff[node], node, false;
        StringOrder.Total(node, node);
      }
    }
    assert keys[..|keys|] == keys;
  }

  lemma EarlierIsLess(keys: seq<string>, i: nat)
    requires StringOrder.Ordered(keys) && i < |keys|
    ensures forall n :: n in keys[..i] ==> StringOrder.LessEq(n, keys[i])
  {
    if i > 0 {
      StringOrder.HeadIsLeast(keys, keys[i]);
      EarlierIsLess(keys[1..], i - 1);
      assert keys[..i] == [keys[0]] + keys[1..][..i - 1];
    }
  }

  // ---- one move ----

  function MoveStats(s: Store, src: string, dest: string, id: string): Store
    requires src in s.nodes && dest in s.nodes && id in s.nodes[src].stats
  {
    var from, to := s.nodes[src], s.nodes[dest];
    s.(nodes := s.nodes[dest := to.(stats := to.stats[id := from.stats[id]])]
                       [src := from.(stats := from.stats - {id})])
  }

  /** moveCheck: the statistics move, then the configuration is removed and added again. */
  function MoveCheck(s: Store, src: string, dest: string, id: string): Store
    requires src in s.nodes && dest in s.nodes && id in s.nodes[src].stats
  {
    var t := MoveStats(s, src, dest, id);
    var m := ReadMove(t, id);
    AddConfig(RemoveConfig(t, m.digest), m.config, dest)
  }

  lemma RemoveKeepsNodes(s: Store, digest: string)
    ensures SameNodes(s, RemoveConfig(s, digest))
  {
  }

  lemma MoveStatsInv(s: Store, src: string, dest: string, id: string)
    requires Inv(s) && src in s.nodes && dest in s.nodes && id in s.nodes[src].stats
    ensures Inv(MoveStats(s, src, dest, id))
  {
    var t := MoveStats(s, src, dest, id);
    assert forall n :: n in t.nodes <==> n in s.nodes;
    assert forall n :: n in s.nodes ==> t.nodes[n].configs == s.nodes[n].configs;
  }

  /** A move keeps the dispatcher's invariant, and apart from configurations only moves statistics. */
  lemma MoveCheckInv(s: Store, src: string, dest: string, id: string)
    requires Inv(s) && src in s.nodes && dest in s.nodes && id in s.nodes[src].stats
    ensures Inv(MoveCheck(s, src, dest, id))
    ensures SameNodes(MoveStats(s, src, dest, id), MoveCheck(s, src, dest, id))
  {
    var t := MoveStats(s, src, dest, id);
    MoveStatsInv(s, src, dest, id);
    var m := ReadMove(t, id);
    RemoveConfigInv(t, m.digest);
    RemoveKeepsNodes(t, m.digest);
    var u := RemoveConfig(t, m.digest);
    AddConfigInv(u, m.config, dest);
    AddKeepsNodes(u, m.config, dest);
  }

  /** The weight the destination already had for this check: it is overwritten. */
  ghost function Overwritten(s: Store, dest: string, id: string): int
    requires dest in s.nodes
  {
    GetOr0(Weights(s.nodes[dest].stats), id)
  }

  lemma LoadWithout(stats: map<string, Stats>, id: string)
    requires id in stats
    ensures Sum(Weights(stats - {id})) == Sum(Weights(stats)) - Weight(stats[id])
  {
    SumRemove(Weights(stats), id);
    assert Weights(stats) - {id} == Weights(stats - {id});
  }

  lemma LoadWith(stats: map<string, Stats>, id: string, st: Stats)
    ensures Sum(Weights(stats[id := st])) == Sum(Weights(stats)) - GetOr0(Weights(stats), id) + Weight(st)
  {
    SumUpdate(Weights(stats), id, Weight(st));
    assert Weights(stats)[id := Weight(st)] == Weights(stats[id := st]);
  }

  /** The loads once a weight w left src for dest, which had weight gone for the check. */
  function Shifted(m: map<string, int>, src: string, dest: string, w: int, gone: int): map<string, int>
    requires src in m && dest in m
  {
    Set2(m, dest, m[dest] - gone + w, src, m[src] - w)
  }

  function Set2(m: map<string, int>, a: string, x: int, b: string, y: int): map<string, int> {
    m[a := x][b := y]
  }

  /** The load of each node once the statistics moved. */
  lemma MovedLoad(s: Store, src: string, dest: string, id: string, n: string)
    requires src in s.nodes && dest in s.nodes && src != dest && id in s.nodes[src].stats && n in s.nodes
    ensures var t, w := MoveStats(s, src, dest, id), Weight(s.nodes[src].stats[id]);
            n in t.nodes && Load(t.nodes[n]) == Load(s.nodes[n])
                            + (if n == dest then w - Overwritten(s, dest, id) else if n == src then -w else 0)
  {
    LoadWithout(s.nodes[src].stats, id);
    LoadWith(s.nodes[dest].stats, id, s.nodes[src].stats[id]);
  }

  lemma MoveStatsLoads(s: Store, src: string, dest: string, id: string)
    requires src in s.nodes && dest in s.nodes && src != dest && id in s.nodes[src].stats
    ensures Loads(MoveStats(s, src, dest, id))
         == Shifted(Loads(s), src, dest, Weight(s.nodes[src].stats[id]), Overwritten(s, dest, id))
  {
    var a := Loads(MoveStats(s, src, dest, id));
    var b := Shifted(Loads(s), src, dest, Weight(s.nodes[src].stats[id]), Overwritten(s, dest, id));
    forall n
      ensures (n in a <==> n in b) && (n in a ==> a[n] == b[n])
    {
      if n in s.nodes {
        MovedLoad(s, src, dest, id, n);
      }
    }
    Collections.SameEntries(a, b);
  }

  ghost function Mapped(f: int -> int, m: map<string, int>): map<string, int> {
    map k | k in m :: f(m[k])
  }

  /** A sum of any function of the loads after two of them changed. */
  lemma TwoChanged(f: int -> int, m: map<string, int>, a: string, x: int, b: string, y: int)
    requires a in m && b in m && a != b
    ensures Sum(Mapped(f, Set2(m, a, x, b, y))) == Sum(Mapped(f, m)) - f(m[a]) + f(x) - f(m[b]) + f(y)
  {
    SumUpdate(Mapped(f, m), a, f(x));
    SumUpdate(Mapped(f, m)[a := f(x)], b, f(y));
    assert Mapped(f, m)[a := f(x)][b := f(y)] == Mapped(f, Set2(m, a, x, b, y));
  }

  const SQUARE: int -> int := x => x * x

  ghost function SquareSum(m: map<string, int>): int {
    Sum(Mapped(SQUARE, m))
  }

  /** The tolerance test of rebalance, in whole numbers. */
  predicate WithinMargin(destDiff: int, weight: int, srcDiff: int) {
    destDiff + weight < 9 * srcDiff / 10
  }

  lemma SquaresFall(src: int, dest: int, w: int, gone: int)
    requires 0 <= w <= src && 0 <= gone <= dest && dest + w < src
    ensures SQUARE(dest - gone + w) + SQUARE(src - w) <= SQUARE(dest) + SQUARE(src)
    ensures w > 0 ==> SQUARE(dest - gone + w) + SQUARE(src - w) < SQUARE(dest) + SQUARE(src)
  {
    var x := dest - gone;
    assert (x + w) * (x + w) <= (dest + w) * (dest + w) by {
      MultiplyOrder(x + w, dest + w);
    }
    assert (dest + w) * (dest + w) + (src - w) * (src - w) == dest * dest + src * src - 2 * (w * (src - dest - w));
    assert w > 0 ==> w * (src - dest - w) > 0;
    assert w * (src - dest - w) >= 0;
  }

  lemma MultiplyOrder(x: int, y: int)
    requires 0 <= x <= y
    ensures x * x <= y * y
  {
    assert x * x <= x * y;
    assert x * y <= y * y;
  }

  /** No check has statistics on two nodes. */
  ghost predicate Disjoint(s: Store) {
    forall m, n, id :: m in s.nodes && n in s.nodes && id in s.nodes[m].stats && id in s.nodes[n].stats ==> m == n
  }

  lemma MoveCheckLoads(s: Store, src: string, dest: string, id: string)
    requires Inv(s) && src in s.nodes && dest in s.nodes && src != dest && id in s.nodes[src].stats
    ensures Loads(MoveCheck(s, src, dest, id))
         == Shifted(Loads(s), src, dest, Weight(s.nodes[src].stats[id]), Overwritten(s, dest, id))
  {
    MoveCheckInv(s, src, dest, id);
    MoveStatsLoads(s, src, dest, id);
  }

  /** The two loads after a move that overwrites no weight. */
  lemma MoveCheckShifts(s: Store, src: string, dest: string, id: string, w: int)
    requires Inv(s) && src in s.nodes && dest in s.nodes && src != dest && id in s.nodes[src].stats
    requires Weight(s.nodes[src].stats[id]) == w && Overwritten(s, dest, id) == 0
    ensures var t := MoveCheck(s, src, dest, id);
            && t.nodes.Keys == s.nodes.Keys
            && Load(t.nodes[src]) == Load(s.nodes[src]) - w && Load(t.nodes[dest]) == Load(s.nodes[dest]) + w
  {
    var t := MoveCheck(s, src, dest, id);
    MoveCheckLoads(s, src, dest, id);
    assert t.nodes.Keys == Loads(t).Keys == Loads(s).Keys == s.nodes.Keys;
    assert Loads(t)[src] == Load(t.nodes[src]) && Loads(t)[dest] == Load(t.nodes[dest]);
  }

  /** No weight is negative or exceeds the load of its node. */
  lemma WeightRange(s: Store, n: string, id: string)
    requires Measured(s) && n in s.nodes
    ensures 0 <= GetOr0(Weights(s.nodes[n].stats), id) <= Load(s.nodes[n])
  {
    assert NonNegative(s.nodes[n].stats);
    LoadNonNegative(s.nodes[n]);
    if id in s.nodes[n].stats {
      SumAtLeast(Weights(s.nodes[n].stats), id);
    }
  }

  ghost predicate AtMost(m: map<string, int>, bound: int) {
    forall k :: k in m ==> m[k] <= bound
  }

  /** The same nodes, no load above an old bound, no greater total, no greater sum of squares. */
  ghost predicate Better(before: map<string, int>, after: map<string, int>) {
    && after.Keys == before.Keys
    && (forall bound :: AtMost(before, bound) ==> AtMost(after, bound))
    && Sum(after) <= Sum(before)
    && SquareSum(after) <= SquareSum(before)
  }

  lemma BoundsKept(m: map<string, int>, src: string, dest: string, x: int, y: int)
    requires src in m && dest in m && x <= m[src] && y <= m[src]
    ensures forall bound :: AtMost(m, bound) ==> AtMost(Set2(m, dest, x, src, y), bound)
  {
    forall bound | AtMost(m, bound)
      ensures AtMost(Set2(m, dest, x, src, y), bound)
    {
    }
  }

  lemma SmallerSum(f: int -> int, m: map<string, int>, a: string, x: int, b: string, y: int, strict: bool)
    requires a in m && b in m && a != b
    requires f(x) + f(y) <= f(m[a]) + f(m[b]) && (strict ==> f(x) + f(y) < f(m[a]) + f(m[b]))
    ensures Sum(Mapped(f, Set2(m, a, x, b, y))) <= Sum(Mapped(f, m))
    ensures strict ==> Sum(Mapped(f, Set2(m, a, x, b, y))) < Sum(Mapped(f, m))
  {
    TwoChanged(f, m, a, x, b, y);
  }

  lemma TotalChanged(m: map<string, int>, a: string, x: int, b: string, y: int)
    requires a in m && b in m && a != b
    ensures Sum(Set2(m, a, x, b, y)) == Sum(m) - m[a] + x - m[b] + y
  {
    SumUpdate(m, a, x);
    SumUpdate(m[a := x], b, y);
  }

  lemma ShiftSquares(m: map<string, int>, src: string, dest: string, w: int, gone: int)
    requires src in m && dest in m && src != dest
    requires 0 <= w <= m[src] && 0 <= gone <= m[dest] && m[dest] + w < m[src]
    ensures SquareSum(Shifted(m, src, dest, w, gone)) <= SquareSum(m)
    ensures w > 0 ==> SquareSum(Shifted(m, src, dest, w, gone)) < SquareSum(m)
  {
    SquaresFall(m[src], m[dest], w, gone);
    SmallerSum(SQUARE, m, dest, m[dest] - gone + w, src, m[src] - w, w > 0);
  }

  /** Every accepted shift of weight, whatever the average. */
  lemma ShiftImproves(m: map<string, int>, src: string, dest: string, w: int, gone: int, avg: int)
    requires src in m && dest in m && src != dest
    requires 0 <= w <= m[src] && 0 <= gone <= m[dest]
    requires m[src] - avg > 0 && WithinMargin(m[dest] - avg, w, m[src] - avg)
    ensures var after := Shifted(m, src, dest, w, gone);
            && Better(m, after)
            && dest in after && after[dest] < m[src]
            && Sum(after) == Sum(m) - gone
            && (w > 0 ==> SquareSum(after) < SquareSum(m))
  {
    var x, y := m[dest] - gone + w, m[src] - w;
    var after := Set2(m, dest, x, src, y);
    assert after == Shifted(m, src, dest, w, gone);
    TotalChanged(m, dest, x, src, y);
    ShiftSquares(m, src, dest, w, gone);
    BoundsKept(m, src, dest, x, y);
  }

  /** The move rebalance makes when its margin test succeeds. */
  ghost predicate Accepted(s: Store, src: string, dest: string, id: string, avg: int) {
    && src in s.nodes && dest in s.nodes && src != dest && id in s.nodes[src].stats
    && Load(s.nodes[src]) - avg > 0
    && WithinMargin(Load(s.nodes[dest]) - avg, Weight(s.nodes[src].stats[id]), Load(s.nodes[src]) - avg)
  }

  /** Every accepted move, whatever the average: the destination ends strictly below the source's old load,
      the sum of squares falls (strictly for a positive weight), and the total is conserved exactly when the
      destination had no weight for the check. */
  lemma MoveImproves(s: Store, src: string, dest: string, id: string, avg: int)
    requires Inv(s) && Measured(s) && Accepted(s, src, dest, id, avg)
    ensures var before, after := Loads(s), Loads(MoveCheck(s, src, dest, id));
            && Better(before, after)
            && after[dest] < before[src]
            && (Sum(after) == Sum(before) <==> Overwritten(s, dest, id) == 0)
            && (Weight(s.nodes[src].stats[id]) > 0 ==> SquareSum(after) < SquareSum(before))
  {
    var m, w, gone := Loads(s), Weight(s.nodes[src].stats[id]), Overwritten(s, dest, id);
    assert m[src] == Load(s.nodes[src]) && m[dest] == Load(s.nodes[dest]);
    MoveCheckLoads(s, src, dest, id);
    WeightRange(s, src, id);
    WeightRange(s, dest, id);
    ShiftImproves(m, src, dest, w, gone, avg);
  }

  // ---- what a move keeps of the configurations ----

  /** Everything registered stays registered, with its contents, and placed; at most the zero configuration is new. */
  ghost predicate ConfigsKept(s: Store, t: Store) {
    && (AllPlaced(s) ==> AllPlaced(t))
    && s.digestToConfig.Keys <= t.digestToConfig.Keys <= s.digestToConfig.Keys + {ZERO_CONFIG.digest}
    && (forall d :: d in s.digestToConfig && d != ZERO_CONFIG.digest ==> t.digestToConfig[d] == s.digestToConfig[d])
  }

  /** Check identifiers are linked only to configurations that list them. */
  ghost predicate OwnIds(s: Store) {
    forall id :: id in s.idToDigest ==>
      s.idToDigest[id] in s.digestToConfig && id in s.digestToConfig[s.idToDigest[id]].ids
  }

  /** Every cluster check with statistics is linked to a configuration. */
  ghost predicate Linked(s: Store) {
    OwnIds(s) && forall n :: n in s.nodes ==> ChecksLinked(s, s.nodes[n].stats)
  }

  ghost predicate ChecksLinked(s: Store, stats: map<string, Stats>) {
    forall id :: id in stats && stats[id].isClusterCheck ==> id in s.idToDigest
  }

  /** Links survive, and with them every configuration and no other. */
  ghost predicate LinksKept(s: Store, t: Store) {
    Linked(s) ==> Linked(t) && t.digestToConfig == s.digestToConfig
  }

  /** Removing a configuration and adding it again: what moveCheck does to a linked check. */
  lemma ReaddKept(s: Store, c: Config, dest: string)
    requires c.digest in s.digestToConfig && s.digestToConfig[c.digest] == c
    ensures var t := AddConfig(RemoveConfig(s, c.digest), c, dest);
            && t.digestToConfig == s.digestToConfig && (AllPlaced(s) ==> AllPlaced(t))
            && (dest != "" ==> c.digest in t.digestToNode && t.digestToNode[c.digest] == dest)
  {
    var u := RemoveConfig(s, c.digest);
    AddConfigKeys(u, c, dest);
    assert AddConfig(u, c, dest).digestToConfig == u.digestToConfig[c.digest := c] == s.digestToConfig;
  }

  /** The identifiers of the configuration are linked again, and the others still. */
  lemma ReaddLinks(s: Store, c: Config, dest: string, id: string)
    requires c.digest in s.digestToConfig && s.digestToConfig[c.digest] == c && OwnIds(s)
    ensures var t := AddConfig(RemoveConfig(s, c.digest), c, dest);
            && (id in s.idToDigest ==> id in t.idToDigest)
            && (id in t.idToDigest ==> t.idToDigest[id] in s.digestToConfig && id in s.digestToConfig[t.idToDigest[id]].ids)
  {
    var u := RemoveConfig(s, c.digest);
    assert AddConfig(u, c, dest).idToDigest == u.idToDigest + (map i | i in c.ids :: c.digest);
  }

  lemma ReaddOwnIds(s: Store, c: Config, dest: string)
    requires c.digest in s.digestToConfig && s.digestToConfig[c.digest] == c && OwnIds(s)
    ensures var t := AddConfig(RemoveConfig(s, c.digest), c, dest);
            OwnIds(t) && s.idToDigest.Keys <= t.idToDigest.Keys
  {
    ReaddKept(s, c, dest);
    forall id
      ensures var t := AddConfig(RemoveConfig(s, c.digest), c, dest);
              && (id in s.idToDigest ==> id in t.idToDigest)
              && (id in t.idToDigest ==> t.idToDigest[id] in s.digestToConfig && id in s.digestToConfig[t.idToDigest[id]].ids)
    {
      ReaddLinks(s, c, dest, id);
    }
  }

  /** What moveCheck does to a check that is linked to no configuration: the zero configuration appears. */
  lemma ZeroAdded(s: Store, dest: string)
    requires Inv(s)
    ensures var t := AddConfig(RemoveConfig(s, ""), ZERO_CONFIG, dest);
            ConfigsKept(s, t) && ZERO_CONFIG.digest in t.digestToConfig
  {
    AddConfigKeys(RemoveConfig(s, ""), ZERO_CONFIG, dest);
  }

  /** A move loses no configuration; it adds one, the zero configuration, only if its check is not linked. */
  lemma MoveConfigs(s: Store, src: string, dest: string, id: string)
    requires Inv(s) && src in s.nodes && dest in s.nodes && id in s.nodes[src].stats
    ensures var t := MoveCheck(s, src, dest, id);
            && ConfigsKept(s, t)
            && (if id in s.idToDigest then t.digestToConfig == s.digestToConfig
                else ZERO_CONFIG.digest in t.digestToConfig)
            && (id in s.idToDigest && OwnIds(s) ==> OwnIds(t) && s.idToDigest.Keys <= t.idToDigest.Keys)
            && (id in s.idToDigest && dest != "" ==>
                  s.idToDigest[id] in t.digestToNode && t.digestToNode[s.idToDigest[id]] == dest)
  {
    var t := MoveStats(s, src, dest, id);
    MoveStatsInv(s, src, dest, id);
    if id in s.idToDigest {
      ReaddKept(t, ReadMove(t, id).config, dest);
      if OwnIds(s) {
        ReaddOwnIds(t, ReadMove(t, id).config, dest);
      }
    } else {
      ZeroAdded(t, dest);
    }
  }

  lemma MoveLinks(s: Store, src: string, dest: string, id: string)
    requires Inv(s) && src in s.nodes && dest in s.nodes && src != dest && id in s.nodes[src].stats
    requires s.nodes[src].stats[id].isClusterCheck
    ensures LinksKept(s, MoveCheck(s, src, dest, id))
  {
    if Linked(s) {
      var t, u := MoveStats(s, src, dest, id), MoveCheck(s, src, dest, id);
      assert ChecksLinked(s, s.nodes[src].stats);
      MoveConfigs(s, src, dest, id);
      MoveCheckInv(s, src, dest, id);
      forall n | n in u.nodes
        ensures ChecksLinked(u, u.nodes[n].stats)
      {
        assert u.nodes[n].stats == t.nodes[n].stats && ChecksLinked(s, s.nodes[n].stats);
        forall j | j in t.nodes[n].stats && t.nodes[n].stats[j].isClusterCheck
          ensures j in s.idToDigest
        {
          MovedStats(s, src, dest, id, n, j);
        }
      }
    }
  }

  // ---- a move as steps of the interleaved system ----

  /** moveCheck without other goroutines in between: two updates of statistics, then reading, removing and adding. */
  function MoveSteps(x: System, src: string, dest: string, id: string): seq<Step>
    requires src in x.store.nodes && dest in x.store.nodes && id in x.store.nodes[src].stats
  {
    [Collect(dest, x.store.nodes[dest].stats[id := x.store.nodes[src].stats[id]]),
     Collect(src, x.store.nodes[src].stats - {id})]
    + [MoveRead(id), MoveRemove(|x.moving|), Redispatch(|x.pending|, dest)]
  }

  lemma StatsSteps(x: System, src: string, dest: string, id: string)
    requires src in x.store.nodes && dest in x.store.nodes && src != dest && id in x.store.nodes[src].stats
    ensures RunFrom(x, [Collect(dest, x.store.nodes[dest].stats[id := x.store.nodes[src].stats[id]]),
                        Collect(src, x.store.nodes[src].stats - {id})])
         == x.(store := MoveStats(x.store, src, dest, id))
  {
    RunFromTwo(x, Collect(dest, x.store.nodes[dest].stats[id := x.store.nodes[src].stats[id]]),
               Collect(src, x.store.nodes[src].stats - {id}));
  }

  lemma ConfigSteps(x: System, dest: string, id: string)
    ensures RunFrom(x, [MoveRead(id), MoveRemove(|x.moving|), Redispatch(|x.pending|, dest)])
         == x.(store := AddConfig(RemoveConfig(x.store, ReadMove(x.store, id).digest), ReadMove(x.store, id).config, dest))
  {
    StepsOf(x, dest, id, ReadMove(x.store, id), RemoveConfig(x.store, ReadMove(x.store, id).digest));
  }

  lemma StepsOf(x: System, dest: string, id: string, m: Move, s: Store)
    requires m == ReadMove(x.store, id) && s == RemoveConfig(x.store, m.digest)
    ensures RunFrom(x, [MoveRead(id), MoveRemove(|x.moving|), Redispatch(|x.pending|, dest)])
         == x.(store := AddConfig(s, m.config, dest))
  {
    RemoveStep(x, m, s);
    AddStep(x, s, m.config, dest);
    ThreeSteps(x, MoveRead(id), x.(moving := x.moving + [m]), MoveRemove(|x.moving|),
               x.(store := s, pending := x.pending + [m.config]), Redispatch(|x.pending|, dest),
               x.(store := AddConfig(s, m.config, dest)));
  }

  lemma ThreeSteps(x: System, a: Step, xa: System, b: Step, xb: System, c: Step, xc: System)
    requires Next(x, a) == xa && Next(xa, b) == xb && Next(xb, c) == xc
    ensures RunFrom(x, [a, b, c]) == xc
  {
    assert [a, b, c] == [a] + [b, c];
    RunFromOne(x, a, [b, c]);
    RunFromTwo(xa, b, c);
  }

  lemma RemoveStep(x: System, m: Move, s: Store)
    requires s == RemoveConfig(x.store, m.digest)
    ensures Next(x.(moving := x.moving + [m]), MoveRemove(|x.moving|))
         == x.(store := s, pending := x.pending + [m.config])
  {
    assert Without(x.moving + [m], |x.moving|) == x.moving;
  }

  lemma AddStep(x: System, s: Store, c: Config, dest: string)
    ensures Next(x.(store := s, pending := x.pending + [c]), Redispatch(|x.pending|, dest))
         == x.(store := AddConfig(s, c, dest))
  {
    assert Without(x.pending + [c], |x.pending|) == x.pending;
  }

  /** A move is a sequence of steps of the interleaved system, so what every run keeps holds of it. */
  lemma MoveIsSteps(x: System, src: string, dest: string, id: string)
    requires src in x.store.nodes && dest in x.store.nodes && src != dest && id in x.store.nodes[src].stats
    ensures RunFrom(x, MoveSteps(x, src, dest, id)) == x.(store := MoveCheck(x.store, src, dest, id))
  {
    var y := x.(store := MoveStats(x.store, src, dest, id));
    StatsSteps(x, src, dest, id);
    RunFromConcat(x, [Collect(dest, x.store.nodes[dest].stats[id := x.store.nodes[src].stats[id]]),
                      Collect(src, x.store.nodes[src].stats - {id})],
                  [MoveRead(id), MoveRemove(|x.moving|), Redispatch(|x.pending|, dest)]);
    ConfigSteps(y, dest, id);
  }

  lemma MoveKeepsSystem(x: System, src: string, dest: string, id: string)
    requires SystemInv(x)
    requires src in x.store.nodes && dest in x.store.nodes && src != dest && id in x.store.nodes[src].stats
    ensures SystemInv(x.(store := MoveCheck(x.store, src, dest, id)))
  {
    MoveIsSteps(x, src, dest, id);
    RunFromInv(x, MoveSteps(x, src, dest, id));
  }

  // ---- the whole rebalancing ----

  /** What rebalancing makes of a store: better loads, and if no check was reported twice, the same total; all
      configurations kept, and at most the zero one added. */
  ghost predicate Improved(s: Store, t: Store) {
    && Better(Loads(s), Loads(t))
    && (Disjoint(s) ==> Disjoint(t) && Sum(Loads(t)) == Sum(Loads(s)))
    && ConfigsKept(s, t)
  }

  /** After any number of accepted moves of cluster checks. */
  ghost predicate Rebalanced(s: Store, t: Store) {
    Inv(t) && Measured(t) && Improved(s, t) && LinksKept(s, t)
  }

  lemma RebalancedTransitive(s: Store, t: Store, u: Store)
    requires Rebalanced(s, t) && Rebalanced(t, u)
    ensures Rebalanced(s, u)
  {
  }

  /** Where each check has statistics after a move. */
  lemma MovedStats(s: Store, src: string, dest: string, id: string, n: string, j: string)
    requires src in s.nodes && dest in s.nodes && src != dest && id in s.nodes[src].stats
    ensures var t := MoveStats(s, src, dest, id);
            && (n in t.nodes <==> n in s.nodes)
            && (n in s.nodes && j in t.nodes[n].stats ==>
                  if j == id && n == dest then t.nodes[n].stats[j] == s.nodes[src].stats[id]
                  else !(j == id && n == src) && j in s.nodes[n].stats && t.nodes[n].stats[j] == s.nodes[n].stats[j])
  {
  }

  lemma MovedMeasured(s: Store, src: string, dest: string, id: string)
    requires Measured(s) && src in s.nodes && dest in s.nodes && src != dest && id in s.nodes[src].stats
    ensures Measured(MoveStats(s, src, dest, id))
  {
    var t := MoveStats(s, src, dest, id);
    forall n | n in t.nodes
      ensures NonNegative(t.nodes[n].stats)
    {
      MovedStats(s, src, dest, id, n, id);
      forall j | j in t.nodes[n].stats
        ensures t.nodes[n].stats[j].averageExecutionTime >= 0 && t.nodes[n].stats[j].metricSamples >= 0
      {
        MovedStats(s, src, dest, id, n, j);
        assert NonNegative(s.nodes[n].stats) && NonNegative(s.nodes[src].stats);
      }
    }
  }

  lemma MovedDisjoint(s: Store, src: string, dest: string, id: string)
    requires Disjoint(s) && src in s.nodes && dest in s.nodes && src != dest && id in s.nodes[src].stats
    ensures Disjoint(MoveStats(s, src, dest, id))
  {
    var t := MoveStats(s, src, dest, id);
    forall m, n, j | m in t.nodes && n in t.nodes && j in t.nodes[m].stats && j in t.nodes[n].stats
      ensures m == n
    {
      MovedStats(s, src, dest, id, m, j);
      MovedStats(s, src, dest, id, n, j);
    }
  }

  lemma MoveImproved(s: Store, src: string, dest: string, id: string, avg: int)
    requires Inv(s) && Measured(s) && Accepted(s, src, dest, id, avg)
    ensures var t := MoveCheck(s, src, dest, id); Inv(t) && Measured(t) && Improved(s, t)
  {
    MoveImproves(s, src, dest, id, avg);
    MoveCheckInv(s, src, dest, id);
    MovedMeasured(s, src, dest, id);
    if Disjoint(s) {
      MovedDisjoint(s, src, dest, id);
    }
    MoveConfigs(s, src, dest, id);
  }

  ghost function ClusterChecks(n: Node): set<string> {
    set id | id in n.stats && n.stats[id].isClusterCheck
  }

  /** A move takes one cluster check off its source. */
  lemma SourceShrinks(s: Store, src: string, dest: string, id: string)
    requires Inv(s) && src in s.nodes && dest in s.nodes && src != dest && id in s.nodes[src].stats
    requires s.nodes[src].stats[id].isClusterCheck
    ensures var t := MoveCheck(s, src, dest, id);
            src in t.nodes && ClusterChecks(t.nodes[src]) < ClusterChecks(s.nodes[src])
  {
    var t := MoveCheck(s, src, dest, id);
    MoveCheckInv(s, src, dest, id);
    assert t.nodes[src].stats == s.nodes[src].stats - {id};
    assert id in ClusterChecks(s.nodes[src]) && id !in ClusterChecks(t.nodes[src]);
  }

  method DoMoveCheck(d: ClusterDispatcher, src: string, dest: string, id: string) returns (ok: bool)
    requires Inv(d.store)
    modifies d
    ensures ok == (src in old(d.store).nodes && dest in old(d.store).nodes && id in old(d.store).nodes[src].stats)
    ensures ok ==> d.store == MoveCheck(old(d.store), src, dest, id)
    ensures !ok ==> d.store == old(d.store)
  {
    if dest !in d.store.nodes || src !in d.store.nodes {
      return false;
    }
    if id !in d.store.nodes[src].stats {
      return false;
    }
    var stats := d.store.nodes[src].stats[id];
    var destNode := d.store.nodes[dest];
    d.store := d.store.(nodes := d.store.nodes[dest := destNode.(stats := destNode.stats[id := stats])]);
    var sourceNode := d.store.nodes[src];
    d.store := d.store.(nodes := d.store.nodes[src := sourceNode.(stats := sourceNode.stats - {id})]);
    assert sourceNode.stats - {id} == old(d.store.nodes[src].stats) - {id};
    assert d.store.nodes == MoveStats(old(d.store), src, dest, id).nodes;
    var m := ReadMove(d.store, id);
    d.DoRemoveConfig(m.digest);
    d.DoAddConfig(m.config, dest);
    return true;
  }
}
