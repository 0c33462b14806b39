/**
 The loops of rebalancing (clusteragent/clusterchecks/dispatcher_rebalance.go:166-212) and the ticks of the
 dispatcher that run them: which checks move, when a node is done, and what the whole leaves.
 */
module RebalanceLoop {
  import opened Dispatcher
  import opened DispatcherRuns
  import opened GoArith
  import opened MapSums
  import opened Rebalance
  import StringOrder

  /** With a single node the average is its own load. */
  ghost predicate AverageOf(s: Store, avg: int) {
    exists n :: n in s.nodes && avg == Div(Load(s.nodes[n]), |s.nodes|)
  }

  ghost predicate Another(diff: map<string, int>, name: string) {
    exists n :: n in diff && n != name
  }

  /** A single node is not above the average, so its loop is never entered. */
  ghost predicate SingleWithin(s: Store, avg: int) {
    |s.nodes.Keys| == 1 ==> AtMost(Loads(s), avg)
  }

  lemma AverageSingle(s: Store, avg: int)
    requires AverageOf(s, avg)
    ensures SingleWithin(s, avg)
  {
    if |s.nodes.Keys| == 1 {
      var n :| n in s.nodes && avg == Div(Load(s.nodes[n]), |s.nodes|);
      assert |s.nodes| == |s.nodes.Keys|;
      OnlyOne(s.nodes.Keys, n);
    }
  }

  /** The average of loads is right, whichever node is visited last. */
  ghost predicate AverageRight(m: map<string, int>) {
    m != map[] && forall n :: n in m ==> Div(m[n], |m|) == Div(Sum(m), |m|)
  }

  lemma SingleAverage(m: map<string, int>)
    requires |m| == 1
    ensures AverageRight(m)
  {
    var n :| n in m;
    assert |m.Keys| == |m|;
    OnlyOne(m.Keys, n);
    SumRemove(m, n);
    assert m - {n} == map[];
  }

  /** Two loads with the quotient of the total already exceed the total, unless it is zero. */
  lemma TwoTooMany(a: int, b: int, total: int, n: int)
    requires n > 0 && 0 <= a && 0 <= b && a + b <= total && Div(a, n) == Div(total, n) == Div(b, n)
    ensures total < n
  {
  }

  lemma SmallTotalRight(m: map<string, int>)
    requires m != map[] && (forall n :: n in m ==> 0 <= m[n]) && Sum(m) < |m|
    ensures AverageRight(m)
  {
    forall n | n in m
      ensures Div(m[n], |m|) == Div(Sum(m), |m|)
    {
      SumAtLeast(m, n);
      ZeroQuotient(m[n], |m|);
      ZeroQuotient(Sum(m), |m|);
    }
  }

  lemma ZeroQuotient(x: int, n: int)
    requires 0 <= x < n
    ensures Div(x, n) == 0
  {
    var q := Div(x, n);
    if q > 0 {
      AtLeastOnce(q, n);
    } else if q < 0 {
      AtLeastOnce(-q, n);
    }
  }

  lemma {:induction false} AtLeastOnce(q: int, n: int)
    requires q > 0 && n > 0
    ensures q * n >= n && (-q) * n == -(q * n)
    decreases q
  {
    if q > 1 {
      AtLeastOnce(q - 1, n);
      assert q * n == (q - 1) * n + n;
    }
  }

  lemma RightTotalSmall(m: map<string, int>)
    requires |m| >= 2 && (forall n :: n in m ==> 0 <= m[n]) && AverageRight(m)
    ensures Sum(m) < |m|
  {
    var a :| a in m;
    SumRemove(m, a);
    RemoveSmaller(m, a);
    var rest := m - {a};
    assert rest != map[];
    var b :| b in rest;
    SumAtLeast(rest, b);
    TwoTooMany(m[a], m[b], Sum(m), |m|);
  }

  /** The average is right for every order of visiting the nodes if and only if there is one node, or the total load
      is below the number of nodes, which makes the average zero. */
  lemma AverageRightIff(s: Store)
    requires Measured(s) && s.nodes != map[]
    ensures AverageRight(Loads(s)) <==> |s.nodes| == 1 || Sum(Loads(s)) < |s.nodes|
  {
    var m := Loads(s);
    assert m.Keys == s.nodes.Keys && |m| == |m.Keys| == |s.nodes.Keys| == |s.nodes|;
    forall n | n in m
      ensures 0 <= m[n]
    {
      LoadNonNegative(s.nodes[n]);
    }
    if |m| == 1 {
      SingleAverage(m);
    } else if Sum(m) < |m| {
      SmallTotalRight(m);
    } else if AverageRight(m) {
      RightTotalSmall(m);
    }
  }

  lemma OnlyOne(keys: set<string>, n: string)
    requires n in keys && |keys| == 1
    ensures keys == {n}
  {
    assert |keys - {n}| == 0;
  }

  lemma AnotherOrWithin(s: Store, avg: int, name: string)
    requires SingleWithin(s, avg) && name in s.nodes
    ensures Another(Differences(s, avg), name) || Load(s.nodes[name]) <= avg
  {
    if !Another(Differences(s, avg), name) {
      forall k
        ensures k in s.nodes.Keys <==> k == name
      {
        if k in s.nodes {
          assert k in Differences(s, avg);
        }
      }
      assert s.nodes.Keys == {name};
      assert name in Loads(s);
    }
  }

  lemma RebalancedSingle(s: Store, t: Store, avg: int)
    requires Rebalanced(s, t) && SingleWithin(s, avg)
    ensures SingleWithin(t, avg) && t.nodes.Keys == s.nodes.Keys
  {
    assert Loads(s).Keys == s.nodes.Keys && Loads(t).Keys == t.nodes.Keys;
  }

  // ---- what the loops do ----

  /** A node other than src with the least load. */
  ghost predicate LeastLoaded(s: Store, src: string, dest: string) {
    && dest in s.nodes && dest != src
    && forall n :: n in s.nodes && n != src ==> Load(s.nodes[dest]) <= Load(s.nodes[n])
  }

  /** The margin test for moving a check of this weight, by loads: what the destination would be above the average
      stays below nine tenths of what the source is. */
  predicate MarginAllows(destLoad: int, weight: int, srcLoad: int, avg: int) {
    destLoad - avg + weight < 9 * (srcLoad - avg) / 10
  }

  /** One move of rebalance off a node above the average: a heaviest cluster check goes to a node of least load,
      within the margin. */
  ghost predicate MoveStep(s: Store, name: string, avg: int, t: Store) {
    exists id, dest :: MoveBy(s, name, avg, id, dest) && t == MoveCheck(s, name, dest, id)
  }

  ghost predicate MoveBy(s: Store, name: string, avg: int, id: string, dest: string) {
    && name in s.nodes && Load(s.nodes[name]) > avg
    && HeaviestCheck(s.nodes[name].stats, id) && LeastLoaded(s, name, dest)
    && MarginAllows(Load(s.nodes[dest]), Weight(s.nodes[name].stats[id]), Load(s.nodes[name]), avg)
  }

  /** Nothing is left to move off a node: it is not above the average, has no cluster check, or moving its heaviest one
      to the least loaded other node would exceed the margin. */
  ghost predicate Drained(s: Store, name: string, avg: int) {
    && name in s.nodes
    && (|| Load(s.nodes[name]) <= avg
        || ClusterChecks(s.nodes[name]) == {}
        || exists id, dest :: StuckAt(s, name, avg, id, dest))
  }

  ghost predicate StuckAt(s: Store, name: string, avg: int, id: string, dest: string)
    requires name in s.nodes
  {
    && HeaviestCheck(s.nodes[name].stats, id) && LeastLoaded(s, name, dest)
    && !MarginAllows(Load(s.nodes[dest]), Weight(s.nodes[name].stats[id]), Load(s.nodes[name]), avg)
  }

  /** A node from which a move is possible is not drained, so exactly one of the two holds. */
  lemma DrainedOrMoves(s: Store, name: string, avg: int, id: string, dest: string)
    requires MoveBy(s, name, avg, id, dest)
    ensures !Drained(s, name, avg)
  {
    assert id in ClusterChecks(s.nodes[name]);
  }

  /** The stores of one run of the inner loop: moves off one node, until nothing is left to move. */
  ghost predicate DrainRun(trace: seq<Store>, name: string, avg: int) {
    && trace != []
    && (forall i :: 0 <= i < |trace| - 1 ==> MoveStep(trace[i], name, avg, trace[i + 1]))
    && Drained(trace[|trace| - 1], name, avg)
  }

  /** One visit of the outer loop: a node, and the stores while its checks were moved. */
  datatype Visit = Visit(name: string, trace: seq<Store>)

  /** The visits follow each other from s to t. */
  ghost predicate Visits(visits: seq<Visit>, s: Store, t: Store, avg: int) {
    if visits == [] then s == t
    else
      var last := visits[|visits| - 1];
      && DrainRun(last.trace, last.name, avg) && last.trace[|last.trace| - 1] == t
      && Visits(visits[..|visits| - 1], s, last.trace[0], avg)
  }

  ghost function Names(visits: seq<Visit>): seq<string> {
    if visits == [] then [] else Names(visits[..|visits| - 1]) + [visits[|visits| - 1].name]
  }

  /** Every node was visited once, in order of falling loads as they were before. */
  ghost predicate BusiestFirst(names: seq<string>, loads: map<string, int>) {
    && multiset(names) == multiset(loads.Keys)
    && forall i :: 0 < i < |names| ==> Falls(names, loads, i)
  }

  predicate Falls(names: seq<string>, loads: map<string, int>, i: nat)
    requires 0 < i < |names|
  {
    names[i - 1] in loads && names[i] in loads && loads[names[i - 1]] >= loads[names[i]]
  }

  /** One iteration of the inner loop: a heaviest check of a node above the average goes to the least loaded other one,
      unless there is none or the margin forbids it. */
  method TryMove(d: ClusterDispatcher, name: string, avg: int, diff: map<string, int>) returns (moved: bool)
    requires Inv(d.store) && Measured(d.store) && SingleWithin(d.store, avg) && name in d.store.nodes
    requires diff == Differences(d.store, avg) && diff[name] > 0
    modifies d
    ensures !moved ==> d.store == old(d.store) && Drained(d.store, name, avg)
    ensures moved ==> MoveStep(old(d.store), name, avg, d.store) && Rebalanced(old(d.store), d.store)
                      && name in d.store.nodes
                      && ClusterChecks(d.store.nodes[name]) < ClusterChecks(old(d.store).nodes[name])
  {
    var found, id, weight := MostWeightedClusterCheck(d.store.nodes[name].stats);
    if !found {
      NoneFound(d.store, name, avg);
      return false;
    }
    AnotherOrWithin(d.store, avg, name);
    var picked := PickNode(diff, name);
    PickedLeast(d.store, avg, name, picked);
    if !WithinMargin(GetOr0(diff, picked), weight, diff[name]) {
      assert StuckAt(d.store, name, avg, id, picked);
      return false;
    }
    assert MoveBy(d.store, name, avg, id, picked);
    AcceptMove(d, name, picked, id, avg);
    return true;
  }

  /** The inner loop of rebalance: heaviest checks leave one node for the least loaded one while it is above the
      average and the margin allows. It stops because every move takes one cluster check off the node. */
  method DrainNode(d: ClusterDispatcher, name: string, avg: int) returns (ghost trace: seq<Store>)
    requires Inv(d.store) && Measured(d.store) && SingleWithin(d.store, avg) && name in d.store.nodes
    modifies d
    ensures Rebalanced(old(d.store), d.store)
    ensures DrainRun(trace, name, avg) && trace[0] == old(d.store) && trace[|trace| - 1] == d.store
  {
    trace := [d.store];
    var diff := UpdateDiff(d.store, avg);
    while diff[name] > 0
      invariant Rebalanced(old(d.store), d.store) && SingleWithin(d.store, avg) && name in d.store.nodes
      invariant diff == Differences(d.store, avg)
      invariant Moves(trace, name, avg, old(d.store), d.store)
      decreases ClusterChecks(d.store.nodes[name])
    {
      ghost var s := d.store;
      var moved := TryMove(d, name, avg, diff);
      if !moved {
        return;
      }
      RebalancedTransitive(old(d.store), s, d.store);
      RebalancedSingle(s, d.store, avg);
      trace := OneMoveMore(trace, name, avg, old(d.store), s, d.store);
      diff := UpdateDiff(d.store, avg);
    }
  }

  /** Moves off one node from s to t. */
  ghost predicate Moves(trace: seq<Store>, name: string, avg: int, s: Store, t: Store) {
    && trace != [] && trace[0] == s && trace[|trace| - 1] == t
    && forall i :: 0 <= i < |trace| - 1 ==> MoveStep(trace[i], name, avg, trace[i + 1])
  }

  lemma OneMoveMore(trace: seq<Store>, name: string, avg: int, s: Store, t: Store, u: Store) returns (more: seq<Store>)
    requires Moves(trace, name, avg, s, t) && MoveStep(t, name, avg, u)
    ensures Moves(more, name, avg, s, u)
  {
    more := trace + [u];
  }

  lemma NoneFound(s: Store, name: string, avg: int)
    requires name in s.nodes && forall j :: j in s.nodes[name].stats ==> !s.nodes[name].stats[j].isClusterCheck
    ensures Drained(s, name, avg)
  {
    assert ClusterChecks(s.nodes[name]) == {};
  }

  /** The least difference is the least load. */
  lemma PickedLeast(s: Store, avg: int, name: string, picked: string)
    requires LeastOther(Differences(s, avg), name, picked)
    ensures LeastLoaded(s, name, picked)
  {
    forall n | n in s.nodes && n != name
      ensures Load(s.nodes[picked]) <= Load(s.nodes[n])
    {
      assert n in Differences(s, avg);
    }
  }

  method AcceptMove(d: ClusterDispatcher, name: string, picked: string, id: string, ghost avg: int)
    requires Inv(d.store) && Measured(d.store) && Accepted(d.store, name, picked, id, avg)
    requires d.store.nodes[name].stats[id].isClusterCheck
    modifies d
    ensures Rebalanced(old(d.store), d.store) && d.store == MoveCheck(old(d.store), name, picked, id)
    ensures name in d.store.nodes
    ensures ClusterChecks(d.store.nodes[name]) < ClusterChecks(old(d.store).nodes[name])
  {
    MoveImproved(d.store, name, picked, id, avg);
    MoveLinks(d.store, name, picked, id);
    SourceShrinks(d.store, name, picked, id);
    var ok := DoMoveCheck(d, name, picked, id);
  }

  /** rebalance: with the load of some node over the number of nodes as the average, every node is visited once, the
      busiest first, and drained. */
  method DoRebalance(d: ClusterDispatcher) returns (ghost avg: int, ghost visits: seq<Visit>)
    requires Inv(d.store) && Measured(d.store)
    modifies d
    ensures Rebalanced(old(d.store), d.store)
    ensures old(d.store).nodes == map[] ==> d.store == old(d.store)
    ensures old(d.store).nodes != map[] ==>
              && AverageOf(old(d.store), avg)
              && Visits(visits, old(d.store), d.store, avg) && BusiestFirst(Names(visits), Loads(old(d.store)))
  {
    var ok, average := CalculateAvg(d.store);
    avg, visits := average, [];
    if !ok {
      return;
    }
    AverageSingle(d.store, average);
    var weights := UpdateDiff(d.store, 0);
    assert weights == Loads(d.store);
    visits := DrainAll(d, average, weights);
  }

  /** The names visited so far, each once, in falling order and none less busy than what is left. */
  ghost predicate VisitedSoFar(names: seq<string>, weights: map<string, int>, left: set<string>) {
    && left <= weights.Keys && multiset(names) == multiset(weights.Keys - left)
    && (forall i :: 0 < i < |names| ==> Falls(names, weights, i))
    && (names != [] ==> names[|names| - 1] in weights
                        && forall n :: n in left ==> weights[names[|names| - 1]] >= weights[n])
  }

  lemma OneNameMore(names: seq<string>, weights: map<string, int>, left: set<string>, name: string)
    requires VisitedSoFar(names, weights, left) && name in left
    requires forall n :: n in left ==> weights[n] <= weights[name]
    ensures VisitedSoFar(names + [name], weights, left - {name})
  {
    var more := names + [name];
    assert weights.Keys - (left - {name}) == (weights.Keys - left) + {name};
    forall i | 0 < i < |more|
      ensures Falls(more, weights, i)
    {
      if i < |names| {
        assert Falls(names, weights, i);
      }
    }
  }

  /** The state of the outer loop. */
  ghost predicate Underway(s: Store, t: Store, visits: seq<Visit>, weights: map<string, int>, left: set<string>, avg: int) {
    Rebalanced(s, t) && Visits(visits, s, t, avg) && VisitedSoFar(Names(visits), weights, left)
  }

  lemma AllVisited(s: Store, t: Store, visits: seq<Visit>, weights: map<string, int>, avg: int)
    requires Underway(s, t, visits, weights, {}, avg)
    ensures Rebalanced(s, t) && Visits(visits, s, t, avg) && BusiestFirst(Names(visits), weights)
  {
    assert weights.Keys - {} == weights.Keys;
  }

  lemma NoneVisited(s: Store, weights: map<string, int>, avg: int)
    requires Inv(s) && Measured(s)
    ensures Underway(s, s, [], weights, weights.Keys, avg)
  {
    assert weights.Keys - weights.Keys == {};
  }

  /** The outer loop: every node once, the busiest first. */
  method DrainAll(d: ClusterDispatcher, avg: int, weights: map<string, int>) returns (ghost visits: seq<Visit>)
    requires Inv(d.store) && Measured(d.store) && SingleWithin(d.store, avg) && weights.Keys == d.store.nodes.Keys
    modifies d
    ensures Rebalanced(old(d.store), d.store)
    ensures Visits(visits, old(d.store), d.store, avg) && BusiestFirst(Names(visits), weights)
  {
    visits := [];
    var left := weights.Keys;
    NoneVisited(d.store, weights, avg);
    while left != {}
      invariant left <= weights.Keys && Underway(old(d.store), d.store, visits, weights, left, avg)
      decreases |left|
    {
      var name := Heaviest(weights, left);
      visits := VisitNext(d, old(d.store), visits, weights, left, name, avg);
      left := left - {name};
    }
    AllVisited(old(d.store), d.store, visits, weights, avg);
  }

  method VisitNext(d: ClusterDispatcher, ghost s: Store, ghost visits: seq<Visit>, ghost weights: map<string, int>,
                   ghost left: set<string>, name: string, avg: int) returns (ghost more: seq<Visit>)
    requires Underway(s, d.store, visits, weights, left, avg) && SingleWithin(s, avg) && weights.Keys == s.nodes.Keys
    requires name in left && left <= weights.Keys && forall n :: n in left ==> weights[n] <= weights[name]
    modifies d
    ensures Underway(s, d.store, more, weights, left - {name}, avg)
  {
    ghost var trace := DrainNext(d, s, name, avg);
    OneNameMore(Names(visits), weights, left, name);
    more := AddVisit(visits, s, trace[0], d.store, avg, Visit(name, trace));
  }

  lemma AddVisit(visits: seq<Visit>, s: Store, t: Store, u: Store, avg: int, v: Visit) returns (more: seq<Visit>)
    requires Visits(visits, s, t, avg) && DrainRun(v.trace, v.name, avg)
    requires v.trace[0] == t && v.trace[|v.trace| - 1] == u
    ensures more == visits + [v] && Visits(more, s, u, avg) && Names(more) == Names(visits) + [v.name]
  {
    more := visits + [v];
    assert more[..|visits|] == visits;
  }

  method DrainNext(d: ClusterDispatcher, ghost s: Store, name: string, avg: int) returns (ghost trace: seq<Store>)
    requires Rebalanced(s, d.store) && SingleWithin(s, avg) && name in s.nodes
    modifies d
    ensures Rebalanced(s, d.store)
    ensures DrainRun(trace, name, avg) && trace[0] == old(d.store) && trace[|trace| - 1] == d.store
  {
    ghost var t := d.store;
    RebalancedSingle(s, t, avg);
    trace := DrainNode(d, name, avg);
    RebalancedTransitive(s, t, d.store);
  }

  /** sort.Sort(weights): the busiest node of those left. */
  method Heaviest(weights: map<string, int>, left: set<string>) returns (name: string)
    requires left != {} && left <= weights.Keys
    ensures name in left && forall n :: n in left ==> weights[n] <= weights[name]
  {
    name :| name in left;
    var rest := left - {name};
    while rest != {}
      invariant rest <= left && name in left
      invariant forall n :: n in left - rest ==> weights[n] <= weights[name]
      decreases |rest|
    {
      var n :| n in rest;
      rest := rest - {n};
      if weights[n] > weights[name] {
        name := n;
      }
    }
  }

  // ---- rebalancing improves what is not balanced ----

  lemma MoveStepImproves(s: Store, name: string, avg: int, t: Store) returns (id: string, dest: string)
    requires Inv(s) && Measured(s) && MoveStep(s, name, avg, t)
    ensures MoveBy(s, name, avg, id, dest) && t == MoveCheck(s, name, dest, id)
    ensures Inv(t) && Measured(t) && Better(Loads(s), Loads(t))
    ensures Weight(s.nodes[name].stats[id]) > 0 ==> SquareSum(Loads(t)) < SquareSum(Loads(s))
  {
    id, dest :| MoveBy(s, name, avg, id, dest) && t == MoveCheck(s, name, dest, id);
    MoveImproves(s, name, dest, id, avg);
    MoveImproved(s, name, dest, id, avg);
  }

  lemma {:induction false} TraceImproves(trace: seq<Store>, name: string, avg: int, i: nat)
    requires i < |trace| && Inv(trace[0]) && Measured(trace[0])
    requires forall j :: 0 <= j < |trace| - 1 ==> MoveStep(trace[j], name, avg, trace[j + 1])
    ensures Inv(trace[i]) && Measured(trace[i]) && SquareSum(Loads(trace[i])) <= SquareSum(Loads(trace[0]))
    ensures 1 <= i ==> SquareSum(Loads(trace[i])) <= SquareSum(Loads(trace[1]))
  {
    if i > 0 {
      TraceImproves(trace, name, avg, i - 1);
      var _, _ := MoveStepImproves(trace[i - 1], name, avg, trace[i]);
    }
  }

  /** A node from which a check of positive weight can move is not left as it is: the sum of squares strictly falls. */
  lemma DrainImproves(trace: seq<Store>, name: string, avg: int, id: string, dest: string)
    requires DrainRun(trace, name, avg) && Inv(trace[0]) && Measured(trace[0])
    requires MoveBy(trace[0], name, avg, id, dest) && Weight(trace[0].nodes[name].stats[id]) > 0
    ensures |trace| >= 2 && SquareSum(Loads(trace[|trace| - 1])) < SquareSum(Loads(trace[0]))
  {
    DrainedOrMoves(trace[0], name, avg, id, dest);
    assert |trace| != 1;
    var j, _ := MoveStepImproves(trace[0], name, avg, trace[1]);
    assert Weight(trace[0].nodes[name].stats[j]) == Weight(trace[0].nodes[name].stats[id]);
    TraceImproves(trace, name, avg, |trace| - 1);
  }

  /** Two nodes, one with twice the weight w of its heaviest check and the other empty. */
  ghost predicate TwoNodes(s: Store, a: string, b: string, w: int, id: string) {
    && a != b && s.nodes.Keys == {a, b} && w >= 2
    && Load(s.nodes[a]) == 2 * w && s.nodes[b].stats == map[]
    && HeaviestCheck(s.nodes[a].stats, id) && Weight(s.nodes[a].stats[id]) == w
  }

  lemma TwoNodesAverage(s: Store, a: string, b: string, w: int, id: string, avg: int)
    requires TwoNodes(s, a, b, w, id) && AverageOf(s, avg)
    ensures Load(s.nodes[b]) == 0 && (avg == w || avg == 0)
  {
    assert Weights(s.nodes[b].stats) == map[];
    assert |s.nodes| == |s.nodes.Keys| == |{a, b}| == 2;
    var n :| n in s.nodes && avg == Div(Load(s.nodes[n]), |s.nodes|);
    assert n == a || n == b;
  }

  lemma TwoNodesMove(s: Store, a: string, b: string, w: int, id: string, avg: int)
    requires TwoNodes(s, a, b, w, id) && Load(s.nodes[b]) == 0 && (avg == w || avg == 0)
    ensures MoveBy(s, a, avg, id, b)
  {
    assert b in s.nodes.Keys && a in s.nodes.Keys;
    assert forall n :: n in s.nodes && n != a ==> n == b;
  }

  lemma TwoNodesMoved(s: Store, a: string, b: string, w: int, id: string, avg: int, t: Store)
    requires Inv(s) && Measured(s) && TwoNodes(s, a, b, w, id) && Load(s.nodes[b]) == 0 && MoveStep(s, a, avg, t)
    ensures t.nodes.Keys == {a, b} && Load(t.nodes[a]) == w && Load(t.nodes[b]) == w
    ensures Inv(t) && Measured(t)
  {
    var j, dest := MoveStepImproves(s, a, avg, t);
    assert Weight(s.nodes[a].stats[j]) == w && dest == b;
    assert Overwritten(s, b, j) == 0;
    MoveCheckShifts(s, a, b, j, w);
  }

  lemma EvenStays(s: Store, a: string, b: string, w: int, avg: int)
    requires a != b && s.nodes.Keys == {a, b} && Load(s.nodes[a]) == w && Load(s.nodes[b]) == w && w >= 2
    requires Measured(s) && (avg == w || avg == 0)
    ensures forall t :: !MoveStep(s, a, avg, t)
  {
    forall id, dest | MoveBy(s, a, avg, id, dest)
      ensures false
    {
      assert NonNegative(s.nodes[a].stats);
    }
  }

  lemma EvenEnds(trace: seq<Store>, a: string, b: string, w: int, avg: int)
    requires DrainRun(trace, a, avg) && |trace| >= 2
    requires a != b && trace[1].nodes.Keys == {a, b} && w >= 2 && Measured(trace[1]) && (avg == w || avg == 0)
    requires Load(trace[1].nodes[a]) == w && Load(trace[1].nodes[b]) == w
    ensures |trace| == 2
  {
    if |trace| > 2 {
      assert MoveStep(trace[1], a, avg, trace[1 + 1]);
      EvenStays(trace[1], a, b, w, avg);
    }
  }

  lemma FirstMoves(trace: seq<Store>, a: string, b: string, w: int, id: string, avg: int)
    requires DrainRun(trace, a, avg) && TwoNodes(trace[0], a, b, w, id)
    requires Load(trace[0].nodes[b]) == 0 && (avg == w || avg == 0)
    ensures |trace| >= 2 && MoveStep(trace[0], a, avg, trace[1])
  {
    TwoNodesMove(trace[0], a, b, w, id, avg);
    DrainedOrMoves(trace[0], a, avg, id, b);
  }

  /** Whichever node the average was taken from, the two end up with w each. */
  lemma TwoNodesEven(trace: seq<Store>, a: string, b: string, w: int, id: string, avg: int)
    requires trace != [] && Inv(trace[0]) && Measured(trace[0]) && TwoNodes(trace[0], a, b, w, id)
    requires AverageOf(trace[0], avg) && DrainRun(trace, a, avg)
    ensures var t := trace[|trace| - 1];
            t.nodes.Keys == {a, b} && Load(t.nodes[a]) == w && Load(t.nodes[b]) == w
  {
    TwoNodesAverage(trace[0], a, b, w, id, avg);
    FirstMoves(trace, a, b, w, id, avg);
    TwoNodesMoved(trace[0], a, b, w, id, avg, trace[1]);
    EvenEnds(trace, a, b, w, avg);
  }

  // ---- the ticks of run ----

  /** Statistics as updateRunnersStats stores them: checks linked to a configuration are marked as cluster checks. */
  function Marked(s: Store, stats: map<string, Stats>): map<string, Stats> {
    map id | id in stats :: stats[id].(isClusterCheck := stats[id].isClusterCheck || id in s.idToDigest)
  }

  ghost function Refreshed(s: Store, collected: map<string, map<string, Stats>>, n: string): Node
    requires n in s.nodes
  {
    if n in collected then
      s.nodes[n].(stats := Marked(s, collected[n]), busyness := Sum(Weights(Marked(s, collected[n]))))
    else s.nodes[n]
  }

  /** The store once the nodes that answered have new statistics; the others keep their old ones. */
  ghost function Collected(s: Store, collected: map<string, map<string, Stats>>): Store {
    s.(nodes := map n | n in s.nodes :: Refreshed(s, collected, n))
  }

  /** updateRunnersStats: the nodes are visited in any order. */
  method UpdateRunnersStats(s: Store, collected: map<string, map<string, Stats>>) returns (r: Store)
    ensures r == Collected(s, collected)
  {
    var nodes: map<string, Node> := map[];
    var left := s.nodes.Keys;
    while left != {}
      invariant left <= s.nodes.Keys && nodes.Keys == s.nodes.Keys - left
      invariant forall n :: n in nodes ==> nodes[n] == Refreshed(s, collected, n)
      decreases |left|
    {
      var name :| name in left;
      left := left - {name};
      var node := Refresh(s, collected, name);
      nodes := nodes[name := node];
    }
    r := s.(nodes := nodes);
  }

  method Refresh(s: Store, collected: map<string, map<string, Stats>>, name: string) returns (node: Node)
    requires name in s.nodes
    ensures node == Refreshed(s, collected, name)
  {
    node := s.nodes[name];
    if name in collected {
      var stats := Marked(s, collected[name]);
      var busyness := GetBusyness(stats);
      node := node.(stats := stats, busyness := busyness);
    }
  }

  ghost predicate AllNonNegative(collected: map<string, map<string, Stats>>) {
    forall n :: n in collected ==> NonNegative(collected[n])
  }

  lemma CollectedKeeps(s: Store, collected: map<string, map<string, Stats>>)
    requires Inv(s) && Measured(s) && AllNonNegative(collected)
    ensures var t := Collected(s, collected);
            && Inv(t) && Measured(t) && (AllPlaced(s) ==> AllPlaced(t))
            && t.digestToConfig == s.digestToConfig && t.idToDigest == s.idToDigest
  {
    var t := Collected(s, collected);
    forall n | n in t.nodes
      ensures n in s.nodes && t.nodes[n].configs == s.nodes[n].configs && NonNegative(t.nodes[n].stats)
    {
      assert NonNegative(s.nodes[n].stats);
      if n in collected {
        assert NonNegative(collected[n]);
      }
    }
    assert t.nodes.Keys == s.nodes.Keys;
  }

  /** No runner calls a check a cluster check on its own. */
  ghost predicate Unclaimed(collected: map<string, map<string, Stats>>) {
    forall n, id :: n in collected && id in collected[n] ==> !collected[n][id].isClusterCheck
  }

  /** When every node answered, exactly the linked checks are cluster checks. */
  lemma CollectedLinked(s: Store, collected: map<string, map<string, Stats>>)
    requires OwnIds(s) && s.nodes.Keys <= collected.Keys && Unclaimed(collected)
    ensures Linked(Collected(s, collected))
  {
    var t := Collected(s, collected);
    forall n | n in t.nodes
      ensures ChecksLinked(t, t.nodes[n].stats)
    {
      assert n in collected;
    }
  }

  /** The statistics tick of run. A configuration nobody scheduled can appear only if some node did not answer, a
      runner claims a cluster check of its own, or an identifier is linked to a configuration that does not list it. */
  method StatsTick(d: ClusterDispatcher, collected: map<string, map<string, Stats>>)
    requires Inv(d.store) && Measured(d.store) && AllNonNegative(collected)
    modifies d
    ensures Inv(d.store) && Measured(d.store) && ConfigsKept(old(d.store), d.store)
    ensures OwnIds(old(d.store)) && old(d.store).nodes.Keys <= collected.Keys && Unclaimed(collected) ==>
              d.store.digestToConfig == old(d.store).digestToConfig
  {
    if !d.advancedDispatching {
      return;
    }
    CollectedKeeps(d.store, collected);
    if OwnIds(d.store) && d.store.nodes.Keys <= collected.Keys && Unclaimed(collected) {
      CollectedLinked(d.store, collected);
    }
    d.store := UpdateRunnersStats(d.store, collected);
    ghost var _, _ := DoRebalance(d);
  }

  datatype Tick = Cleanup(cutoff: int) | Statistics(collected: map<string, map<string, Stats>>)

  ghost predicate Measurable(t: Tick) {
    t.Statistics? ==> AllNonNegative(t.collected)
  }

  lemma CleanupMeasured(s: Store, cutoff: int, t: Store)
    requires Measured(s) && SameNodes(ExpireNodes(s, cutoff), t)
    ensures Measured(t)
  {
    forall n | n in t.nodes
      ensures NonNegative(t.nodes[n].stats)
    {
      assert n in ExpireNodes(s, cutoff).nodes && n in s.nodes;
    }
  }

  /** run: whatever the order of its ticks, no configuration is lost, every one stays on a node or dangling, and at
      most the zero configuration is new. */
  method RunTicks(d: ClusterDispatcher, ticks: seq<Tick>)
    requires Inv(d.store) && AllPlaced(d.store) && Measured(d.store) && forall t :: t in ticks ==> Measurable(t)
    modifies d
    ensures Inv(d.store) && AllPlaced(d.store) && Measured(d.store)
    ensures old(d.store).digestToConfig.Keys <= d.store.digestToConfig.Keys
            <= old(d.store).digestToConfig.Keys + {ZERO_CONFIG.digest}
  {
    for i := 0 to |ticks|
      invariant Inv(d.store) && AllPlaced(d.store) && Measured(d.store)
      invariant old(d.store).digestToConfig.Keys <= d.store.digestToConfig.Keys
                <= old(d.store).digestToConfig.Keys + {ZERO_CONFIG.digest}
    {
      assert Measurable(ticks[i]);
      match ticks[i]
      case Cleanup(cutoff) =>
        ghost var s := d.store;
        d.CleanupTick(cutoff);
        CleanupMeasured(s, cutoff, d.store);
      case Statistics(collected) =>
        StatsTick(d, collected);
    }
  }
}
