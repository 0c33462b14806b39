/**
 The cluster-check dispatcher (clusteragent/clusterchecks): configurations allocated to nodes, with
 node expiry, dangling configurations and re-dispatch. Each method that holds the store's lock is one
 atomic step; a run interleaves them.
 */
module Dispatcher {
  import opened Collections

  /** A configuration with its digest and the check identifiers of its instances. */
  datatype Config = Config(digest: string, ids: seq<string>)

  /** What reading an unknown digest yields: the zero configuration and the digest of empty contents. */
  const ZERO_CONFIG := Config("cbf29ce484222325", [])

  /** Runner statistics of a check: its weight is derived from them in module Rebalance. */
  datatype Stats = Stats(averageExecutionTime: int, metricSamples: int, isClusterCheck: bool)

  datatype Node = Node(heartbeat: int, configs: map<string, Config>, stats: map<string, Stats>, busyness: int)

  const NEW_NODE := Node(0, map[], map[], -1)

  datatype Store = Store(
    digestToConfig: map<string, Config>,
    digestToNode: map<string, string>,
    nodes: map<string, Node>,
    dangling: map<string, Config>,
    idToDigest: map<string, string>)

  const EMPTY_STORE := Store(map[], map[], map[], map[], map[])

  // ---- the atomic operations ----

  function WithNode(s: Store, name: string): map<string, Node> {
    if name in s.nodes then s.nodes else s.nodes[name := NEW_NODE]
  }

  function AddTo(n: Node, c: Config): Node {
    n.(configs := n.configs[c.digest := c])
  }

  function TakeFrom(nodes: map<string, Node>, name: string, digest: string): map<string, Node> {
    if name in nodes then nodes[name := nodes[name].(configs := nodes[name].configs - {digest})] else nodes
  }

  /** digestToNode[digest], which is "" for an unknown digest. */
  function NodeOf(s: Store, digest: string): string {
    if digest in s.digestToNode then s.digestToNode[digest] else ""
  }

  function Register(s: Store, c: Config): Store {
    s.(digestToConfig := s.digestToConfig[c.digest := c],
       idToDigest := s.idToDigest + (map id | id in c.ids :: c.digest))
  }

  /** The registered configuration goes to the target node and leaves the node that had it. */
  function Place(s: Store, c: Config, target: string): Store {
    var current := NodeOf(s, c.digest);
    var nodes := WithNode(s, target)[target := AddTo(WithNode(s, target)[target], c)];
    s.(digestToNode := s.digestToNode[c.digest := target],
       nodes := if current in s.nodes && current != target then TakeFrom(nodes, current, c.digest) else nodes)
  }

  function AddConfig(s: Store, c: Config, target: string): Store {
    var r := Register(s, c);
    if target == "" then r.(dangling := r.dangling[c.digest := c]) else Place(r, c, target)
  }

  function RemoveConfig(s: Store, digest: string): Store {
    Store(s.digestToConfig - {digest},
          s.digestToNode - {digest},
          TakeFrom(s.nodes, NodeOf(s, digest), digest),
          s.dangling - {digest},
          map id | id in s.idToDigest && s.idToDigest[id] != digest :: s.idToDigest[id])
  }

  function Expired(s: Store, cutoff: int): set<string> {
    set n | n in s.nodes && s.nodes[n].heartbeat < cutoff
  }

  /** The configurations of the nodes in gone, by digest. */
  function Orphans(s: Store, gone: set<string>): map<string, Config> {
    map d | d in s.digestToNode && s.digestToNode[d] in gone && s.digestToNode[d] in s.nodes
            && d in s.nodes[s.digestToNode[d]].configs :: s.nodes[s.digestToNode[d]].configs[d]
  }

  /** The store once the nodes in gone are removed and their configurations dangle. */
  function Drop(s: Store, gone: set<string>): Store {
    s.(digestToNode := s.digestToNode - Orphans(s, gone).Keys,
       nodes := s.nodes - gone,
       dangling := s.dangling + Orphans(s, gone))
  }

  function ExpireNodes(s: Store, cutoff: int): Store {
    Drop(s, Expired(s, cutoff))
  }

  function ProcessStatus(s: Store, name: string, now: int): Store {
    s.(nodes := WithNode(s, name)[name := WithNode(s, name)[name].(heartbeat := now)])
  }

  // ---- what every operation keeps ----

  /** digestToNode is the exact inverse of the nodes' configuration maps. */
  predicate Inverse(s: Store) {
    && (forall d :: d in s.digestToNode ==>
          s.digestToNode[d] != "" && s.digestToNode[d] in s.nodes && d in s.nodes[s.digestToNode[d]].configs)
    && (forall n, d :: n in s.nodes && d in s.nodes[n].configs ==> d in s.digestToNode && s.digestToNode[d] == n)
  }

  /** Only registered configurations are dispatched, dangling or linked to check identifiers. */
  predicate Registered(s: Store) {
    && s.digestToNode.Keys <= s.digestToConfig.Keys
    && s.dangling.Keys <= s.digestToConfig.Keys
    && (forall id :: id in s.idToDigest ==> s.idToDigest[id] in s.digestToConfig)
  }

  /** Configurations are stored under their own digest, which is never empty. */
  predicate Keyed(s: Store) {
    && (forall d :: d in s.digestToConfig ==> d != "" && s.digestToConfig[d].digest == d)
    && (forall d :: d in s.dangling ==> s.dangling[d].digest == d)
    && (forall n, d :: n in s.nodes && d in s.nodes[n].configs ==> s.nodes[n].configs[d].digest == d)
  }

  predicate Inv(s: Store) {
    Inverse(s) && Registered(s) && Keyed(s)
  }

  lemma RegisterInv(s: Store, c: Config)
    requires Inv(s) && c.digest != ""
    ensures Inv(Register(s, c))
  {
  }

  /** Where each configuration is after placing one. */
  lemma PlaceHolds(s: Store, c: Config, target: string, n: string, d: string)
    requires Inverse(s)
    ensures var t := Place(s, c, target);
            && (n in t.nodes <==> n in s.nodes || n == target)
            && (n in t.nodes ==> (d in t.nodes[n].configs <==>
                  if d == c.digest then n == target else n in s.nodes && d in s.nodes[n].configs))
            && (n in t.nodes && d in t.nodes[n].configs ==>
                  t.nodes[n].configs[d] == c || (n in s.nodes && d in s.nodes[n].configs
                                                 && t.nodes[n].configs[d] == s.nodes[n].configs[d]))
  {
  }

  lemma PlaceInverse(s: Store, c: Config, target: string)
    requires Inverse(s) && target != ""
    ensures Inverse(Place(s, c, target))
  {
    var t := Place(s, c, target);
    forall d | d in t.digestToNode
      ensures t.digestToNode[d] != "" && t.digestToNode[d] in t.nodes && d in t.nodes[t.digestToNode[d]].configs
    {
      PlaceHolds(s, c, target, t.digestToNode[d], d);
    }
    forall n, d | n in t.nodes && d in t.nodes[n].configs
      ensures d in t.digestToNode && t.digestToNode[d] == n
    {
      PlaceHolds(s, c, target, n, d);
    }
  }

  lemma PlaceKeyed(s: Store, c: Config, target: string)
    requires Inverse(s) && Keyed(s) && c.digest in s.digestToConfig
    ensures Keyed(Place(s, c, target))
  {
    var t := Place(s, c, target);
    forall n, d | n in t.nodes && d in t.nodes[n].configs
      ensures t.nodes[n].configs[d].digest == d
    {
      PlaceHolds(s, c, target, n, d);
    }
  }

  /** What a scheduled configuration adds to the key sets: it is registered, and dangling or on the target. */
  lemma AddConfigKeys(s: Store, c: Config, target: string)
    ensures AddedKeys(s, c, target, AddConfig(s, c, target))
  {
  }

  predicate AddedKeys(s: Store, c: Config, target: string, t: Store) {
    && t.digestToConfig.Keys == s.digestToConfig.Keys + {c.digest}
    && t.digestToNode == (if target == "" then s.digestToNode else s.digestToNode[c.digest := target])
    && t.dangling == (if target == "" then s.dangling[c.digest := c] else s.dangling)
  }

  /** Scheduling keeps the invariant. */
  lemma AddConfigInv(s: Store, c: Config, target: string)
    requires Inv(s) && c.digest != ""
    ensures Inv(AddConfig(s, c, target))
    ensures AddedKeys(s, c, target, AddConfig(s, c, target))
  {
    var r := Register(s, c);
    RegisterInv(s, c);
    AddConfigKeys(s, c, target);
    if target == "" {
    } else {
      PlaceInverse(r, c, target);
      PlaceKeyed(r, c, target);
      PlaceRegistered(r, c, target);
    }
  }

  lemma PlaceRegistered(s: Store, c: Config, target: string)
    requires Registered(s) && c.digest in s.digestToConfig
    ensures Registered(Place(s, c, target))
  {
  }

  /** Exactly this configuration is registered and linked from its check identifiers, and dangles without a target. */
  lemma AddConfigExact(s: Store, c: Config, target: string, id: string)
    ensures var t := AddConfig(s, c, target);
            && t.digestToConfig == s.digestToConfig[c.digest := c]
            && (id in t.idToDigest <==> id in s.idToDigest || id in c.ids)
            && (id in t.idToDigest ==> t.idToDigest[id] == if id in c.ids then c.digest else s.idToDigest[id])
            && (target == "" ==> t.nodes == s.nodes && t.dangling == s.dangling[c.digest := c])
            && (target != "" ==> t.dangling == s.dangling)
  {
  }

  /** With a target it is stored there, and no entry of another configuration changes on any node. */
  lemma AddConfigNodes(s: Store, c: Config, target: string, n: string, d: string)
    requires target != ""
    ensures var t := AddConfig(s, c, target);
            && target in t.nodes && c.digest in t.nodes[target].configs && t.nodes[target].configs[c.digest] == c
            && (d != c.digest && n in s.nodes ==> n in t.nodes && SameEntry(s.nodes[n], t.nodes[n], d))
  {
    PlaceExact(Register(s, c), c, target, n, d);
  }

  predicate SameEntry(a: Node, b: Node, d: string) {
    if d in a.configs then d in b.configs && b.configs[d] == a.configs[d] else d !in b.configs
  }

  lemma PlaceExact(s: Store, c: Config, target: string, n: string, d: string)
    ensures var t := Place(s, c, target);
            && target in t.nodes && c.digest in t.nodes[target].configs && t.nodes[target].configs[c.digest] == c
            && (d != c.digest && n in s.nodes ==> n in t.nodes && SameEntry(s.nodes[n], t.nodes[n], d))
  {
  }

  /** Exactly this configuration is removed, with every trace of it. */
  lemma RemoveConfigExact(s: Store, digest: string, n: string, d: string)
    requires Inv(s)
    ensures var t := RemoveConfig(s, digest);
            && digest !in t.digestToConfig && digest !in t.digestToNode && digest !in t.dangling
            && (forall id :: id in t.idToDigest <==> id in s.idToDigest && s.idToDigest[id] != digest)
            && (n in t.nodes <==> n in s.nodes)
            && (n in s.nodes ==> (d in t.nodes[n].configs <==> d in s.nodes[n].configs && d != digest))
            && (n in s.nodes && d in t.nodes[n].configs ==> t.nodes[n].configs[d] == s.nodes[n].configs[d])
            && (d != digest ==> (d in t.digestToConfig <==> d in s.digestToConfig)
                                && (d in s.digestToConfig ==> t.digestToConfig[d] == s.digestToConfig[d])
                                && (d in t.dangling <==> d in s.dangling)
                                && (d in s.dangling ==> t.dangling[d] == s.dangling[d]))
  {
    assert digest in s.digestToNode || (n in s.nodes ==> digest !in s.nodes[n].configs);
  }

  lemma RemoveConfigInv(s: Store, digest: string)
    requires Inv(s)
    ensures Inv(RemoveConfig(s, digest))
  {
  }

  lemma ExpireNodesInv(s: Store, cutoff: int)
    requires Inv(s)
    ensures Inv(ExpireNodes(s, cutoff))
  {
  }

  lemma ProcessStatusInv(s: Store, name: string, now: int)
    requires Inv(s)
    ensures Inv(ProcessStatus(s, name, now))
  {
  }

  // ---- runs ----

  /** A configuration moveCheck has read, and the digest it is about to remove. */
  datatype Move = Move(digest: string, config: Config)

  /** The store, the configurations taken out of it for re-dispatch, the moves in progress, and the
      digests scheduled and not unscheduled since. */
  datatype System = System(store: Store, pending: seq<Config>, moving: seq<Move>, wanted: set<string>)

  const START := System(EMPTY_STORE, [], [], {})

  datatype Step =
    | Schedule(c: Config, target: string)     // add: the target was chosen in an earlier step
    | Unschedule(digest: string)
    | Status(name: string, now: int)
    | Expire(cutoff: int)
    | TakeDangling                            // retrieveAndClearDangling
    | Redispatch(i: nat, target: string)      // reschedule one taken configuration, or finish a move
    | MoveRead(id: string)                    // getConfigAndDigest
    | MoveRemove(i: nat)                      // removeConfig of a move
    | Collect(name: string, stats: map<string, Stats>)
    | Reset

  function Without<T>(s: seq<T>, i: nat): seq<T>
    requires i < |s|
  {
    s[..i] + s[i + 1..]
  }

  /** A listing of the values of a map, in some order (makeConfigArray). */
  ghost function Listing(m: map<string, Config>): (r: seq<Config>)
    ensures forall c :: c in r <==> exists d :: d in m && m[d] == c
    decreases |m|
  {
    if m == map[] then []
    else
      var d :| d in m;
      assert |m - {d}| < |m| by {
        assert m.Keys == (m - {d}).Keys + {d};
      }
      [m[d]] + Listing(m - {d})
  }

  function ReadMove(s: Store, id: string): Move {
    var digest := if id in s.idToDigest then s.idToDigest[id] else "";
    Move(digest, if digest in s.digestToConfig then s.digestToConfig[digest] else ZERO_CONFIG)
  }

  ghost function Next(x: System, step: Step): System {
    match step
    case Schedule(c, target) => x.(store := AddConfig(x.store, c, target), wanted := x.wanted + {c.digest})
    case Unschedule(d) => x.(store := RemoveConfig(x.store, d), wanted := x.wanted - {d})
    case Status(name, now) => x.(store := ProcessStatus(x.store, name, now))
    case Expire(cutoff) => x.(store := ExpireNodes(x.store, cutoff))
    case TakeDangling =>
      x.(store := x.store.(dangling := map[]), pending := x.pending + Listing(x.store.dangling))
    case Redispatch(i, target) =>
      if i >= |x.pending| then x
      else x.(store := AddConfig(x.store, x.pending[i], target), pending := Without(x.pending, i))
    case MoveRead(id) => x.(moving := x.moving + [ReadMove(x.store, id)])
    case MoveRemove(i) =>
      if i >= |x.moving| then x
      else
        var m := x.moving[i];
        x.(store := RemoveConfig(x.store, m.digest), moving := Without(x.moving, i), pending := x.pending + [m.config])
    case Collect(name, stats) =>
      if name !in x.store.nodes then x
      else x.(store := x.store.(nodes := x.store.nodes[name := x.store.nodes[name].(stats := stats)]))
    case Reset => x.(store := EMPTY_STORE, wanted := {})
  }

  ghost predicate InFlight(pending: seq<Config>, d: string) {
    exists c :: c in pending && c.digest == d
  }

  /** Every registered configuration is on a node, dangling, or taken for re-dispatch. */
  ghost predicate Placed(x: System) {
    forall d :: d in x.store.digestToConfig ==>
      d in x.store.digestToNode || d in x.store.dangling || InFlight(x.pending, d)
  }

  /** Every wanted configuration is registered or on its way back in. */
  ghost predicate Kept(x: System) {
    forall d :: d in x.wanted ==> d in x.store.digestToConfig || InFlight(x.pending, d)
  }

  ghost predicate MovesKeyed(moving: seq<Move>) {
    forall m :: m in moving ==> m.config.digest != "" && (m.digest == "" || m.config.digest == m.digest)
  }

  ghost predicate SystemInv(x: System) {
    && Inv(x.store) && Placed(x) && Kept(x) && MovesKeyed(x.moving)
    && (forall c :: c in x.pending ==> c.digest != "")
    && "" !in x.wanted
  }

  /** Digests are hashes and never empty. */
  predicate Hashed(step: Step) {
    step.Schedule? ==> step.c.digest != ""
  }

  lemma InFlightGrows(p: seq<Config>, more: seq<Config>, d: string)
    ensures InFlight(p, d) ==> InFlight(p + more, d)
    ensures InFlight(more, d) ==> InFlight(p + more, d)
  {
    if InFlight(p, d) {
      var c :| c in p && c.digest == d;
      assert c in p + more;
    }
    if InFlight(more, d) {
      var c :| c in more && c.digest == d;
      assert c in p + more;
    }
  }

  lemma InFlightWithout(p: seq<Config>, i: nat, d: string)
    requires i < |p| && InFlight(p, d)
    ensures d == p[i].digest || InFlight(Without(p, i), d)
  {
    var c :| c in p && c.digest == d;
    assert c == p[i] || c in Without(p, i);
  }

  lemma ListingInFlight(m: map<string, Config>, p: seq<Config>, d: string)
    requires d in m && m[d].digest == d
    ensures InFlight(p + Listing(m), d)
  {
    assert m[d] in Listing(m);
    assert m[d] in p + Listing(m);
  }

  lemma TakeDanglingInv(x: System)
    requires SystemInv(x)
    ensures SystemInv(Next(x, TakeDangling))
  {
    var m := x.store.dangling;
    forall d | d in m
      ensures InFlight(x.pending + Listing(m), d)
    {
      ListingInFlight(m, x.pending, d);
    }
    forall d | InFlight(x.pending, d)
      ensures InFlight(x.pending + Listing(m), d)
    {
      InFlightGrows(x.pending, Listing(m), d);
    }
    forall c | c in x.pending + Listing(m)
      ensures c.digest != ""
    {
      if c !in x.pending {
        assert c in Listing(m);
        var d :| d in m && m[d] == c;
        assert d in x.store.digestToConfig;
      }
    }
  }

  lemma RedispatchInv(x: System, i: nat, target: string)
    requires SystemInv(x)
    ensures SystemInv(Next(x, Redispatch(i, target)))
  {
    if i < |x.pending| {
      var c := x.pending[i];
      assert c in x.pending;
      AddConfigInv(x.store, c, target);
      forall d | InFlight(x.pending, d)
        ensures d == c.digest || InFlight(Without(x.pending, i), d)
      {
        InFlightWithout(x.pending, i, d);
      }
    }
  }

  lemma MoveRemoveInv(x: System, i: nat)
    requires SystemInv(x)
    ensures SystemInv(Next(x, MoveRemove(i)))
  {
    if i < |x.moving| {
      var m := x.moving[i];
      assert m in x.moving;
      RemoveConfigInv(x.store, m.digest);
      forall d
        ensures InFlight(x.pending, d) ==> InFlight(x.pending + [m.config], d)
        ensures m.config.digest == d ==> InFlight(x.pending + [m.config], d)
      {
        InFlightGrows(x.pending, [m.config], d);
        assert m.config in [m.config];
      }
    }
  }

  /** What every step keeps. */
  lemma NextInv(x: System, step: Step)
    requires SystemInv(x) && Hashed(step)
    ensures SystemInv(Next(x, step))
  {
    match step
    case Schedule(c, target) => AddConfigInv(x.store, c, target);
    case Unschedule(d) => RemoveConfigInv(x.store, d);
    case Status(name, now) => ProcessStatusInv(x.store, name, now);
    case Expire(cutoff) => ExpireNodesInv(x.store, cutoff);
    case TakeDangling => TakeDanglingInv(x);
    case Redispatch(i, target) => RedispatchInv(x, i, target);
    case MoveRead(id) =>
    case MoveRemove(i) => MoveRemoveInv(x, i);
    case Collect(name, stats) =>
    case Reset =>
  }

  ghost function Run(steps: seq<Step>): (x: System)
    requires forall i :: 0 <= i < |steps| ==> Hashed(steps[i])
    ensures SystemInv(x)
  {
    if steps == [] then START
    else
      var x := Run(steps[..|steps| - 1]);
      NextInv(x, steps[|steps| - 1]);
      Next(x, steps[|steps| - 1])
  }

  ghost predicate OnOneNode(s: Store) {
    forall m, n, d :: m in s.nodes && n in s.nodes && d in s.nodes[m].configs && d in s.nodes[n].configs ==> m == n
  }

  lemma Settled(x: System)
    requires SystemInv(x)
    ensures OnOneNode(x.store)
    ensures x.pending == [] ==>
              && x.wanted <= x.store.digestToConfig.Keys
              && x.store.digestToConfig.Keys == x.store.digestToNode.Keys + x.store.dangling.Keys
  {
    var s := x.store;
    forall m, n, d | m in s.nodes && n in s.nodes && d in s.nodes[m].configs && d in s.nodes[n].configs
      ensures m == n
    {
      assert s.digestToNode[d] == m && s.digestToNode[d] == n;
    }
  }

  /** In every interleaving no configuration is on two nodes and none is lost; when nothing is in flight, the
      scheduled ones are registered and the registered ones are exactly those on a node or dangling. */
  lemma NothingLost(steps: seq<Step>)
    requires forall i :: 0 <= i < |steps| ==> Hashed(steps[i])
    ensures var x := Run(steps);
            && OnOneNode(x.store)
            && (x.pending == [] ==>
                  && x.wanted <= x.store.digestToConfig.Keys
                  && x.store.digestToConfig.Keys == x.store.digestToNode.Keys + x.store.dangling.Keys)
  {
    Settled(Run(steps));
  }

  // ---- the object ----

  lemma OrphansOneMore(s: Store, gone: set<string>, name: string)
    requires Inverse(s) && name in s.nodes && name !in gone
    ensures Orphans(s, gone + {name}) == Orphans(s, gone) + s.nodes[name].configs
  {
    var a, b := Orphans(s, gone + {name}), Orphans(s, gone) + s.nodes[name].configs;
    forall d
      ensures d in a <==> d in b
      ensures d in a ==> a[d] == b[d]
    {
      assert d in s.nodes[name].configs ==> s.digestToNode[d] == name;
    }
  }

  lemma DropOneMore(s: Store, gone: set<string>, name: string)
    requires Inverse(s) && name in s.nodes && name !in gone
    ensures var p := Drop(s, gone);
            Drop(s, gone + {name}) ==
            p.(digestToNode := p.digestToNode - s.nodes[name].configs.Keys,
               nodes := p.nodes - {name},
               dangling := p.dangling + s.nodes[name].configs)
  {
    OrphansOneMore(s, gone, name);
    var o, c := Orphans(s, gone), s.nodes[name].configs;
    MinusTwice(s.digestToNode, o.Keys, c.Keys);
    MinusTwice(s.nodes, gone, {name});
    PlusTwice(s.dangling, o, c);
  }

  /** The least busyness and the least count over the named nodes already visited, or -1. */
  ghost predicate GroupLeast(s: Store, advanced: bool, left: set<string>, minBusyness: int, minCount: int) {
    && (forall n :: n in s.nodes && n !in left && n != "" && ByBusyness(s, advanced, n) ==>
          0 <= minBusyness <= s.nodes[n].busyness)
    && (forall n :: n in s.nodes && n !in left && n != "" && !ByBusyness(s, advanced, n) ==>
          0 <= minCount <= |s.nodes[n].configs|)
  }

  ghost predicate AllPlaced(s: Store) {
    forall d :: d in s.digestToConfig ==> d in s.digestToNode || d in s.dangling
  }

  /** The same nodes, alive since the same time, with the same statistics. */
  predicate SameNodes(s: Store, t: Store) {
    && t.nodes.Keys == s.nodes.Keys
    && forall n :: n in s.nodes ==> t.nodes[n].heartbeat == s.nodes[n].heartbeat && t.nodes[n].stats == s.nodes[n].stats
  }

  /** Dispatching to an existing node, or to none, changes no node but its configurations. */
  lemma AddKeepsNodes(s: Store, c: Config, target: string)
    requires target == "" || target in s.nodes
    ensures SameNodes(s, AddConfig(s, c, target))
  {
    var t := AddConfig(s, c, target);
    forall n
      ensures n in t.nodes <==> n in s.nodes
      ensures n in s.nodes ==> t.nodes[n].heartbeat == s.nodes[n].heartbeat && t.nodes[n].stats == s.nodes[n].stats
    {
      if target != "" {
        PlaceKeepsNode(Register(s, c), c, target, n);
      }
    }
  }

  lemma PlaceKeepsNode(s: Store, c: Config, target: string, n: string)
    requires target in s.nodes
    ensures var t := Place(s, c, target);
            && (n in t.nodes <==> n in s.nodes)
            && (n in s.nodes ==> t.nodes[n].heartbeat == s.nodes[n].heartbeat && t.nodes[n].stats == s.nodes[n].stats)
  {
  }

  /** Links the check identifiers of a configuration to its digest. */
  method LinkIds(m: map<string, string>, ids: seq<string>, digest: string) returns (r: map<string, string>)
    ensures r == m + (map id | id in ids :: digest)
  {
    r := m;
    for i := 0 to |ids|
      invariant r == m + (map id | id in ids[..i] :: digest)
    {
      assert ids[..i + 1] == ids[..i] + [ids[i]];
      r := r[ids[i] := digest];
    }
    assert ids[..|ids|] == ids;
  }

  ghost predicate HasNamed(s: Store) {
    exists n :: n in s.nodes && n != ""
  }

  /** What re-dispatching these configurations makes of s. */
  ghost predicate Rescheduled(s: Store, configs: seq<Config>, t: Store) {
    && SameNodes(s, t)
    && t.digestToConfig.Keys == s.digestToConfig.Keys
    && s.digestToNode.Keys <= t.digestToNode.Keys && s.dangling.Keys <= t.dangling.Keys
    && (forall c :: c in configs ==> c.digest in t.digestToNode || c.digest in t.dangling)
    && (HasNamed(s) ==> t.dangling == s.dangling)
  }

  lemma RescheduleOne(s0: Store, done: seq<Config>, s: Store, c: Config, target: string, t: Store)
    requires Rescheduled(s0, done, s) && c.digest in s0.digestToConfig
    requires if target == "" then s.nodes.Keys <= {""} else target in s.nodes
    requires AddedKeys(s, c, target, t) && SameNodes(s, t)
    ensures Rescheduled(s0, done + [c], t)
  {
    if HasNamed(s0) {
      var n :| n in s0.nodes && n != "";
      assert n in s.nodes;
    }
  }

  lemma AllPlacedAgain(s: Store, configs: seq<Config>, t: Store)
    requires Inv(s) && AllPlaced(s) && Rescheduled(s.(dangling := map[]), configs, t)
    requires forall c :: c in configs <==> exists d :: d in s.dangling && s.dangling[d] == c
    ensures AllPlaced(t)
  {
    forall d | d in t.digestToConfig
      ensures d in t.digestToNode || d in t.dangling
    {
      if d !in s.digestToNode {
        assert s.dangling[d] in configs;
      }
    }
  }

  // ---- choosing a node ----

  ghost predicate ByBusyness(s: Store, advanced: bool, n: string)
    requires n in s.nodes
  {
    advanced && s.nodes[n].busyness > -1
  }

  /** A named node with the least busyness of those that report it, or the fewest configurations of the rest;
      none only if there is no named node. */
  ghost predicate LeastBusy(s: Store, advanced: bool, r: string) {
    && (r == "" ==> s.nodes.Keys <= {""})
    && (r != "" ==> r in s.nodes)
    && (r != "" ==> forall n :: n in s.nodes && n != "" && (ByBusyness(s, advanced, n) <==> ByBusyness(s, advanced, r)) ==>
          if ByBusyness(s, advanced, r) then s.nodes[r].busyness <= s.nodes[n].busyness
          else |s.nodes[r].configs| <= |s.nodes[n].configs|)
  }

  /** getLeastBusyNode: the nodes are visited in any order. */
  method GetLeastBusyNode(s: Store, advanced: bool) returns (leastBusyNode: string)
    ensures LeastBusy(s, advanced, leastBusyNode)
  {
    leastBusyNode := "";
    var minCheckCount, minBusyness := -1, -1;
    var left := s.nodes.Keys;
    while left != {}
      invariant left <= s.nodes.Keys && minCheckCount >= -1 && minBusyness >= -1
      invariant leastBusyNode == "" ==> minCheckCount == -1 == minBusyness
      invariant leastBusyNode != "" ==> leastBusyNode in s.nodes
      invariant GroupLeast(s, advanced, left, minBusyness, minCheckCount)
      invariant leastBusyNode != "" ==>
                  if ByBusyness(s, advanced, leastBusyNode) then minBusyness == s.nodes[leastBusyNode].busyness
                  else minCheckCount == |s.nodes[leastBusyNode].configs|
      decreases |left|
    {
      var name :| name in left;
      left := left - {name};
      if name == "" {
        continue;
      }
      var node := s.nodes[name];
      if advanced && node.busyness > -1 {
        if minBusyness == -1 || node.busyness < minBusyness {
          leastBusyNode := name;
          minBusyness := node.busyness;
        }
      } else {
        if minCheckCount == -1 || |node.configs| < minCheckCount {
          leastBusyNode := name;
          minCheckCount := |node.configs|;
        }
      }
    }
  }

  /** Configuration counts of named nodes differ by at most one. */
  ghost predicate Balanced(s: Store) {
    forall m, n :: m in s.nodes && n in s.nodes && m != "" && n != "" ==>
      |s.nodes[m].configs| <= |s.nodes[n].configs| + 1
  }

  /** Counts after a fresh configuration went to an existing node. */
  lemma FreshAddCounts(s: Store, c: Config, target: string, n: string)
    requires Inv(s) && c.digest !in s.digestToNode && target in s.nodes && target != ""
    ensures var t := AddConfig(s, c, target);
            t.nodes.Keys == s.nodes.Keys
            && (n in s.nodes ==> |t.nodes[n].configs| == |s.nodes[n].configs| + if n == target then 1 else 0)
  {
    var t := AddConfig(s, c, target);
    assert forall m :: m in s.nodes ==> c.digest !in s.nodes[m].configs;
    if n in s.nodes && n != target {
      assert t.nodes[n].configs == s.nodes[n].configs;
    }
  }

  lemma FreshAddBalanced(s: Store, c: Config, target: string)
    requires Inv(s) && Balanced(s) && c.digest !in s.digestToNode && LeastBusy(s, false, target)
    ensures Balanced(AddConfig(s, c, target))
  {
    if target != "" {
      forall n
        ensures var t := AddConfig(s, c, target);
                t.nodes.Keys == s.nodes.Keys
                && (n in s.nodes ==> |t.nodes[n].configs| == |s.nodes[n].configs| + if n == target then 1 else 0)
      {
        FreshAddCounts(s, c, target, n);
      }
    }
  }

  /** Fresh configurations added one after the other, each to a least busy node by count. */
  ghost predicate FreshAdds(s: Store, adds: seq<(Config, string)>)
    decreases |adds|
  {
    adds == [] ||
    (var (c, target) := adds[0];
     && c.digest != "" && c.digest !in s.digestToNode && LeastBusy(s, false, target)
     && FreshAdds(AddConfig(s, c, target), adds[1..]))
  }

  ghost function AddAll(s: Store, adds: seq<(Config, string)>): Store
    decreases |adds|
  {
    if adds == [] then s else AddAll(AddConfig(s, adds[0].0, adds[0].1), adds[1..])
  }

  /** Count-based dispatching keeps the nodes balanced. */
  lemma {:induction false} FreshAddsBalanced(s: Store, adds: seq<(Config, string)>)
    requires Inv(s) && Balanced(s) && FreshAdds(s, adds)
    ensures Inv(AddAll(s, adds)) && Balanced(AddAll(s, adds))
    decreases |adds|
  {
    if adds != [] {
      var (c, target) := adds[0];
      AddConfigInv(s, c, target);
      FreshAddBalanced(s, c, target);
      FreshAddsBalanced(AddConfig(s, c, target), adds[1..]);
    }
  }

  /** The loop of expireNodes: the nodes are visited in any order. */
  method ExpireEach(s: Store, cutoff: int) returns (r: Store)
    requires Inverse(s)
    ensures r == ExpireNodes(s, cutoff)
  {
    r := s;
    var left := s.nodes.Keys;
    ghost var gone: set<string> := {};
    DropNone(s);
    while left != {}
      invariant left <= s.nodes.Keys && gone <= s.nodes.Keys - left
      invariant forall n :: n in s.nodes && n !in left ==> (n in gone <==> s.nodes[n].heartbeat < cutoff)
      invariant r == Drop(s, gone)
      decreases |left|
    {
      var name :| name in left;
      left := left - {name};
      if r.nodes[name].heartbeat < cutoff {
        r := ExpireOne(s, gone, r, name);
        gone := gone + {name};
      }
    }
    assert gone == Expired(s, cutoff);
  }

  method ExpireOne(ghost s: Store, ghost gone: set<string>, r: Store, name: string) returns (t: Store)
    requires Inverse(s) && name in s.nodes && name !in gone && name in r.nodes && r == Drop(s, gone)
    ensures t == Drop(s, gone + {name})
  {
    var node := r.nodes[name];
    DropOneMore(s, gone, name);
    t := r.(digestToNode := r.digestToNode - node.configs.Keys,
            dangling := r.dangling + node.configs,
            nodes := r.nodes - {name});
  }

  lemma DropNone(s: Store)
    ensures Drop(s, {}) == s
  {
    assert Orphans(s, {}) == map[];
    assert s.digestToNode - {} == s.digestToNode && s.nodes - {} == s.nodes && s.dangling + map[] == s.dangling;
  }

  class ClusterDispatcher {
    var store: Store
    const advancedDispatching: bool

    constructor (advanced: bool)
      ensures store == EMPTY_STORE && advancedDispatching == advanced
    {
      store := EMPTY_STORE;
      advancedDispatching := advanced;
    }

    method DoAddConfig(config: Config, targetNodeName: string)
      modifies this
      ensures store == AddConfig(old(store), config, targetNodeName)
    {
      var digest := config.digest;
      store := store.(digestToConfig := store.digestToConfig[digest := config]);
      var linked := LinkIds(store.idToDigest, config.ids, digest);
      store := store.(idToDigest := linked);
      if targetNodeName == "" {
        store := store.(dangling := store.dangling[digest := config]);
        return;
      }
      var current := NodeOf(store, digest);
      var foundCurrent := current in store.nodes;
      var nodes := WithNode(store, targetNodeName);
      nodes := nodes[targetNodeName := AddTo(nodes[targetNodeName], config)];
      store := store.(digestToNode := store.digestToNode[digest := targetNodeName]);
      if foundCurrent && current != targetNodeName {
        nodes := TakeFrom(nodes, current, digest);
      }
      store := store.(nodes := nodes);
    }

    method DoRemoveConfig(digest: string)
      modifies this
      ensures store == RemoveConfig(old(store), digest)
    {
      var node := NodeOf(store, digest);
      store := store.(digestToNode := store.digestToNode - {digest});
      store := store.(digestToConfig := store.digestToConfig - {digest});
      store := store.(dangling := store.dangling - {digest});
      store := store.(idToDigest := map id | id in store.idToDigest && store.idToDigest[id] != digest
                                      :: store.idToDigest[id]);
      if node in store.nodes {
        store := store.(nodes := TakeFrom(store.nodes, node, digest));
      }
    }

    method DoExpireNodes(cutoff: int)
      requires Inv(store)
      modifies this
      ensures store == ExpireNodes(old(store), cutoff) && Inv(store)
    {
      ExpireNodesInv(store, cutoff);
      store := ExpireEach(store, cutoff);
    }

    method DoProcessNodeStatus(name: string, now: int)
      modifies this
      ensures store == ProcessStatus(old(store), name, now)
    {
      var nodes := WithNode(store, name);
      store := store.(nodes := nodes[name := nodes[name].(heartbeat := now)]);
    }

    /** add: choose a node, then dispatch to it or let the configuration dangle. */
    method DoAdd(config: Config) returns (ghost target: string)
      requires Inv(store) && config.digest != ""
      modifies this
      ensures LeastBusy(old(store), advancedDispatching, target)
      ensures store == AddConfig(old(store), config, target)
    {
      var node := GetLeastBusyNode(store, advancedDispatching);
      target := node;
      DoAddConfig(config, node);
    }

    /** reschedule: each configuration goes to a least busy node at that time. */
    method Reschedule(configs: seq<Config>)
      requires Inv(store)
      requires forall c :: c in configs ==> c.digest != "" && c.digest in store.digestToConfig
      modifies this
      ensures Rescheduled(old(store), configs, store) && Inv(store)
    {
      for i := 0 to |configs|
        invariant Rescheduled(old(store), configs[..i], store) && Inv(store)
      {
        assert configs[i] in configs;
        PrefixSnoc(configs, i);
        RescheduleNext(old(store), configs[..i], configs[i]);
      }
      assert configs[..|configs|] == configs;
    }

    method RescheduleNext(ghost s0: Store, ghost done: seq<Config>, config: Config)
      requires Rescheduled(s0, done, store) && Inv(store)
      requires config.digest != "" && config.digest in s0.digestToConfig
      modifies this
      ensures Rescheduled(s0, done + [config], store) && Inv(store)
    {
      ghost var s := store;
      ghost var target := DoAdd(config);
      AddConfigInv(s, config, target);
      AddKeepsNodes(s, config, target);
      RescheduleOne(s0, done, s, config, target, store);
    }

    method RedispatchDangling()
      requires Inv(store) && AllPlaced(store)
      modifies this
      ensures Inv(store) && AllPlaced(store)
      ensures store.digestToConfig.Keys == old(store).digestToConfig.Keys && SameNodes(old(store), store)
      ensures HasNamed(store) ==> store.dangling == map[]
    {
      ghost var s := store;
      var configs := RetrieveAndClearDangling();
      Reschedule(configs);
      AllPlacedAgain(s, configs, store);
    }

    /** The cleanup tick of run: expire nodes, then re-dispatch what dangles if any node is left. */
    method CleanupTick(cutoff: int)
      requires Inv(store) && AllPlaced(store)
      modifies this
      ensures Inv(store) && AllPlaced(store)
      ensures store.digestToConfig.Keys == old(store).digestToConfig.Keys
      ensures SameNodes(ExpireNodes(old(store), cutoff), store)
      ensures HasNamed(store) ==> store.dangling == map[]
    {
      DoExpireNodes(cutoff);
      if |store.dangling| == 0 || |store.nodes| == 0 {
        return;
      }
      RedispatchDangling();
    }

    /** retrieveAndClearDangling */
    method RetrieveAndClearDangling() returns (configs: seq<Config>)
      modifies this
      ensures store == old(store).(dangling := map[])
      ensures forall c :: c in configs <==> exists d :: d in old(store).dangling && old(store).dangling[d] == c
    {
      configs := [];
      var left := store.dangling;
      while left != map[]
        invariant left.Keys <= store.dangling.Keys
        invariant forall d :: d in left ==> left[d] == store.dangling[d]
        invariant forall c :: c in configs <==>
                    exists d :: d in store.dangling && d !in left && store.dangling[d] == c
        decreases |left.Keys|
      {
        var d :| d in left.Keys;
        configs := configs + [left[d]];
        left := left - {d};
      }
      store := store.(dangling := map[]);
    }
  }
}
