/**
 Whole runs of the cluster-check dispatcher: which configurations come back after they were unscheduled, which
 ones nobody scheduled, and when a configuration is on a node and dangling at once.
 */
module DispatcherRuns {
  import opened Dispatcher

  /** The steps from any state on. */
  ghost function RunFrom(x: System, steps: seq<Step>): System
    decreases |steps|
  {
    if steps == [] then x else RunFrom(Next(x, steps[0]), steps[1..])
  }

  lemma RunFromOne(x: System, a: Step, rest: seq<Step>)
    ensures RunFrom(x, [a] + rest) == RunFrom(Next(x, a), rest)
  {
    assert ([a] + rest)[1..] == rest;
  }

  predicate AllHashed(steps: seq<Step>) {
    forall i :: 0 <= i < |steps| ==> Hashed(steps[i])
  }

  lemma {:induction false} RunFromInv(x: System, steps: seq<Step>)
    requires SystemInv(x) && AllHashed(steps)
    ensures SystemInv(RunFrom(x, steps))
    decreases |steps|
  {
    if steps != [] {
      NextInv(x, steps[0]);
      RunFromInv(Next(x, steps[0]), steps[1..]);
    }
  }

  lemma {:induction false} RunFromConcat(x: System, first: seq<Step>, rest: seq<Step>)
    ensures RunFrom(x, first + rest) == RunFrom(RunFrom(x, first), rest)
    decreases |first|
  {
    if first == [] {
      assert first + rest == rest;
    } else {
      assert (first + rest)[1..] == first[1..] + rest;
      RunFromConcat(Next(x, first[0]), first[1..], rest);
    }
  }

  /** From the start these are the runs. */
  lemma {:induction false} RunIs(steps: seq<Step>)
    requires AllHashed(steps)
    ensures RunFrom(START, steps) == Run(steps)
    decreases |steps|
  {
    if steps != [] {
      var most, last := steps[..|steps| - 1], steps[|steps| - 1];
      RunIs(most);
      assert steps == most + [last];
      RunFromConcat(START, most, [last]);
      assert [last] == [last] + [];
      RunFromOne(Run(most), last, []);
    }
  }

  // ---- what stays out ----

  ghost predicate BeingMoved(moving: seq<Move>, d: string) {
    exists m :: m in moving && m.config.digest == d
  }

  /** Not registered, not taken for re-dispatch, and not read by a move in progress. */
  ghost predicate Out(x: System, d: string) {
    d !in x.store.digestToConfig && !InFlight(x.pending, d) && !BeingMoved(x.moving, d)
  }

  /** moveCheck reads a check that no configuration is linked to, and gets the zero configuration. */
  predicate ReadsUnlinked(x: System, step: Step) {
    step.MoveRead? && step.id !in x.store.idToDigest
  }

  predicate Schedules(step: Step, d: string) {
    step.Schedule? && step.c.digest == d
  }

  lemma TakenAreOut(x: System, d: string)
    requires SystemInv(x) && Out(x, d)
    ensures !InFlight(x.pending + Listing(x.store.dangling), d)
  {
    var m := x.store.dangling;
    forall c | c in x.pending + Listing(m)
      ensures c.digest != d
    {
      if c !in x.pending {
        assert c in Listing(m);
        var e :| e in m && m[e] == c;
        assert e in x.store.digestToConfig;
      }
    }
  }

  lemma RedispatchedStaysOut(x: System, i: nat, target: string, d: string)
    requires SystemInv(x) && Out(x, d)
    ensures Out(Next(x, Redispatch(i, target)), d)
  {
    if i < |x.pending| {
      assert x.pending[i] in x.pending;
      AddConfigKeys(x.store, x.pending[i], target);
      forall c | c in Without(x.pending, i)
        ensures c in x.pending
      {
      }
    }
  }

  lemma MoveReadStaysOut(x: System, id: string, d: string)
    requires SystemInv(x) && Out(x, d)
    requires d != ZERO_CONFIG.digest || id in x.store.idToDigest
    ensures Out(Next(x, MoveRead(id)), d)
  {
    var r := ReadMove(x.store, id);
    assert r.config.digest != d;
    forall m | m in x.moving + [r]
      ensures m.config.digest != d
    {
      assert m in x.moving || m == r;
    }
  }

  lemma MoveRemoveStaysOut(x: System, i: nat, d: string)
    requires SystemInv(x) && Out(x, d)
    ensures Out(Next(x, MoveRemove(i)), d)
  {
    if i < |x.moving| {
      assert x.moving[i] in x.moving;
      forall c | c in x.pending + [x.moving[i].config]
        ensures c.digest != d
      {
        assert c in x.pending || c == x.moving[i].config;
      }
      forall m | m in Without(x.moving, i)
        ensures m in x.moving
      {
      }
    }
  }

  /** What is out stays out, unless it is scheduled, or is the zero configuration and an unlinked check is moved. */
  lemma NextStaysOut(x: System, step: Step, d: string)
    requires SystemInv(x) && Out(x, d) && !Schedules(step, d)
    requires d != ZERO_CONFIG.digest || !ReadsUnlinked(x, step)
    ensures Out(Next(x, step), d)
  {
    match step
    case Schedule(c, target) => AddConfigKeys(x.store, c, target);
    case Unschedule(e) =>
    case Status(name, now) =>
    case Expire(cutoff) =>
    case TakeDangling => TakenAreOut(x, d);
    case Redispatch(i, target) => RedispatchedStaysOut(x, i, target, d);
    case MoveRead(id) => MoveReadStaysOut(x, id, d);
    case MoveRemove(i) => MoveRemoveStaysOut(x, i, d);
    case Collect(name, stats) =>
    case Reset =>
  }

  /** A continuation in which nobody schedules d. */
  predicate Quiet(steps: seq<Step>, d: string) {
    forall i :: 0 <= i < |steps| ==> Hashed(steps[i]) && !Schedules(steps[i], d)
  }

  lemma {:induction false} RunStaysOut(x: System, steps: seq<Step>, d: string)
    requires SystemInv(x) && Out(x, d) && Quiet(steps, d) && d != ZERO_CONFIG.digest
    ensures Out(RunFrom(x, steps), d)
    decreases |steps|
  {
    if steps != [] {
      NextInv(x, steps[0]);
      NextStaysOut(x, steps[0], d);
      RunStaysOut(Next(x, steps[0]), steps[1..], d);
    }
  }

  // ---- what comes back ----

  lemma RedispatchRegisters(x: System, i: nat, target: string)
    requires i < |x.pending|
    ensures x.pending[i].digest in Next(x, Redispatch(i, target)).store.digestToConfig
  {
    AddConfigKeys(x.store, x.pending[i], target);
  }

  /** The rest of a move that has read its configuration. */
  lemma MoveRegisters(x: System, i: nat, target: string)
    requires i < |x.moving|
    ensures var y := RunFrom(x, [MoveRemove(i), Redispatch(|x.pending|, target)]);
            x.moving[i].config.digest in y.store.digestToConfig && y.wanted == x.wanted
  {
    var y := Next(x, MoveRemove(i));
    RunFromTwo(x, MoveRemove(i), Redispatch(|x.pending|, target));
    RedispatchRegisters(y, |x.pending|, target);
  }

  lemma RunFromTwo(x: System, a: Step, b: Step)
    ensures RunFrom(x, [a, b]) == Next(Next(x, a), b)
  {
    assert [a, b] == [a] + [b] && [b] == [b] + [];
    RunFromOne(x, a, [b]);
    RunFromOne(Next(x, a), b, []);
  }

  /** A whole move of a check that no configuration is linked to registers the zero configuration, which nobody
      scheduled. */
  lemma PhantomComes(x: System, id: string, target: string)
    requires id !in x.store.idToDigest && "" !in x.store.digestToConfig
    ensures var y := RunFrom(x, [MoveRead(id), MoveRemove(|x.moving|), Redispatch(|x.pending|, target)]);
            ZERO_CONFIG.digest in y.store.digestToConfig && y.wanted == x.wanted
  {
    var rest := [MoveRemove(|x.moving|), Redispatch(|x.pending|, target)];
    assert [MoveRead(id), MoveRemove(|x.moving|), Redispatch(|x.pending|, target)] == [MoveRead(id)] + rest;
    RunFromOne(x, MoveRead(id), rest);
    MoveRegisters(Next(x, MoveRead(id)), |x.moving|, target);
  }

  /** Some string is no key of a map. */
  lemma UnlinkedId(m: map<string, string>) returns (id: string)
    ensures id !in m
  {
    var n := LongerThan(m.Keys);
    id := seq(n, _ => 'x');
  }

  lemma {:induction false} LongerThan(keys: set<string>) returns (n: nat)
    ensures forall k :: k in keys ==> |k| < n
    decreases |keys|
  {
    if keys == {} {
      n := 0;
    } else {
      var k :| k in keys;
      var m := LongerThan(keys - {k});
      n := m + |k| + 1;
      assert forall j :: j in keys ==> j == k || j in keys - {k};
    }
  }

  lemma ComesBack(x: System, d: string) returns (steps: seq<Step>)
    requires SystemInv(x)
    requires d == ZERO_CONFIG.digest || InFlight(x.pending, d) || BeingMoved(x.moving, d)
    ensures Quiet(steps, d) && d in RunFrom(x, steps).store.digestToConfig
  {
    if InFlight(x.pending, d) {
      var i :| 0 <= i < |x.pending| && x.pending[i].digest == d;
      steps := [Redispatch(i, "")];
      assert steps == [Redispatch(i, "")] + [];
      RunFromOne(x, Redispatch(i, ""), []);
      RedispatchRegisters(x, i, "");
    } else if BeingMoved(x.moving, d) {
      var i :| 0 <= i < |x.moving| && x.moving[i].config.digest == d;
      steps := [MoveRemove(i), Redispatch(|x.pending|, "")];
      MoveRegisters(x, i, "");
    } else {
      var id := UnlinkedId(x.store.idToDigest);
      steps := [MoveRead(id), MoveRemove(|x.moving|), Redispatch(|x.pending|, "")];
      PhantomComes(x, id, "");
    }
  }

  /** An unscheduled configuration stays out of every continuation that does not schedule it again if and only if
      no re-dispatch has taken it and no move has read it, and it is not the zero configuration. */
  lemma UnscheduledStaysOut(x: System, d: string)
    requires SystemInv(x)
    ensures (forall steps :: Quiet(steps, d) ==> d !in RunFrom(Next(x, Unschedule(d)), steps).store.digestToConfig)
       <==> (d != ZERO_CONFIG.digest && !InFlight(x.pending, d) && !BeingMoved(x.moving, d))
  {
    var y := Next(x, Unschedule(d));
    NextInv(x, Unschedule(d));
    if d != ZERO_CONFIG.digest && !InFlight(x.pending, d) && !BeingMoved(x.moving, d) {
      forall steps | Quiet(steps, d)
        ensures d !in RunFrom(y, steps).store.digestToConfig
      {
        RunStaysOut(y, steps, d);
      }
    } else {
      var steps := ComesBack(y, d);
      assert Quiet(steps, d) && d in RunFrom(y, steps).store.digestToConfig;
    }
  }

  lemma {:induction false} ListingOne(d: string, c: Config)
    ensures Listing(map[d := c]) == [c]
  {
    var m := map[d := c];
    assert m != map[] by {
      assert d in m;
    }
    assert m - {d} == map[];
    assert Listing(map[]) == [];
  }

  lemma TakenOne(c: Config)
    ensures RunFrom(START, [Schedule(c, ""), TakeDangling]).pending == [c]
  {
    RunFromTwo(START, Schedule(c, ""), TakeDangling);
    assert Next(START, Schedule(c, "")).store.dangling == map[c.digest := c];
    ListingOne(c.digest, c);
  }

  lemma BackFromPending(x: System, i: nat, target: string)
    requires i < |x.pending|
    ensures var y := RunFrom(x, [Unschedule(x.pending[i].digest), Redispatch(i, target)]);
            x.pending[i].digest in y.store.digestToConfig && x.pending[i].digest !in y.wanted
  {
    var u := Unschedule(x.pending[i].digest);
    RunFromTwo(x, u, Redispatch(i, target));
    RedispatchRegisters(Next(x, u), i, target);
  }

  /** A run in which a re-dispatch brings back what was unscheduled after it was taken. */
  lemma RedispatchBringsBack(c: Config, target: string)
    requires c.digest != ""
    ensures var steps := [Schedule(c, ""), TakeDangling] + [Unschedule(c.digest), Redispatch(0, target)];
            AllHashed(steps) && c.digest in Run(steps).store.digestToConfig && c.digest !in Run(steps).wanted
  {
    var first, rest := [Schedule(c, ""), TakeDangling], [Unschedule(c.digest), Redispatch(0, target)];
    RunIs(first + rest);
    RunFromConcat(START, first, rest);
    TakenOne(c);
    BackFromPending(RunFrom(START, first), 0, target);
  }

  lemma ReadOne(c: Config, id: string, node: string)
    requires id in c.ids
    ensures var x := RunFrom(START, [Schedule(c, node), MoveRead(id)]); x.moving == [Move(c.digest, c)] && x.pending == []
  {
    RunFromTwo(START, Schedule(c, node), MoveRead(id));
    RegisterLinks(c, id, node);
  }

  lemma RegisterLinks(c: Config, id: string, node: string)
    requires id in c.ids
    ensures ReadMove(AddConfig(EMPTY_STORE, c, node), id) == Move(c.digest, c)
  {
    var r := Register(EMPTY_STORE, c);
    assert r.idToDigest[id] == c.digest && r.digestToConfig[c.digest] == c;
  }

  lemma BackFromMove(x: System, target: string)
    requires |x.moving| == 1 && x.pending == []
    ensures var d := x.moving[0].config.digest;
            var y := RunFrom(x, [Unschedule(d)] + [MoveRemove(0), Redispatch(0, target)]);
            d in y.store.digestToConfig && d !in y.wanted
  {
    var u := Unschedule(x.moving[0].config.digest);
    RunFromOne(x, u, [MoveRemove(0), Redispatch(0, target)]);
    MoveRegisters(Next(x, u), 0, target);
  }

  /** A run in which a move brings back what was unscheduled after the move had read it. */
  lemma MoveBringsBack(c: Config, id: string, node: string, target: string)
    requires c.digest != "" && id in c.ids
    ensures var steps := [Schedule(c, node), MoveRead(id)] + ([Unschedule(c.digest)] + [MoveRemove(0), Redispatch(0, target)]);
            AllHashed(steps) && c.digest in Run(steps).store.digestToConfig && c.digest !in Run(steps).wanted
  {
    var first := [Schedule(c, node), MoveRead(id)];
    var rest := [Unschedule(c.digest)] + [MoveRemove(0), Redispatch(0, target)];
    RunIs(first + rest);
    RunFromConcat(START, first, rest);
    ReadOne(c, id, node);
    BackFromMove(RunFrom(START, first), target);
  }

  // ---- what nobody scheduled ----

  predicate WasScheduled(steps: seq<Step>, d: string) {
    exists i :: 0 <= i < |steps| && Schedules(steps[i], d)
  }

  /** Somewhere in the run a move read a check that no configuration was linked to. */
  ghost predicate SomeReadUnlinked(steps: seq<Step>)
    requires AllHashed(steps)
  {
    steps != [] &&
    (SomeReadUnlinked(steps[..|steps| - 1]) || ReadsUnlinked(Run(steps[..|steps| - 1]), steps[|steps| - 1]))
  }

  /** In every run, a registered configuration was scheduled, or is the zero configuration and some move read a
      check that no configuration was linked to. */
  lemma {:induction false} RegisteredWasScheduled(steps: seq<Step>, d: string)
    requires AllHashed(steps)
    ensures WasScheduled(steps, d) || (d == ZERO_CONFIG.digest && SomeReadUnlinked(steps)) || Out(Run(steps), d)
    decreases |steps|
  {
    if steps != [] && !WasScheduled(steps, d) && !(d == ZERO_CONFIG.digest && SomeReadUnlinked(steps)) {
      var most, last := steps[..|steps| - 1], steps[|steps| - 1];
      assert !Schedules(last, d) && forall i :: 0 <= i < |most| ==> most[i] == steps[i];
      RegisteredWasScheduled(most, d);
      NextStaysOut(Run(most), last, d);
    }
  }

  lemma UnscheduledLeavesNothing(c: Config, node: string)
    ensures var x := RunFrom(START, [Schedule(c, node), Unschedule(c.digest)]);
            x.store.idToDigest == map[] && x.store.digestToConfig == map[] && x.pending == [] && x.moving == []
            && x.wanted == {}
  {
    RunFromTwo(START, Schedule(c, node), Unschedule(c.digest));
    var r := Register(EMPTY_STORE, c);
    assert forall id :: id in r.idToDigest ==> r.idToDigest[id] == c.digest;
    assert r.digestToConfig == map[c.digest := c];
  }

  /** A run in which a check is unscheduled before its move reads it: a configuration nobody wants is registered. */
  lemma PhantomRun(c: Config, id: string, node: string, target: string)
    requires c.digest != ""
    ensures var steps := [Schedule(c, node), Unschedule(c.digest)] + [MoveRead(id), MoveRemove(0), Redispatch(0, target)];
            AllHashed(steps) && ZERO_CONFIG.digest in Run(steps).store.digestToConfig && Run(steps).wanted == {}
  {
    var first, rest := [Schedule(c, node), Unschedule(c.digest)], [MoveRead(id), MoveRemove(0), Redispatch(0, target)];
    RunIs(first + rest);
    RunFromConcat(START, first, rest);
    UnscheduledLeavesNothing(c, node);
    PhantomComes(RunFrom(START, first), id, target);
  }

  // ---- node expiry ----

  /** The time of the last status a node sent since it was last created, zero if it sent none. */
  ghost function LastStatus(steps: seq<Step>, n: string): int
    requires AllHashed(steps)
  {
    if steps == [] then 0
    else
      var most, last := steps[..|steps| - 1], steps[|steps| - 1];
      if last.Status? && last.name == n then last.now
      else if n in Run(most).store.nodes then LastStatus(most, n)
      else 0
  }

  /** One step changes the heartbeat of no node but one that sends its status; new nodes start at zero. */
  lemma NextHeartbeat(x: System, step: Step, n: string)
    requires SystemInv(x) && n in Next(x, step).store.nodes
    ensures Next(x, step).store.nodes[n].heartbeat
         == if step.Status? && step.name == n then step.now
            else if n in x.store.nodes then x.store.nodes[n].heartbeat else 0
  {
    match step
    case Schedule(c, target) => AddHeartbeat(x.store, c, target, n);
    case Redispatch(i, target) =>
      if i < |x.pending| {
        AddHeartbeat(x.store, x.pending[i], target, n);
      }
    case _ =>
  }

  lemma AddHeartbeat(s: Store, c: Config, target: string, n: string)
    requires n in AddConfig(s, c, target).nodes
    ensures AddConfig(s, c, target).nodes[n].heartbeat == if n in s.nodes then s.nodes[n].heartbeat else 0
  {
  }

  lemma {:induction false} HeartbeatIsLastStatus(steps: seq<Step>, n: string)
    requires AllHashed(steps) && n in Run(steps).store.nodes
    ensures Run(steps).store.nodes[n].heartbeat == LastStatus(steps, n)
    decreases |steps|
  {
    if steps != [] {
      var most, last := steps[..|steps| - 1], steps[|steps| - 1];
      NextHeartbeat(Run(most), last, n);
      if n in Run(most).store.nodes {
        HeartbeatIsLastStatus(most, n);
      }
    }
  }

  /** In every run, expiry drops exactly the nodes whose last status is older than the cutoff, and lets exactly their
      configurations dangle. */
  lemma ExpiryByLastStatus(steps: seq<Step>, cutoff: int, n: string, d: string, s: Store, t: Store)
    requires AllHashed(steps) && s == Run(steps).store && t == Next(Run(steps), Expire(cutoff)).store
    ensures n in t.nodes <==> n in s.nodes && LastStatus(steps, n) >= cutoff
    ensures n in t.nodes ==> t.nodes[n] == s.nodes[n]
    ensures n in s.nodes && n !in t.nodes && d in s.nodes[n].configs ==>
              d !in t.digestToNode && d in t.dangling && t.dangling[d] == s.nodes[n].configs[d]
  {
    if n in s.nodes {
      HeartbeatIsLastStatus(steps, n);
    }
    ExpireDrops(s, cutoff, n, d);
  }

  lemma ExpireDrops(s: Store, cutoff: int, n: string, d: string)
    requires Inv(s)
    ensures var t := ExpireNodes(s, cutoff);
            && (n in t.nodes <==> n in s.nodes && s.nodes[n].heartbeat >= cutoff)
            && (n in s.nodes && n !in t.nodes && d in s.nodes[n].configs ==>
                  d !in t.digestToNode && d in t.dangling && t.dangling[d] == s.nodes[n].configs[d])
            && (n in t.nodes ==> t.nodes[n] == s.nodes[n])
  {
  }

  // ---- on a node and dangling at once ----

  predicate Apart(s: Store) {
    s.digestToNode.Keys !! s.dangling.Keys
  }

  /** The configuration is dispatched while it dangles, or left dangling while it is on a node. */
  predicate CrossesAt(s: Store, c: Config, target: string) {
    if target == "" then c.digest in s.digestToNode else c.digest in s.dangling
  }

  predicate Crosses(x: System, step: Step) {
    match step
    case Schedule(c, target) => CrossesAt(x.store, c, target)
    case Redispatch(i, target) => i < |x.pending| && CrossesAt(x.store, x.pending[i], target)
    case _ => false
  }

  lemma AddApart(s: Store, c: Config, target: string)
    requires Apart(s)
    ensures Apart(AddConfig(s, c, target)) <==> !CrossesAt(s, c, target)
  {
    AddConfigKeys(s, c, target);
    var t := AddConfig(s, c, target);
    assert CrossesAt(s, c, target) ==> c.digest in t.digestToNode && c.digest in t.dangling;
  }

  lemma NextApart(x: System, step: Step)
    requires Inverse(x.store) && Apart(x.store)
    ensures Apart(Next(x, step).store) <==> !Crosses(x, step)
  {
    match step
    case Schedule(c, target) => AddApart(x.store, c, target);
    case Redispatch(i, target) =>
      if i < |x.pending| {
        AddApart(x.store, x.pending[i], target);
      }
    case _ =>
  }

  ghost predicate ApartThroughout(steps: seq<Step>)
    requires AllHashed(steps)
  {
    Apart(Run(steps).store) && (steps == [] || ApartThroughout(steps[..|steps| - 1]))
  }

  ghost predicate NeverCrosses(steps: seq<Step>)
    requires AllHashed(steps)
  {
    steps == [] ||
    (NeverCrosses(steps[..|steps| - 1]) && !Crosses(Run(steps[..|steps| - 1]), steps[|steps| - 1]))
  }

  /** Throughout a run no configuration is on a node and dangling at once, if and only if none was ever dispatched
      while it dangled or left dangling while it was on a node. */
  lemma {:induction false} ApartIff(steps: seq<Step>)
    requires AllHashed(steps)
    ensures ApartThroughout(steps) <==> NeverCrosses(steps)
    decreases |steps|
  {
    if steps != [] {
      var most := steps[..|steps| - 1];
      ApartIff(most);
      if ApartThroughout(most) {
        NextApart(Run(most), steps[|steps| - 1]);
      }
    }
  }

  /** Scheduling a configuration without a node and then with one leaves it in both places. */
  lemma BothAtOnce(c: Config, node: string)
    requires c.digest != "" && node != ""
    ensures var steps := [Schedule(c, ""), Schedule(c, node)];
            AllHashed(steps) && c.digest in Run(steps).store.digestToNode && c.digest in Run(steps).store.dangling
  {
    var a, b := Schedule(c, ""), Schedule(c, node);
    RunIs([a, b]);
    RunFromTwo(START, a, b);
    AddConfigKeys(START.store, c, "");
    AddConfigKeys(Next(START, a).store, c, node);
  }
}
