/** The circuit breaker with exponential backoff (forwarder/blocked_endpoints.go). */
module Backoff {
  import opened Reals

  const DEFAULT_RECOVERY_INTERVAL := 2

  /** 2 to the n, for any integer n. */
  function Pow2(n: int): (p: real)
    ensures p > 0.0
    decreases if n < 0 then -n else n
  {
    if n == 0 then 1.0 else if n > 0 then 2.0 * Pow2(n - 1) else Pow2(n + 1) / 2.0
  }

  /** Doubling a number below one brings it closer to one. */
  lemma HalfInverse(x: real)
    requires 0.0 < x < 1.0
    ensures (1.0 / x).Floor >= 0
    ensures x < 0.5 ==> (1.0 / (2.0 * x)).Floor < (1.0 / x).Floor
  {
    var y := 1.0 / x;
    assert y * x == 1.0;
    assert y > 0.0;
    if x < 0.5 {
      assert y > 2.0;
      assert 1.0 / (2.0 * x) == y / 2.0;
    }
  }

  /** math.Floor(math.Log2(x)). */
  function FloorLog2(x: real): (k: int)
    requires x > 0.0
    ensures Pow2(k) <= x < Pow2(k + 1)
    decreases if x >= 1.0 then x.Floor else 2 + (1.0 / x).Floor
  {
    if x >= 2.0 then
      var k := FloorLog2(x / 2.0);
      k + 1
    else if x < 1.0 then
      HalfInverse(x);
      var k := FloorLog2(2.0 * x);
      k - 1
    else
      assert Pow2(0) == 1.0 && Pow2(1) == 2.0;
      0
  }

  datatype Settings = Settings(factor: real, base: real, max: real, recovery: int, maxErrors: int)

  /** newBlockedEndpoints: bad values are replaced, and maxErrors is derived. */
  function Configure(factor: real, base: real, max: real, recovery: int, reset: bool): Settings {
    var f := if factor < 2.0 then 2.0 else factor;
    var b := if base <= 0.0 then 2.0 else base;
    var m := if max <= 0.0 then 64.0 else max;
    var e := DerivedMaxErrors(b, m);
    var r := if recovery <= 0 then DEFAULT_RECOVERY_INTERVAL else recovery;
    Settings(f, b, m, if reset then e else r, e)
  }

  function DerivedMaxErrors(base: real, max: real): int
    requires base > 0.0 && max > 0.0
  {
    Positive(max, base);
    FloorLog2(max / base) + 1
  }

  lemma Positive(a: real, b: real)
    requires a > 0.0 && b > 0.0
    ensures a / b > 0.0
  {
    assert (a / b) * b == a;
  }

  ghost predicate Valid(c: Settings) {
    && c.factor >= 2.0 && c.base > 0.0 && c.max > 0.0
    && c.maxErrors == DerivedMaxErrors(c.base, c.max)
    && (c.recovery > 0 || c.recovery == c.maxErrors)
  }

  lemma ConfigureValid(factor: real, base: real, max: real, recovery: int, reset: bool)
    ensures var c := Configure(factor, base, max, recovery, reset);
            && Valid(c)
            && c.factor == (if factor >= 2.0 then factor else 2.0)
            && c.base == (if base > 0.0 then base else 2.0)
            && c.max == (if max > 0.0 then max else 64.0)
            && c.recovery == (if reset then c.maxErrors else if recovery > 0 then recovery else 2)
  {
  }

  /** The backoff before it is capped: base times 2 to the number of errors. */
  function Level(c: Settings, n: int): real {
    Times(c.base, Pow2(n))
  }

  lemma LevelDoubles(c: Settings, n: int)
    ensures Level(c, n + 1) == 2.0 * Level(c, n) && Level(c, 0) == c.base
  {
  }

  lemma LevelPositive(c: Settings, n: int)
    requires c.base > 0.0
    ensures Level(c, n) > 0.0
  {
    assert Pow2(n) > 0.0;
  }

  lemma {:induction false} LevelIncreases(c: Settings, m: int, n: int)
    requires c.base > 0.0 && m <= n
    ensures Level(c, m) <= Level(c, n)
    decreases n - m
  {
    if m < n {
      LevelIncreases(c, m, n - 1);
      LevelDoubles(c, n - 1);
      LevelPositive(c, n - 1);
    }
  }

  lemma RatioBounds(b: real, m: real, p: real, q: real)
    requires b > 0.0 && p <= m / b < q
    ensures Times(b, p) <= m < Times(b, q)
  {
    assert (m / b) * b == m;
  }

  /** maxErrors is the least count at which the backoff exceeds the maximum. */
  lemma SaturatesFromMaxErrors(c: Settings, n: int)
    requires Valid(c)
    ensures Level(c, n) > c.max <==> n >= c.maxErrors
  {
    Positive(c.max, c.base);
    var k := FloorLog2(c.max / c.base);
    RatioBounds(c.base, c.max, Pow2(k), Pow2(k + 1));
    if n >= k + 1 {
      LevelIncreases(c, k + 1, n);
    } else {
      LevelIncreases(c, n, k);
    }
  }

  /** At least one error is needed exactly when the base is no greater than the maximum. */
  lemma MaxErrorsPositive(c: Settings)
    requires Valid(c)
    ensures c.maxErrors >= 1 <==> c.base <= c.max
  {
    SaturatesFromMaxErrors(c, 0);
    assert Pow2(0) == 1.0;
    assert Level(c, 0) == c.base;
  }

  /** rand.Float64 stretched over [low, high). */
  function RandomBetween(low: real, high: real, draw: real): real {
    Times(draw, high - low) + low
  }

  lemma RandomBetweenRange(low: real, high: real, draw: real)
    requires low < high && 0.0 <= draw < 1.0
    ensures low <= RandomBetween(low, high, draw) < high
  {
    Fraction(draw, high - low);
  }

  lemma Fraction(t: real, d: real)
    requires 0.0 <= t < 1.0 && d > 0.0
    ensures 0.0 <= Times(t, d) < d
  {
    assert d - t * d == (1.0 - t) * d;
  }

  /** getBackoffDuration, in seconds. */
  function Duration(c: Settings, numErrors: int, draw: real): real
    requires c.factor > 0.0
  {
    if numErrors <= 0 then 0.0
    else
      var level := Level(c, numErrors);
      if level > c.max then c.max
      else RandomBetween(level / c.factor, if c.max <= level then c.max else level, draw)
  }

  lemma DivideBelow(x: real, f: real)
    requires x > 0.0 && f >= 2.0
    ensures 0.0 < x / f <= x / 2.0 && (f == 2.0 ==> x / f == x / 2.0)
  {
    var y := x / f;
    assert y * f == x;
    assert y > 0.0;
    assert y * f >= y * 2.0;
  }

  /** A draw lies between the level over the factor and the level, and never above the maximum. */
  lemma DurationRange(c: Settings, n: int, draw: real)
    requires Valid(c) && n >= 1 && 0.0 <= draw < 1.0
    ensures 0.0 < Duration(c, n, draw) <= c.max
    ensures n < c.maxErrors ==> Level(c, n) / c.factor <= Duration(c, n, draw) < Level(c, n)
    ensures n >= c.maxErrors ==> Duration(c, n, draw) == c.max
  {
    var level := Level(c, n);
    SaturatesFromMaxErrors(c, n);
    LevelPositive(c, n);
    DivideBelow(level, c.factor);
    if level <= c.max {
      RandomBetweenRange(level / c.factor, level, draw);
    }
  }

  /** With factor 2, or at the last step, every draw at n errors is below every draw at n + 1. */
  lemma DrawsSeparated(c: Settings, n: int, d: real, e: real)
    requires Valid(c) && 1 <= n < c.maxErrors && 0.0 <= d < 1.0 && 0.0 <= e < 1.0
    requires c.factor == 2.0 || n + 1 == c.maxErrors
    ensures Duration(c, n, d) < Duration(c, n + 1, e)
  {
    DurationRange(c, n, d);
    DurationRange(c, n + 1, e);
    LevelDoubles(c, n);
    LevelPositive(c, n + 1);
    DivideBelow(Level(c, n + 1), c.factor);
    SaturatesFromMaxErrors(c, n);
  }

  /** With a greater factor and both levels below the maximum, some draws overlap: the condition is exact. */
  lemma DrawsOverlap(c: Settings, n: int) returns (d: real, e: real)
    requires Valid(c) && 1 <= n && n + 1 < c.maxErrors && c.factor > 2.0
    ensures 0.0 <= d < 1.0 && 0.0 <= e < 1.0
    ensures Duration(c, n, d) >= Duration(c, n + 1, e)
  {
    var f, x := c.factor, Level(c, n);
    SaturatesFromMaxErrors(c, n);
    SaturatesFromMaxErrors(c, n + 1);
    LevelDoubles(c, n);
    LevelPositive(c, n);
    d, e := 1.0 / (f - 1.0), 0.0;
    assert d * (f - 1.0) == 1.0;
    assert 0.0 < d < 1.0;
    var y := x / f;
    assert y * f == x;
    assert Times(d, x - y) == y by {
      assert x - y == y * (f - 1.0);
      assert d * (y * (f - 1.0)) == y * (d * (f - 1.0));
    }
    assert (2.0 * x) / f == 2.0 * y;
    assert Duration(c, n, d) == RandomBetween(y, x, d) == 2.0 * y;
    assert Duration(c, n + 1, e) == RandomBetween(2.0 * y, 2.0 * x, 0.0) == 2.0 * y;
  }

  // ---- the breaker and its runs ----

  datatype Block = Block(nbError: int, until: real)

  function Known(blocks: map<string, Block>, endpoint: string): Block {
    if endpoint in blocks then blocks[endpoint] else Block(0, 0.0)
  }

  function AfterClose(c: Settings, b: Block, now: real, draw: real): Block
    requires c.factor > 0.0
  {
    var n := if b.nbError + 1 > c.maxErrors then c.maxErrors else b.nbError + 1;
    Block(n, now + Duration(c, n, draw))
  }

  function AfterRecover(c: Settings, b: Block, now: real, draw: real): Block
    requires c.factor > 0.0
  {
    var n := if b.nbError - c.recovery < 0 then 0 else b.nbError - c.recovery;
    Block(n, now + Duration(c, n, draw))
  }

  predicate Blocked(blocks: map<string, Block>, endpoint: string, now: real) {
    endpoint in blocks && now < blocks[endpoint].until
  }

  class BlockedEndpoints {
    const c: Settings
    var errorPerEndpoint: map<string, Block>

    constructor (factor: real, base: real, max: real, recovery: int, reset: bool)
      ensures Valid(c) && c == Configure(factor, base, max, recovery, reset) && errorPerEndpoint == map[]
    {
      c := Configure(factor, base, max, recovery, reset);
      errorPerEndpoint := map[];
    }

    method Close(endpoint: string, now: real, draw: real)
      requires Valid(c)
      modifies this
      ensures errorPerEndpoint
           == Step(c, old(errorPerEndpoint), Event(true, endpoint, now, draw))
    {
      var b := Known(errorPerEndpoint, endpoint);
      b := b.(nbError := b.nbError + 1);
      if b.nbError > c.maxErrors {
        b := b.(nbError := c.maxErrors);
      }
      b := b.(until := now + Duration(c, b.nbError, draw));
      errorPerEndpoint := errorPerEndpoint[endpoint := b];
    }

    method Recover(endpoint: string, now: real, draw: real)
      requires Valid(c)
      modifies this
      ensures errorPerEndpoint
           == Step(c, old(errorPerEndpoint), Event(false, endpoint, now, draw))
    {
      var b := Known(errorPerEndpoint, endpoint);
      b := b.(nbError := b.nbError - c.recovery);
      if b.nbError < 0 {
        b := b.(nbError := 0);
      }
      b := b.(until := now + Duration(c, b.nbError, draw));
      errorPerEndpoint := errorPerEndpoint[endpoint := b];
    }

    method IsBlock(endpoint: string, now: real) returns (r: bool)
      ensures r == Blocked(errorPerEndpoint, endpoint, now)
    {
      if endpoint in errorPerEndpoint && now < errorPerEndpoint[endpoint].until {
        return true;
      }
      return false;
    }
  }

  /** A failed or a successful transaction. */
  datatype Event = Event(failed: bool, endpoint: string, now: real, draw: real)

  ghost function Step(c: Settings, blocks: map<string, Block>, e: Event): map<string, Block>
    requires c.factor > 0.0
  {
    var b := Known(blocks, e.endpoint);
    blocks[e.endpoint := if e.failed then AfterClose(c, b, e.now, e.draw) else AfterRecover(c, b, e.now, e.draw)]
  }

  ghost function Run(c: Settings, events: seq<Event>): map<string, Block>
    requires c.factor > 0.0
  {
    if events == [] then map[] else Step(c, Run(c, events[..|events| - 1]), events[|events| - 1])
  }

  /** Draws are in [0, 1) and time does not run backwards up to now. */
  ghost predicate Possible(events: seq<Event>, now: real) {
    events == [] ||
    (var last := events[|events| - 1];
     0.0 <= last.draw < 1.0 && last.now <= now && Possible(events[..|events| - 1], last.now))
  }

  /** Every run keeps error counts in 0..maxErrors and no endpoint blocked for longer than the maximum,
      counted from now. */
  lemma {:induction false} RunBounded(c: Settings, events: seq<Event>, now: real)
    requires Valid(c) && c.base <= c.max && Possible(events, now)
    ensures forall p :: p in Run(c, events) ==>
              && 0 <= Run(c, events)[p].nbError <= c.maxErrors
              && Run(c, events)[p].until <= now + c.max
  {
    if events != [] {
      var e := events[|events| - 1];
      RunBounded(c, events[..|events| - 1], e.now);
      MaxErrorsPositive(c);
      var b := Run(c, events)[e.endpoint];
      if b.nbError >= 1 {
        DurationRange(c, b.nbError, e.draw);
      }
    }
  }

  /** A base above the maximum switches the breaker off: no run ever blocks an endpoint. */
  lemma {:induction false} RunNeverBlocks(c: Settings, events: seq<Event>, now: real)
    requires Valid(c) && c.base > c.max && c.recovery >= 0 && Possible(events, now)
    ensures forall p :: p in Run(c, events) ==> Run(c, events)[p].until <= now && Run(c, events)[p].nbError <= 0
  {
    if events != [] {
      var e := events[|events| - 1];
      RunNeverBlocks(c, events[..|events| - 1], e.now);
      MaxErrorsPositive(c);
    }
  }

  /** With recovery reset and a base of more than twice the maximum it works backwards: the first
      success blocks the endpoint. */
  lemma FirstSuccessBlocks(c: Settings, e: Event)
    requires Valid(c) && !e.failed && 0.0 <= e.draw < 1.0
    ensures Blocked(Step(c, map[], e), e.endpoint, e.now) <==> c.recovery < 0
  {
    if c.recovery < 0 {
      DurationRange(c, -c.recovery, e.draw);
    }
  }

  lemma RecoveryNegative(factor: real, base: real, max: real, recovery: int, reset: bool)
    ensures var c := Configure(factor, base, max, recovery, reset);
            c.recovery < 0 <==> reset && c.base > 2.0 * c.max
  {
    var c := Configure(factor, base, max, recovery, reset);
    SaturatesFromMaxErrors(c, -1);
    LevelDoubles(c, -1);
    assert Pow2(0) == 1.0;
    assert Level(c, 0) == c.base;
  }

  /** A first failure blocks the endpoint if and only if the base is no greater than the maximum. */
  lemma FirstFailureBlocks(c: Settings, e: Event)
    requires Valid(c) && e.failed && 0.0 <= e.draw < 1.0
    ensures Blocked(Step(c, map[], e), e.endpoint, e.now) <==> c.base <= c.max
  {
    MaxErrorsPositive(c);
    if c.maxErrors >= 1 {
      DurationRange(c, 1, e.draw);
    }
  }

  // ---- the exponential backoff over runs ----

  /** The events of one endpoint. */
  ghost function Of(events: seq<Event>, p: string): seq<Event> {
    if events == [] then []
    else
      var last := events[|events| - 1];
      Of(events[..|events| - 1], p) + if last.endpoint == p then [last] else []
  }

  lemma RunSnoc(c: Settings, events: seq<Event>, e: Event)
    requires c.factor > 0.0
    ensures Run(c, events + [e]) == Step(c, Run(c, events), e)
  {
    assert (events + [e])[..|events|] == events;
  }

  /** Endpoints do not interfere: one is where its own events alone would have left it. */
  lemma {:induction false} EndpointsApart(c: Settings, events: seq<Event>, p: string)
    requires c.factor > 0.0
    ensures p in Run(c, events) <==> Of(events, p) != []
    ensures Known(Run(c, events), p) == Known(Run(c, Of(events, p)), p)
    ensures forall q :: q in Run(c, Of(events, p)) ==> q == p
  {
    if events != [] {
      var most, last := events[..|events| - 1], events[|events| - 1];
      EndpointsApart(c, most, p);
      if last.endpoint == p {
        RunSnoc(c, Of(most, p), last);
      } else {
        assert Of(most, p) + [] == Of(most, p);
      }
    }
  }

  /** First k failures, then j successes. */
  predicate FailThenRecover(es: seq<Event>, k: nat, j: nat) {
    |es| == k + j && forall i :: 0 <= i < |es| ==> (es[i].failed <==> i < k)
  }

  function Min(a: int, b: int): int {
    if a < b then a else b
  }

  /** The error count after k failures in a row and then j successes. */
  function CountAfter(c: Settings, k: nat, j: nat): int {
    var top := if k == 0 then 0 else Min(k, c.maxErrors);
    if j == 0 then top
    else if top < j * c.recovery then 0 else top - j * c.recovery
  }

  lemma CountRecovers(c: Settings, k: nat, j: nat)
    requires j >= 1 && c.recovery >= 0 && (c.maxErrors >= 0 || c.recovery > 0)
    ensures CountAfter(c, k, j)
         == (if CountAfter(c, k, j - 1) - c.recovery < 0 then 0 else CountAfter(c, k, j - 1) - c.recovery)
  {
    var r := c.recovery;
    assert (j - 1) * r + r == j * r && (j - 1) * r >= 0;
  }

  lemma {:induction false} OwnCount(c: Settings, es: seq<Event>, p: string, k: nat, j: nat)
    requires c.factor > 0.0 && FailThenRecover(es, k, j) && forall i :: 0 <= i < |es| ==> es[i].endpoint == p
    requires j == 0 || (c.recovery >= 0 && (c.maxErrors >= 0 || c.recovery > 0))
    ensures Known(Run(c, es), p).nbError == CountAfter(c, k, j)
    ensures es != [] ==> p in Run(c, es) && Run(c, es)[p].until
                         == es[|es| - 1].now + Duration(c, CountAfter(c, k, j), es[|es| - 1].draw)
    decreases |es|
  {
    if es != [] {
      var most := es[..|es| - 1];
      if j > 0 {
        OwnCount(c, most, p, k, j - 1);
        CountRecovers(c, k, j);
      } else {
        OwnCount(c, most, p, k - 1, 0);
      }
    }
  }

  lemma {:induction false} OfEndpoint(events: seq<Event>, p: string)
    ensures forall i :: 0 <= i < |Of(events, p)| ==> Of(events, p)[i].endpoint == p
  {
    if events != [] {
      OfEndpoint(events[..|events| - 1], p);
    }
  }

  /** In every run, whatever happens to other endpoints: after k failures in a row of an endpoint not seen before its
      error count is k, up to maxErrors; j successes then take it down by the recovery interval each, not below
      zero; and the block lasts for the backoff of that count from the last event on. */
  lemma CountsOverRuns(c: Settings, events: seq<Event>, p: string, k: nat, j: nat, last: Event)
    requires Valid(c) && FailThenRecover(Of(events, p), k, j) && k + j >= 1 && last == Of(events, p)[k + j - 1]
    requires j == 0 || c.recovery > 0
    ensures p in Run(c, events)
    ensures Run(c, events)[p] == Block(CountAfter(c, k, j), last.now + Duration(c, CountAfter(c, k, j), last.draw))
  {
    EndpointsApart(c, events, p);
    OfEndpoint(events, p);
    OwnCount(c, Of(events, p), p, k, j);
  }

  /** So the backoff is exponential: after k failures in a row the endpoint is blocked for base times 2 to the k
      seconds, down to that over the factor, as long as this is within the maximum, and for the maximum from
      maxErrors failures on. */
  lemma BackoffIsExponential(c: Settings, events: seq<Event>, p: string, k: nat, last: Event)
    requires Valid(c) && FailThenRecover(Of(events, p), k, 0) && k >= 1 && c.base <= c.max
    requires last == Of(events, p)[k - 1] && 0.0 <= last.draw < 1.0
    ensures p in Run(c, events)
    ensures var wait := Run(c, events)[p].until - last.now;
            if Level(c, k) <= c.max then Level(c, k) / c.factor <= wait < Level(c, k) else wait == c.max
  {
    CountsOverRuns(c, events, p, k, 0, last);
    MaxErrorsPositive(c);
    SaturatesFromMaxErrors(c, k);
    BackoffAt(c, k, last.draw);
  }

  lemma BackoffAt(c: Settings, k: nat, draw: real)
    requires Valid(c) && k >= 1 && c.maxErrors >= 1 && 0.0 <= draw < 1.0 && (Level(c, k) <= c.max <==> k < c.maxErrors)
    ensures var wait := Duration(c, CountAfter(c, k, 0), draw);
            if Level(c, k) <= c.max then Level(c, k) / c.factor <= wait < Level(c, k) else wait == c.max
  {
    DurationRange(c, CountAfter(c, k, 0), draw);
  }
}
