/**
 The sketches of the time sampler (aggregator/sketch_map.go): by bucket and context, handed out by
 context once their bucket closes. A sketch is represented by the values put into it.
 */
module SketchMap {
  import opened Collections

  type Key = string

  type Sketches = map<int, map<Key, seq<real>>>

  /** insert, for a finite value. */
  function Insert(m: Sketches, b: int, key: Key, v: real): Sketches {
    var byKey := if b in m then m[b] else map[];
    m[b := byKey[key := (if key in byKey then byKey[key] else []) + [v]]]
  }

  ghost function ValuesAt(m: Sketches, b: int, k: Key): seq<real> {
    if b in m && k in m[b] then m[b][k] else []
  }

  datatype Point = Point(ts: int, values: seq<real>)

  type Points = map<Key, seq<Point>>

  ghost function PointsAt(points: Points, k: Key, p: Point): nat {
    if k in points then multiset(points[k])[p] else 0
  }

  /** No context is listed without a point. */
  ghost predicate NoneEmpty(points: Points) {
    forall k :: k in points ==> points[k] != []
  }

  /** How often the non-empty sketches of the buckets hold the point: its time tells the bucket. */
  ghost function InBucket(m: Sketches, buckets: set<int>, k: Key, p: Point): nat {
    if p.values != [] && p.ts in buckets && p.ts in m && k in m[p.ts] && m[p.ts][k] == p.values then 1 else 0
  }

  function Closed(m: Sketches, cutoff: int): set<int> {
    set b | b in m && b < cutoff
  }

  /** The callback of flushSketches: points are grouped by context, and empty sketches passed over. */
  method Collect(points: Points, k: Key, p: Point) returns (r: Points)
    requires NoneEmpty(points)
    ensures NoneEmpty(r)
    ensures forall j, x :: PointsAt(r, j, x) == PointsAt(points, j, x) + if p.values != [] && j == k && x == p then 1 else 0
  {
    if p.values == [] {
      return points;
    }
    r := points[k := (if k in points then points[k] else []) + [p]];
  }

  /** The contexts of one closed bucket, visited in any order. */
  method CollectBucket(byKey: map<Key, seq<real>>, ts: int, points: Points) returns (r: Points)
    requires NoneEmpty(points)
    ensures NoneEmpty(r)
    ensures forall j, x :: PointsAt(r, j, x) == PointsAt(points, j, x) + InBucket(map[ts := byKey], {ts}, j, x)
  {
    r := points;
    var left := byKey.Keys;
    while left != {}
      invariant left <= byKey.Keys && NoneEmpty(r)
      invariant forall j, x :: PointsAt(r, j, x)
                   == PointsAt(points, j, x) + if j in left then 0 else InBucket(map[ts := byKey], {ts}, j, x)
      decreases |left|
    {
      var k :| k in left;
      left := left - {k};
      r := Collect(r, k, Point(ts, byKey[k]));
    }
  }

  /** One bucket of flushBefore. */
  method FlushBucket(m: Sketches, ghost done: set<int>, points: Points, b: int) returns (r: Points)
    requires NoneEmpty(points) && b in m && b !in done
    requires forall k, p :: PointsAt(points, k, p) == InBucket(m, done, k, p)
    ensures NoneEmpty(r)
    ensures forall k, p :: PointsAt(r, k, p) == InBucket(m, done + {b}, k, p)
  {
    r := CollectBucket(m[b], b, points);
    forall k, p
      ensures PointsAt(r, k, p) == InBucket(m, done + {b}, k, p)
    {
    }
  }

  /** flushBefore: every closed sketch is handed out once, under its context, and leaves the map. */
  method FlushBefore(m: Sketches, cutoff: int) returns (kept: Sketches, points: Points)
    ensures kept == map b | b in m && b >= cutoff :: m[b]
    ensures NoneEmpty(points)
    ensures forall k, p :: PointsAt(points, k, p) == InBucket(m, Closed(m, cutoff), k, p)
  {
    points := map[];
    kept := m;
    var left := m.Keys;
    ghost var done: set<int> := {};
    while left != {}
      invariant left <= m.Keys && NoneEmpty(points)
      invariant done == Closed(m, cutoff) - left
      invariant kept == m - done
      invariant forall k, p :: PointsAt(points, k, p) == InBucket(m, done, k, p)
      decreases |left|
    {
      var b := PickOne(left);
      left := left - {b};
      if b >= cutoff {
        continue;
      }
      points := FlushBucket(m, done, points, b);
      done := done + {b};
      kept := kept - {b};
    }
    assert done == Closed(m, cutoff);
  }
}
