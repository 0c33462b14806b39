/** The monotonic count metric (metrics/monotonic_count.go). */
module MonotonicCount {

  class Counter {
    var previousSample: real
    var currentSample: real
    var sampledSinceLastFlush: bool
    var hasPreviousSample: bool
    var value: real

    ghost function Contents(): State
      reads this
    {
      State(previousSample, currentSample, sampledSinceLastFlush, hasPreviousSample, value)
    }

    constructor ()
      ensures Contents() == State(0.0, 0.0, false, false, 0.0)
    {
      previousSample, currentSample, value := 0.0, 0.0, 0.0;
      sampledSinceLastFlush, hasPreviousSample := false, false;
    }

    method AddSample(v: real)
      modifies this
      ensures Contents() == Step(old(Contents()), Sample(v))
    {
      if !sampledSinceLastFlush {
        currentSample := v;
        sampledSinceLastFlush := true;
      } else {
        previousSample, currentSample := currentSample, v;
        hasPreviousSample := true;
      }
      var diff := currentSample - previousSample;
      if sampledSinceLastFlush && hasPreviousSample && diff > 0.0 {
        value := value + diff;
      }
    }

    method Flush() returns (r: Flushed)
      modifies this
      ensures r == Emitted(old(Contents())) && Contents() == Step(old(Contents()), FlushOp)
    {
      if !sampledSinceLastFlush || !hasPreviousSample {
        return NoSerie;
      }
      r := Point(value);
      previousSample, currentSample, value := currentSample, 0.0, 0.0;
      sampledSinceLastFlush := false;
    }
  }

  datatype Flushed = NoSerie | Point(value: real)

  datatype State = State(previous: real, current: real, sampled: bool, hasPrevious: bool, value: real)

  datatype Op = Sample(v: real) | FlushOp

  ghost function Step(s: State, op: Op): State {
    match op
    case Sample(v) =>
      var t := if !s.sampled then s.(current := v, sampled := true)
               else s.(previous := s.current, current := v, hasPrevious := true);
      var diff := t.current - t.previous;
      if t.hasPrevious && diff > 0.0 then t.(value := t.value + diff) else t
    case FlushOp =>
      if s.sampled && s.hasPrevious then State(s.current, 0.0, false, true, 0.0) else s
  }

  ghost function Emitted(s: State): Flushed {
    if s.sampled && s.hasPrevious then Point(s.value) else NoSerie
  }

  ghost function Run(ops: seq<Op>): State {
    if ops == [] then State(0.0, 0.0, false, false, 0.0) else Step(Run(ops[..|ops| - 1]), ops[|ops| - 1])
  }

  /** Sum of everything the flushes of the run emitted. */
  ghost function Sent(ops: seq<Op>): real {
    if ops == [] then 0.0
    else
      var before, op := ops[..|ops| - 1], ops[|ops| - 1];
      var e := if op.FlushOp? then Emitted(Run(before)) else NoSerie;
      Sent(before) + if e.Point? then e.value else 0.0
  }

  ghost function Samples(ops: seq<Op>): seq<real> {
    if ops == [] then []
    else Samples(ops[..|ops| - 1]) + if ops[|ops| - 1].Sample? then [ops[|ops| - 1].v] else []
  }

  /** Sum of the positive differences of consecutive samples. */
  ghost function Rises(s: seq<real>): real {
    if |s| < 2 then 0.0
    else
      var d := s[|s| - 1] - s[|s| - 2];
      Rises(s[..|s| - 1]) + if d > 0.0 then d else 0.0
  }

  ghost predicate Tracks(s: State, samples: seq<real>) {
    && (s.sampled ==> samples != [] && s.current == samples[|samples| - 1])
    && (!s.sampled && s.hasPrevious ==> samples != [] && s.previous == samples[|samples| - 1])
    && (!s.sampled && !s.hasPrevious ==> samples == [])
    && (!s.hasPrevious ==> |samples| <= 1)
    && (!s.sampled || !s.hasPrevious ==> s.value == 0.0)
  }

  /** Wherever the flushes fall, what they sent plus what is pending is every rise, counted once. */
  lemma {:induction false} RisesConserved(ops: seq<Op>)
    ensures Tracks(Run(ops), Samples(ops))
    ensures Sent(ops) + Run(ops).value == Rises(Samples(ops))
  {
    if ops != [] {
      var before, op := ops[..|ops| - 1], ops[|ops| - 1];
      RisesConserved(before);
      if op.Sample? {
        assert Samples(ops)[..|Samples(ops)| - 1] == Samples(before);
      } else {
        assert Samples(ops) == Samples(before);
      }
    }
  }

  /** A final flush leaves nothing pending. */
  lemma FlushDrains(ops: seq<Op>)
    ensures Sent(ops + [FlushOp]) == Rises(Samples(ops))
  {
    assert (ops + [FlushOp])[..|ops|] == ops;
    RisesConserved(ops);
  }

  lemma {:induction false} IncreasingRises(s: seq<real>)
    requires s != [] && forall i :: 0 < i < |s| ==> s[i - 1] <= s[i]
    ensures Rises(s) == s[|s| - 1] - s[0]
  {
    if |s| > 1 {
      IncreasingRises(s[..|s| - 1]);
    }
  }

  /** For a counter that never falls, that is last minus first. */
  lemma IncreasingRun(ops: seq<Op>)
    requires var s := Samples(ops); s != [] && forall i :: 0 < i < |s| ==> s[i - 1] <= s[i]
    ensures Sent(ops) + Run(ops).value == Samples(ops)[|Samples(ops)| - 1] - Samples(ops)[0]
  {
    RisesConserved(ops);
    IncreasingRises(Samples(ops));
  }
}
