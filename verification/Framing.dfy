/**
 Packet framing: datagrams merged with separators into fixed buffers (agent/packet_buffer.go,
 agent/packets_buffer.go) and split into messages again (agent/server.go:264-295).
 */
module Framing {
  import opened Collections

  type Byte = b: int | 0 <= b < 256
  type Bytes = seq<Byte>

  const NEWLINE: Byte := 10
  const CARRIAGE_RETURN: Byte := 13

  // ---- splitting ----

  function DropCR(line: Bytes): Bytes {
    if line != [] && line[|line| - 1] == CARRIAGE_RETURN then line[..|line| - 1] else line
  }

  /** Position of the first newline, or the length. */
  function LineEnd(p: Bytes): (i: nat)
    ensures i <= |p|
    ensures NEWLINE !in p[..i] && (i < |p| ==> p[i] == NEWLINE)
  {
    if p == [] || p[0] == NEWLINE then 0
    else
      var i := 1 + LineEnd(p[1..]);
      assert p[..i] == [p[0]] + p[1..][..i - 1];
      i
  }

  /** What nextMessage leaves of the packet behind a line ending at i. */
  function Behind(p: Bytes, i: nat): Bytes
    requires i <= |p|
  {
    if i < |p| then p[i + 1..] else []
  }

  /** All messages of a packet: lines up to the first empty one. */
  ghost function Parse(p: Bytes): seq<Bytes>
    decreases |p|
  {
    if p == [] then []
    else
      var i := LineEnd(p);
      var message := DropCR(p[..i]);
      if message == [] then [] else [message] + Parse(Behind(p, i))
  }

  ghost function ParseAll(ps: seq<Bytes>): seq<Bytes> {
    if ps == [] then [] else Parse(ps[0]) + ParseAll(ps[1..])
  }

  /** The lines of a packet, cut at every newline and nowhere else. */
  ghost function Lines(p: Bytes): seq<Bytes>
    decreases |p|
  {
    var i := LineEnd(p);
    if i == |p| then [p] else [p[..i]] + Lines(p[i + 1..])
  }

  ghost function AllLines(ps: seq<Bytes>): seq<Bytes> {
    if ps == [] then [] else Lines(ps[0]) + AllLines(ps[1..])
  }

  /** Lines as the parser hands them on. */
  ghost function Clean(lines: seq<Bytes>): seq<Bytes> {
    if lines == [] || DropCR(lines[0]) == [] then [] else [DropCR(lines[0])] + Clean(lines[1..])
  }

  lemma {:induction false} ParseCleansLines(p: Bytes)
    ensures Parse(p) == Clean(Lines(p))
    decreases |p|
  {
    var i := LineEnd(p);
    if p == [] {
    } else if i == |p| {
      assert p[..i] == p;
      assert Clean([p]) == if DropCR(p) == [] then [] else [DropCR(p)];
    } else {
      ParseCleansLines(p[i + 1..]);
      assert ([p[..i]] + Lines(p[i + 1..]))[1..] == Lines(p[i + 1..]);
    }
  }

  method NextMessage(packet: Bytes) returns (message: Bytes, rest: Bytes)
    ensures packet == [] ==> message == []
    ensures packet != [] ==> message == DropCR(packet[..LineEnd(packet)])
    ensures rest == if message == [] then packet else Behind(packet, LineEnd(packet))
  {
    if |packet| == 0 {
      return [], packet;
    }
    var i := 0;
    while i < |packet| && packet[i] != NEWLINE
      invariant 0 <= i <= |packet|
      invariant i + LineEnd(packet[i..]) == LineEnd(packet)
    {
      assert packet[i..][1..] == packet[i + 1..];
      i := i + 1;
    }
    message := DropCR(packet[..i]);
    if |message| == 0 {
      return [], packet;
    }
    rest := Behind(packet, i);
  }

  /** The message loop over one packet. */
  method ParsePacket(packet: Bytes) returns (messages: seq<Bytes>)
    ensures messages == Parse(packet)
  {
    messages := [];
    var contents := packet;
    while true
      invariant messages + Parse(contents) == Parse(packet)
      decreases |contents|
    {
      var message, rest := NextMessage(contents);
      if |message| == 0 {
        break;
      }
      assert messages + ([message] + Parse(rest)) == (messages + [message]) + Parse(rest);
      messages := messages + [message];
      contents := rest;
    }
  }

  method ParsePackets(packets: seq<Bytes>) returns (messages: seq<Bytes>)
    ensures messages == ParseAll(packets)
  {
    messages := [];
    for k := 0 to |packets|
      invariant messages + ParseAll(packets[k..]) == ParseAll(packets)
    {
      var found := ParsePacket(packets[k]);
      assert packets[k..][1..] == packets[k + 1..];
      assert messages + (found + ParseAll(packets[k + 1..])) == (messages + found) + ParseAll(packets[k + 1..]);
      messages := messages + found;
    }
  }

  // ---- merging ----

  datatype State = State(pending: Bytes, packets: seq<Bytes>, out: seq<Bytes>)

  ghost function Append(s: State, size: nat, packet: Bytes): State {
    if |s.packets| + 1 >= size then State(s.pending, [], s.out + (s.packets + [packet]))
    else s.(packets := s.packets + [packet])
  }

  ghost function Flush(s: State, size: nat): State {
    if s.pending == [] then s else Append(s.(pending := []), size, s.pending)
  }

  ghost function FlushPackets(s: State): State {
    s.(packets := [], out := s.out + s.packets)
  }

  function Take(m: Bytes, cap: nat): Bytes {
    if |m| <= cap then m else m[..cap]
  }

  ghost function AddMessage(s: State, cap: nat, size: nat, m: Bytes): State {
    if s.pending == [] then s.(pending := Take(m, cap))
    else if cap >= |m| + |s.pending| + 1 then s.(pending := s.pending + [NEWLINE] + m)
    else Flush(s, size).(pending := Take(m, cap))
  }

  /** Everything emitted or still to be emitted, in order. */
  ghost function AllPackets(s: State): seq<Bytes> {
    s.out + s.packets + (if s.pending == [] then [] else [s.pending])
  }

  datatype Op = Message(m: Bytes) | PacketTick | PacketsTick

  ghost function Step(s: State, cap: nat, size: nat, op: Op): State {
    match op
    case Message(m) => AddMessage(s, cap, size, m)
    case PacketTick => Flush(s, size)
    case PacketsTick => FlushPackets(s)
  }

  ghost function Run(ops: seq<Op>, cap: nat, size: nat): State {
    if ops == [] then State([], [], []) else Step(Run(ops[..|ops| - 1], cap, size), cap, size, ops[|ops| - 1])
  }

  ghost function Messages(ops: seq<Op>): seq<Bytes> {
    if ops == [] then []
    else Messages(ops[..|ops| - 1])
         + (if ops[|ops| - 1].Message? then [ops[|ops| - 1].m] else [])
  }

  /** Flush ticks never change what is sent, only when: one hands the pending packet on, the other sends the queued
      ones. */
  lemma FlushKeepsPackets(s: State, size: nat)
    ensures AllPackets(Flush(s, size)) == AllPackets(s) && Flush(s, size).pending == []
    ensures AllPackets(FlushPackets(s)) == AllPackets(s) && FlushPackets(s).packets == []
    ensures FlushPackets(s).pending == s.pending
  {
  }

  /** In every run the queue of packets stays below its size, and what was sent stays sent. */
  lemma {:induction false} QueueBounded(ops: seq<Op>, cap: nat, size: nat)
    ensures Run(ops, cap, size).packets == [] || |Run(ops, cap, size).packets| < size
    ensures ops != [] ==> Run(ops[..|ops| - 1], cap, size).out <= Run(ops, cap, size).out
  {
    if ops != [] {
      QueueBounded(ops[..|ops| - 1], cap, size);
    }
  }

  /** A tick of each buffer sends everything. */
  lemma TicksDeliver(ops: seq<Op>, cap: nat, size: nat)
    ensures Run(ops + [PacketTick] + [PacketsTick], cap, size).out == AllPackets(Run(ops, cap, size))
  {
    var s := Run(ops, cap, size);
    assert (ops + [PacketTick])[..|ops|] == ops;
    assert (ops + [PacketTick] + [PacketsTick])[..|ops| + 1] == ops + [PacketTick];
    FlushKeepsPackets(s, size);
    FlushKeepsPackets(Flush(s, size), size);
  }

  /** A message extends the last packet or starts a new one. */
  lemma AddMessagePackets(s: State, cap: nat, size: nat, m: Bytes)
    requires m != [] && cap > 0
    ensures AllPackets(AddMessage(s, cap, size, m)) ==
            if s.pending != [] && cap >= |m| + |s.pending| + 1 then
              s.out + s.packets + [s.pending + [NEWLINE] + m]
            else AllPackets(s) + [Take(m, cap)]
  {
    FlushKeepsPackets(s, size);
  }

  ghost predicate Fits(ps: seq<Bytes>, cap: nat) {
    forall p :: p in ps ==> |p| <= cap
  }

  lemma {:induction false} RunFits(ops: seq<Op>, cap: nat, size: nat)
    ensures Fits(AllPackets(Run(ops, cap, size)), cap) && |Run(ops, cap, size).pending| <= cap
  {
    if ops != [] {
      RunFits(ops[..|ops| - 1], cap, size);
      var s := Run(ops[..|ops| - 1], cap, size);
      FlushKeepsPackets(s, size);
      StepFits(s, cap, size, ops[|ops| - 1]);
    }
  }

  lemma StepFits(s: State, cap: nat, size: nat, op: Op)
    requires Fits(AllPackets(s), cap) && |s.pending| <= cap
    ensures Fits(AllPackets(Step(s, cap, size, op)), cap) && |Step(s, cap, size, op).pending| <= cap
  {
    FlushKeepsPackets(s, size);
    if op.Message? {
      var t := AddMessage(s, cap, size, op.m);
      assert forall p :: p in AllPackets(t) ==> p in AllPackets(s) || p == t.pending;
    }
  }

  // ---- the round trip ----

  /** A message that survives framing. */
  predicate Plain(m: Bytes, cap: nat) {
    m != [] && |m| <= cap && NEWLINE !in m
  }

  predicate EndsInCR(m: Bytes) {
    m != [] && m[|m| - 1] == CARRIAGE_RETURN
  }

  predicate WellFormed(m: Bytes, cap: nat) {
    Plain(m, cap) && !EndsInCR(m)
  }

  lemma {:induction false} AllLinesConcat(a: seq<Bytes>, b: seq<Bytes>)
    ensures AllLines(a + b) == AllLines(a) + AllLines(b)
  {
    if a == [] {
      assert a + b == b;
    } else {
      assert (a + b)[1..] == a[1..] + b;
      AllLinesConcat(a[1..], b);
      assert Lines(a[0]) + (AllLines(a[1..]) + AllLines(b)) == Lines(a[0]) + AllLines(a[1..]) + AllLines(b);
    }
  }

  lemma {:induction false} LineEndIs(p: Bytes, i: nat)
    requires i <= |p| && NEWLINE !in p[..i] && (i < |p| ==> p[i] == NEWLINE)
    ensures LineEnd(p) == i
  {
    if i > 0 {
      assert p[0] == p[..i][0] && p[1..][..i - 1] == p[..i][1..];
      LineEndIs(p[1..], i - 1);
    }
  }

  /** A newline and a line more at the end. */
  lemma {:induction false} LinesExtend(p: Bytes, m: Bytes)
    requires NEWLINE !in m
    ensures Lines(p + [NEWLINE] + m) == Lines(p) + [m]
    decreases |p|
  {
    var i := LineEnd(p);
    var q := p + [NEWLINE] + m;
    assert q[..i] == p[..i];
    LineEndIs(q, i);
    if i == |p| {
      assert q[i + 1..] == m;
      LineEndIs(m, |m|);
      assert q[..i] == p;
    } else {
      assert q[i + 1..] == p[i + 1..] + [NEWLINE] + m;
      LinesExtend(p[i + 1..], m);
    }
  }

  /** Under any interleaving of ticks the lines on the wire are the plain messages, in order. */
  lemma {:induction false} RunLines(ops: seq<Op>, cap: nat, size: nat)
    requires forall m :: m in Messages(ops) ==> Plain(m, cap)
    ensures AllLines(AllPackets(Run(ops, cap, size))) == Messages(ops)
  {
    if ops != [] {
      var before, op := ops[..|ops| - 1], ops[|ops| - 1];
      var s := Run(before, cap, size);
      RunLines(before, cap, size);
      FlushKeepsPackets(s, size);
      if op.Message? {
        assert op.m in Messages(ops);
        MessageLines(s, cap, size, op.m);
      }
    }
  }

  lemma MessageLines(s: State, cap: nat, size: nat, m: Bytes)
    requires Plain(m, cap)
    ensures AllLines(AllPackets(AddMessage(s, cap, size, m))) == AllLines(AllPackets(s)) + [m]
  {
    AddMessagePackets(s, cap, size, m);
    if s.pending != [] && cap >= |m| + |s.pending| + 1 {
      LinesExtend(s.pending, m);
      AllLinesConcat(s.out + s.packets, [s.pending + [NEWLINE] + m]);
      AllLinesConcat(s.out + s.packets, [s.pending]);
      OneLine(s.pending);
      OneLine(s.pending + [NEWLINE] + m);
    } else {
      AllLinesConcat(AllPackets(s), [m]);
      LineEndIs(m, |m|);
      OneLine(m);
    }
  }

  lemma OneLine(p: Bytes)
    ensures AllLines([p]) == Lines(p)
  {
    assert Lines(p) + AllLines([]) == Lines(p);
  }

  ghost function TotalLength(ls: seq<Bytes>): nat {
    if ls == [] then 0 else |ls[0]| + TotalLength(ls[1..])
  }

  lemma {:induction false} TotalLengthConcat(a: seq<Bytes>, b: seq<Bytes>)
    ensures TotalLength(a + b) == TotalLength(a) + TotalLength(b)
  {
    if a == [] {
      assert a + b == b;
    } else {
      assert (a + b)[1..] == a[1..] + b;
      TotalLengthConcat(a[1..], b);
    }
  }

  ghost predicate SomeEndsInCR(ls: seq<Bytes>) {
    exists m :: m in ls && EndsInCR(m)
  }

  /** The parser keeps every byte of the lines only if none ends in CR, and does if also none is empty. */
  lemma {:induction false} CleanLength(ls: seq<Bytes>)
    ensures TotalLength(Clean(ls)) <= TotalLength(ls)
    ensures SomeEndsInCR(ls) ==> TotalLength(Clean(ls)) < TotalLength(ls)
    ensures !SomeEndsInCR(ls) && [] !in ls ==> Clean(ls) == ls
  {
    if ls != [] {
      CleanLength(ls[1..]);
      assert ls == [ls[0]] + ls[1..];
      assert ls[0] in ls && forall m :: m in ls <==> m == ls[0] || m in ls[1..];
    }
  }

  lemma {:induction false} ParseAllLength(ps: seq<Bytes>)
    ensures TotalLength(ParseAll(ps)) <= TotalLength(AllLines(ps))
    ensures SomeEndsInCR(AllLines(ps)) ==> TotalLength(ParseAll(ps)) < TotalLength(AllLines(ps))
    ensures !SomeEndsInCR(AllLines(ps)) && [] !in AllLines(ps) ==> ParseAll(ps) == AllLines(ps)
  {
    if ps != [] {
      ParseAllLength(ps[1..]);
      ParseCleansLines(ps[0]);
      var a, b := Lines(ps[0]), AllLines(ps[1..]);
      CleanLength(a);
      TotalLengthConcat(a, b);
      TotalLengthConcat(Parse(ps[0]), ParseAll(ps[1..]));
      assert forall m :: m in a + b <==> m in a || m in b;
    }
  }

  /** Whatever comes out of the parser was not empty, had no newline and fitted a packet. */
  lemma {:induction false} ParsedIsPlain(ps: seq<Bytes>, cap: nat)
    requires Fits(ps, cap)
    ensures forall m :: m in ParseAll(ps) ==> Plain(m, cap)
  {
    if ps != [] {
      ParsedPacketIsPlain(ps[0], cap);
      ParsedIsPlain(ps[1..], cap);
    }
  }

  lemma {:induction false} ParsedPacketIsPlain(p: Bytes, cap: nat)
    requires |p| <= cap
    ensures forall m :: m in Parse(p) ==> Plain(m, cap)
    decreases |p|
  {
    if p != [] {
      var i := LineEnd(p);
      assert NEWLINE !in DropCR(p[..i]);
      ParsedPacketIsPlain(Behind(p, i), cap);
    }
  }

  /** The round trip holds exactly for well-formed messages, whatever the ticks and buffer sizes. */
  lemma RoundTrip(ops: seq<Op>, cap: nat, size: nat)
    ensures ParseAll(AllPackets(Run(ops, cap, size))) == Messages(ops)
       <==> (forall m :: m in Messages(ops) ==> WellFormed(m, cap))
  {
    var ps := AllPackets(Run(ops, cap, size));
    ParseAllLength(ps);
    if ParseAll(ps) == Messages(ops) {
      RunFits(ops, cap, size);
      ParsedIsPlain(ps, cap);
      RunLines(ops, cap, size);
    }
    if forall m :: m in Messages(ops) ==> WellFormed(m, cap) {
      RunLines(ops, cap, size);
    }
  }

  // ---- the buffers ----

  class PacketsBuffer {
    var packets: seq<Bytes>
    const bufferSize: nat
    var output: seq<seq<Bytes>>  // the output channel

    constructor (bufferSize: nat)
      ensures packets == [] && output == [] && this.bufferSize == bufferSize
    {
      packets, output := [], [];
      this.bufferSize := bufferSize;
    }

    method AppendPacket(packet: Bytes)
      modifies this
      ensures State([], packets, Concat(output))
           == Append(State([], old(packets), Concat(old(output))), bufferSize, packet)
    {
      packets := packets + [packet];
      if |packets| >= bufferSize {
        FlushAll();
      }
    }

    method FlushAll()
      modifies this
      ensures packets == [] && Concat(output) == Concat(old(output)) + old(packets)
    {
      if |packets| > 0 {
        output := output + [packets];
        ConcatSnoc(old(output), old(packets));
        packets := [];
      }
    }
  }

  class PacketBuffer {
    var buffer: array<Byte>
    var packetLength: nat
    const packetsBuffer: PacketsBuffer

    ghost predicate Valid()
      reads this
    {
      packetLength <= buffer.Length
    }

    ghost function Contents(): State
      requires Valid()
      reads this, buffer, packetsBuffer
    {
      State(buffer[..packetLength], packetsBuffer.packets, Concat(packetsBuffer.output))
    }

    constructor (cap: nat, packetsBuffer: PacketsBuffer)
      ensures Valid() && packetLength == 0 && buffer.Length == cap
      ensures this.packetsBuffer == packetsBuffer && fresh(buffer)
    {
      buffer := new Byte[cap](_ => 0);
      packetLength := 0;
      this.packetsBuffer := packetsBuffer;
    }

    /** Go's copy into the buffer from an offset on. */
    method Copy(offset: nat, message: Bytes) returns (n: nat)
      requires Valid() && offset <= buffer.Length
      modifies buffer
      ensures n == |Take(message, buffer.Length - offset)|
      ensures buffer[..offset] == old(buffer[..offset])
      ensures buffer[offset..offset + n] == Take(message, buffer.Length - offset)
    {
      n := if |message| <= buffer.Length - offset then |message| else buffer.Length - offset;
      for i := 0 to n
        invariant buffer[..offset] == old(buffer[..offset])
        invariant buffer[offset..offset + i] == message[..i]
      {
        buffer[offset + i] := message[i];
      }
    }

    /** A separator and the message behind the pending ones. */
    method Join(message: Bytes)
      requires Valid() && |message| + packetLength + 1 <= buffer.Length
      modifies this`packetLength, buffer
      ensures Valid() && buffer[..packetLength] == old(buffer[..packetLength]) + [NEWLINE] + message
    {
      buffer[packetLength] := NEWLINE;
      assert buffer[..packetLength + 1] == old(buffer[..packetLength]) + [NEWLINE];
      var n := Copy(packetLength + 1, message);
      assert buffer[..packetLength + 1 + n]
          == buffer[..packetLength + 1] + buffer[packetLength + 1..packetLength + 1 + n];
      packetLength := packetLength + n + 1;
    }

    method Add(message: Bytes)
      requires Valid()
      modifies this, buffer, packetsBuffer
      ensures Valid() && buffer.Length == old(buffer.Length) && (buffer == old(buffer) || fresh(buffer))
      ensures Contents() == AddMessage(old(Contents()), buffer.Length, packetsBuffer.bufferSize, message)
    {
      if packetLength == 0 {
        packetLength := Copy(0, message);
      } else if buffer.Length >= |message| + packetLength + 1 {
        Join(message);
      } else {
        FlushPending();
        packetLength := Copy(0, message);
      }
    }

    method FlushPending()
      requires Valid()
      modifies this, packetsBuffer
      ensures Valid() && buffer.Length == old(buffer.Length) && (buffer == old(buffer) || fresh(buffer))
      ensures Contents() == Flush(old(Contents()), packetsBuffer.bufferSize)
      ensures packetLength == 0
    {
      if packetLength == 0 {
        return;
      }
      packetsBuffer.AppendPacket(buffer[..packetLength]);
      buffer := new Byte[buffer.Length](_ => 0);
      packetLength := 0;
    }
  }
}
