/**
 The domain forwarder and its workers (forwarder/domain_forwarder.go, forwarder/worker.go) as
 interleaved atomic steps over bounded channels: submission, the two selects of each worker, the
 outcome of processing, and the retry goroutine with its passes over the retry queue.
 */
module Forwarder {
  import opened Collections
  import Backoff

  const CHAN_BUFFER_SIZE: nat := 100

  datatype Transaction = Transaction(id: int, createdAt: int, target: string)

  type Queue = seq<Transaction>

  /** A worker is before its first select, in its second one, or processing. */
  datatype Worker = Polling | Waiting | Busy(t: Transaction)

  /** The retry goroutine: idle, or in a pass with the transactions left, the ones kept, and those
      dropped in this pass for a full retry queue. */
  datatype Pass = Idle | Retrying(todo: Queue, kept: Queue, full: Queue)

  datatype Channels = Channels(high: Queue, low: Queue, requeued: Queue, retry: Queue)

  /** Transactions that left the forwarder: processed, or dropped at a named full queue. */
  datatype Gone = Gone(finished: Queue, onInput: Queue, onRequeue: Queue, workerBusy: Queue, queueFull: Queue)

  datatype State = State(c: Channels, pass: Pass, workers: seq<Worker>, gone: Gone)

  function Started(workers: nat): State {
    State(Channels([], [], [], []), Idle, seq(workers, _ => Polling), Gone([], [], [], [], []))
  }

  /** What the environment or a goroutine does next; a step that is not possible changes nothing. */
  datatype Step =
    | Submit(t: Transaction)
    | Poll(w: nat)                        // first select of the worker loop
    | Wake(w: nat, fromLow: bool)         // second select
    | Done(w: nat, requeue: bool)         // blocked or failed, against processed
    | Receive                             // the retry goroutine takes a requeued transaction
    | Begin(sorted: Queue)                // a tick starts a retry pass
    | Retry(blocked: bool)                // one iteration of the pass
    | End

  ghost predicate NewestFirst(q: Queue) {
    |q| <= 1 || (q[0].createdAt >= q[1].createdAt && NewestFirst(q[1..]))
  }

  function Next(s: State, limit: int, step: Step): State {
    var c, g := s.c, s.gone;
    match step
    case Submit(t) =>
      if |c.high| < CHAN_BUFFER_SIZE then s.(c := c.(high := c.high + [t]))
      else s.(gone := g.(onInput := g.onInput + [t]))
    case Poll(w) =>
      if w >= |s.workers| || s.workers[w] != Polling then s
      else if c.high != [] then s.(c := c.(high := c.high[1..]), workers := s.workers[w := Busy(c.high[0])])
      else s.(workers := s.workers[w := Waiting])
    case Wake(w, fromLow) =>
      if w >= |s.workers| || s.workers[w] != Waiting then s
      else if fromLow && c.low != [] then
        s.(c := c.(low := c.low[1..]), workers := s.workers[w := Busy(c.low[0])])
      else if !fromLow && c.high != [] then
        s.(c := c.(high := c.high[1..]), workers := s.workers[w := Busy(c.high[0])])
      else s
    case Done(w, requeue) =>
      if w >= |s.workers| || !s.workers[w].Busy? then s
      else
        var t, free := s.workers[w].t, s.workers[w := Polling];
        if !requeue then s.(workers := free, gone := g.(finished := g.finished + [t]))
        else if |c.requeued| < CHAN_BUFFER_SIZE then s.(workers := free, c := c.(requeued := c.requeued + [t]))
        else s.(workers := free, gone := g.(onRequeue := g.onRequeue + [t]))
    case Receive =>
      if s.pass.Idle? && c.requeued != [] then
        s.(c := c.(requeued := c.requeued[1..], retry := c.retry + [c.requeued[0]]))
      else s
    case Begin(sorted) =>
      if s.pass.Idle? && multiset(sorted) == multiset(c.retry) then
        s.(c := c.(retry := []), pass := Retrying(sorted, [], []))
      else s
    case Retry(blocked) =>
      if s.pass.Idle? || s.pass.todo == [] then s else RetryOne(s, limit, blocked)
    case End =>
      if s.pass.Retrying? && s.pass.todo == [] then s.(c := c.(retry := s.pass.kept), pass := Idle) else s
  }

  /** One iteration of a retry pass: sent to the workers, kept, or dropped. */
  function RetryOne(s: State, limit: int, blocked: bool): State
    requires s.pass.Retrying? && s.pass.todo != []
  {
    var c, g := s.c, s.gone;
    var t, p := s.pass.todo[0], s.pass.(todo := s.pass.todo[1..]);
    if !blocked then
      if |c.low| < CHAN_BUFFER_SIZE then s.(c := c.(low := c.low + [t]), pass := p)
      else s.(gone := g.(workerBusy := g.workerBusy + [t]), pass := p)
    else if |p.kept| < limit then s.(pass := p.(kept := p.kept + [t]))
    else s.(gone := g.(queueFull := g.queueFull + [t]), pass := p.(full := p.full + [t]))
  }

  // ---- where every transaction is ----

  /** How often t is in a queue. */
  ghost function In(q: Queue, t: Transaction): nat {
    if q == [] then 0 else One(q[0], t) + In(q[1..], t)
  }

  ghost function One(x: Transaction, t: Transaction): nat {
    if x == t then 1 else 0
  }

  ghost function Holds(w: Worker, t: Transaction): nat {
    if w.Busy? then One(w.t, t) else 0
  }

  ghost function Held(workers: seq<Worker>, t: Transaction): nat {
    if workers == [] then 0 else Holds(workers[0], t) + Held(workers[1..], t)
  }

  ghost function InPass(p: Pass, t: Transaction): nat {
    if p.Idle? then 0 else In(p.todo, t) + In(p.kept, t)
  }

  ghost function InChannels(c: Channels, t: Transaction): nat {
    In(c.high, t) + In(c.low, t) + In(c.requeued, t) + In(c.retry, t)
  }

  ghost function AmongGone(g: Gone, t: Transaction): nat {
    In(g.finished, t) + In(g.onInput, t) + In(g.onRequeue, t) + In(g.workerBusy, t) + In(g.queueFull, t)
  }

  /** How often t is anywhere: in a channel, in the retry queue or the pass over it, with a worker,
      finished, or dropped at a named full queue. */
  ghost function Everywhere(s: State, t: Transaction): nat {
    InChannels(s.c, t) + InPass(s.pass, t) + Held(s.workers, t) + AmongGone(s.gone, t)
  }

  /** During a pass the retry queue's transactions are the pass's own. */
  ghost predicate Exclusive(s: State) {
    s.pass.Retrying? ==> s.c.retry == []
  }

  lemma {:induction false} HeldUpdate(workers: seq<Worker>, w: nat, x: Worker, t: Transaction)
    requires w < |workers|
    ensures Held(workers[w := x], t) + Holds(workers[w], t) == Held(workers, t) + Holds(x, t)
  {
    if w > 0 {
      HeldUpdate(workers[1..], w - 1, x, t);
      assert workers[w := x][1..] == workers[1..][w - 1 := x];
    } else {
      assert workers[w := x][1..] == workers[1..];
    }
  }

  lemma {:induction false} InSnoc(q: Queue, x: Transaction, t: Transaction)
    ensures In(q + [x], t) == In(q, t) + One(x, t)
  {
    if q != [] {
      assert (q + [x])[1..] == q[1..] + [x];
      InSnoc(q[1..], x, t);
    }
  }

  lemma {:induction false} InMultiset(q: Queue, t: Transaction)
    ensures In(q, t) == multiset(q)[t]
  {
    if q != [] {
      InMultiset(q[1..], t);
      assert q == [q[0]] + q[1..];
    }
  }

  /** One step moves transactions between places; only a submission adds one. */
  lemma NextConserves(s: State, limit: int, step: Step, t: Transaction)
    requires Exclusive(s)
    ensures Everywhere(Next(s, limit, step), t)
         == Everywhere(s, t) + if step.Submit? then One(step.t, t) else 0
    ensures Exclusive(Next(s, limit, step))
  {
    match step
    case Submit(x) => SubmitConserves(s, limit, x, t);
    case Poll(w) => TakeConserves(s, limit, step, w, t);
    case Wake(w, _) => TakeConserves(s, limit, step, w, t);
    case Done(w, _) => DoneConserves(s, limit, step, t);
    case Receive => ReceiveConserves(s, limit, t);
    case Begin(sorted) =>
      InMultiset(sorted, t);
      InMultiset(s.c.retry, t);
    case Retry(blocked) =>
      if s.pass.Retrying? && s.pass.todo != [] {
        RetryConserves(s, limit, blocked, t);
      }
    case End =>
  }

  lemma SubmitConserves(s: State, limit: int, x: Transaction, t: Transaction)
    ensures Everywhere(Next(s, limit, Submit(x)), t) == Everywhere(s, t) + One(x, t)
  {
    InSnoc(s.c.high, x, t);
    InSnoc(s.gone.onInput, x, t);
  }

  lemma ReceiveConserves(s: State, limit: int, t: Transaction)
    ensures Everywhere(Next(s, limit, Receive), t) == Everywhere(s, t)
  {
    if s.c.requeued != [] {
      InSnoc(s.c.retry, s.c.requeued[0], t);
    }
  }

  lemma TakeConserves(s: State, limit: int, step: Step, w: nat, t: Transaction)
    requires step == Poll(w) || (step.Wake? && step.w == w)
    ensures Everywhere(Next(s, limit, step), t) == Everywhere(s, t)
  {
    var s' := Next(s, limit, step);
    if w < |s.workers| {
      HeldUpdate(s.workers, w, s'.workers[w], t);
      assert s.workers[w := s'.workers[w]] == s'.workers;
    }
  }

  lemma DoneConserves(s: State, limit: int, step: Step, t: Transaction)
    requires step.Done?
    ensures Everywhere(Next(s, limit, step), t) == Everywhere(s, t)
  {
    var w := step.w;
    if w < |s.workers| && s.workers[w].Busy? {
      var x := s.workers[w].t;
      HeldUpdate(s.workers, w, Polling, t);
      InSnoc(s.c.requeued, x, t);
      InSnoc(s.gone.finished, x, t);
      InSnoc(s.gone.onRequeue, x, t);
    }
  }

  lemma RetryConserves(s: State, limit: int, blocked: bool, t: Transaction)
    requires s.pass.Retrying? && s.pass.todo != []
    ensures Everywhere(RetryOne(s, limit, blocked), t) == Everywhere(s, t)
  {
    var x := s.pass.todo[0];
    if !blocked {
      if |s.c.low| < CHAN_BUFFER_SIZE {
        InSnoc(s.c.low, x, t);
      } else {
        InSnoc(s.gone.workerBusy, x, t);
      }
    } else if |s.pass.kept| < limit {
      InSnoc(s.pass.kept, x, t);
    } else {
      InSnoc(s.gone.queueFull, x, t);
    }
  }

  ghost function Run(workers: nat, limit: int, steps: seq<Step>): State {
    if steps == [] then Started(workers)
    else Next(Run(workers, limit, steps[..|steps| - 1]), limit, steps[|steps| - 1])
  }

  /** How often t was submitted. */
  ghost function Submitted(steps: seq<Step>, t: Transaction): nat {
    if steps == [] then 0
    else Submitted(steps[..|steps| - 1], t)
         + if steps[|steps| - 1].Submit? then One(steps[|steps| - 1].t, t) else 0
  }

  lemma {:induction false} NothingHeld(n: nat, t: Transaction)
    ensures Held(seq(n, _ => Polling), t) == 0
  {
    if n > 0 {
      assert seq(n, _ => Polling)[1..] == seq(n - 1, _ => Polling);
      NothingHeld(n - 1, t);
    }
  }

  /** In every interleaving the places together hold a transaction as often as it was submitted: nothing is
      lost without being counted at a named full queue, and nothing is duplicated. One submitted once is in
      exactly one place. */
  lemma {:induction false} NothingLost(workers: nat, limit: int, steps: seq<Step>, t: Transaction)
    ensures Everywhere(Run(workers, limit, steps), t) == Submitted(steps, t)
    ensures Exclusive(Run(workers, limit, steps))
  {
    if steps == [] {
      NothingHeld(workers, t);
    } else {
      NothingLost(workers, limit, steps[..|steps| - 1], t);
      NextConserves(Run(workers, limit, steps[..|steps| - 1]), limit, steps[|steps| - 1], t);
    }
  }

  // ---- order ----

  datatype Channel = High | Low | Requeued

  function Content(s: State, ch: Channel): Queue {
    match ch
    case High => s.c.high
    case Low => s.c.low
    case Requeued => s.c.requeued
  }

  /** What a step puts into a channel: a submission, an unblocked retry or a transaction handed back, if there is
      room. */
  function Put(s: State, step: Step, ch: Channel): Queue {
    if |Content(s, ch)| >= CHAN_BUFFER_SIZE then []
    else if ch == High && step.Submit? then [step.t]
    else if ch == Low && step == Retry(false) && s.pass.Retrying? && s.pass.todo != [] then [s.pass.todo[0]]
    else if ch == Requeued && step.Done? && step.requeue && step.w < |s.workers| && s.workers[step.w].Busy? then
      [s.workers[step.w].t]
    else []
  }

  /** What was taken from a channel, seen at the taker: the transaction a worker became busy with, or the newest of
      the retry queue. */
  function Got(s: State, s': State, step: Step, ch: Channel): Queue {
    match step
    case Poll(w) => if ch == High then BecameBusy(s, s', w) else []
    case Wake(w, fromLow) => if ch == (if fromLow then Low else High) then BecameBusy(s, s', w) else []
    case Receive => if ch == Requeued && |s'.c.retry| > |s.c.retry| then [s'.c.retry[|s'.c.retry| - 1]] else []
    case _ => []
  }

  function BecameBusy(s: State, s': State, w: nat): Queue {
    if w < |s.workers| && w < |s'.workers| && !s.workers[w].Busy? && s'.workers[w].Busy? then [s'.workers[w].t] else []
  }

  lemma NextInOrder(s: State, limit: int, step: Step, ch: Channel)
    ensures var s' := Next(s, limit, step);
            Got(s, s', step, ch) + Content(s', ch) == Content(s, ch) + Put(s, step, ch)
  {
    match ch
    case High => HighInOrder(s, limit, step);
    case Low => LowInOrder(s, limit, step);
    case Requeued => RequeuedInOrder(s, limit, step);
  }

  lemma HighInOrder(s: State, limit: int, step: Step)
    ensures var s' := Next(s, limit, step); Got(s, s', step, High) + s'.c.high == s.c.high + Put(s, step, High)
  {
  }

  lemma LowInOrder(s: State, limit: int, step: Step)
    ensures var s' := Next(s, limit, step); Got(s, s', step, Low) + s'.c.low == s.c.low + Put(s, step, Low)
  {
  }

  lemma RequeuedInOrder(s: State, limit: int, step: Step)
    ensures var s' := Next(s, limit, step);
            Got(s, s', step, Requeued) + s'.c.requeued == s.c.requeued + Put(s, step, Requeued)
  {
  }

  ghost function AllPut(workers: nat, limit: int, steps: seq<Step>, ch: Channel): Queue {
    if steps == [] then []
    else
      var most, last := steps[..|steps| - 1], steps[|steps| - 1];
      AllPut(workers, limit, most, ch) + Put(Run(workers, limit, most), last, ch)
  }

  ghost function AllGot(workers: nat, limit: int, steps: seq<Step>, ch: Channel): Queue {
    if steps == [] then []
    else
      var most, last := steps[..|steps| - 1], steps[|steps| - 1];
      AllGot(workers, limit, most, ch) + Got(Run(workers, limit, most), Run(workers, limit, steps), last, ch)
  }

  /** In every interleaving what was taken from a channel and what it holds is what was put in, in that order. */
  lemma {:induction false} FirstInFirstOut(workers: nat, limit: int, steps: seq<Step>, ch: Channel)
    ensures AllGot(workers, limit, steps, ch) + Content(Run(workers, limit, steps), ch) == AllPut(workers, limit, steps, ch)
  {
    if steps != [] {
      var most, last := steps[..|steps| - 1], steps[|steps| - 1];
      var s, s' := Run(workers, limit, most), Run(workers, limit, steps);
      FirstInFirstOut(workers, limit, most, ch);
      NextInOrder(s, limit, last, ch);
      Regroup(AllGot(workers, limit, most, ch), Got(s, s', last, ch), Content(s', ch), Content(s, ch), Put(s, last, ch));
    }
  }

  lemma Regroup(a: Queue, g: Queue, after: Queue, before: Queue, p: Queue)
    requires g + after == before + p
    ensures (a + g) + after == (a + before) + p
  {
    assert (a + g) + after == a + (g + after) && (a + before) + p == a + (before + p);
  }

  /** High priority comes first: a worker looks at the low-priority queue only after it found the other one empty, and
      takes the oldest transaction when it is not. */
  lemma HighPriorityFirst(s: State, limit: int, step: Step, w: nat)
    requires w < |s.workers| && s.workers[w] == Polling
    ensures var s' := Next(s, limit, step);
            && w < |s'.workers|
            && (s'.workers[w] == Waiting ==> s.c.high == [])
            && (step == Poll(w) && s.c.high != [] ==> s'.workers[w] == Busy(s.c.high[0]) && s'.c.low == s.c.low)
            && (s'.workers[w].Busy? ==> s.c.high != [] && s'.workers[w].t == s.c.high[0])
  {
  }

  // ---- bounds, and which transactions a full retry queue drops ----

  ghost predicate NoNewer(olds: Queue, news: Queue) {
    forall o, n :: o in olds && n in news ==> o.createdAt <= n.createdAt
  }

  ghost predicate PassOrdered(p: Pass, limit: int) {
    p.Retrying? ==>
      && NewestFirst(p.todo)
      && NoNewer(p.todo, p.kept) && NoNewer(p.full, p.kept)
      && (p.kept == [] || |p.kept| <= limit)
      && (p.full != [] ==> |p.kept| >= limit)
  }

  /** Channels hold at most their capacity; a pass keeps the newest blocked transactions. */
  ghost predicate Bounded(s: State, limit: int) {
    && |s.c.high| <= CHAN_BUFFER_SIZE && |s.c.low| <= CHAN_BUFFER_SIZE && |s.c.requeued| <= CHAN_BUFFER_SIZE
    && PassOrdered(s.pass, limit)
  }

  /** Each pass starts with the retry queue sorted, as sort.Sort leaves it. */
  ghost predicate Sorting(steps: seq<Step>) {
    forall i :: 0 <= i < |steps| && steps[i].Begin? ==> NewestFirst(steps[i].sorted)
  }

  lemma {:induction false} HeadIsNewest(q: Queue, x: Transaction)
    requires NewestFirst(q) && x in q
    ensures x.createdAt <= q[0].createdAt
  {
    if x != q[0] {
      assert q == [q[0]] + q[1..];
      HeadIsNewest(q[1..], x);
    }
  }

  lemma NextBounded(s: State, limit: int, step: Step)
    requires Bounded(s, limit) && (step.Begin? ==> NewestFirst(step.sorted))
    ensures Bounded(Next(s, limit, step), limit)
  {
    if step.Retry? && s.pass.Retrying? && s.pass.todo != [] {
      RetryOrdered(s.pass, limit);
    }
  }

  /** Keeping or dropping the newest transaction left. */
  lemma RetryOrdered(p: Pass, limit: int)
    requires p.Retrying? && p.todo != [] && PassOrdered(p, limit)
    ensures var q := p.(todo := p.todo[1..]);
            && PassOrdered(q, limit)
            && (if |p.kept| < limit then PassOrdered(q.(kept := p.kept + [p.todo[0]]), limit)
                else PassOrdered(q.(full := p.full + [p.todo[0]]), limit))
  {
    forall x | x in p.todo[1..]
      ensures x.createdAt <= p.todo[0].createdAt
    {
      HeadIsNewest(p.todo, x);
    }
    assert p.todo[0] in p.todo;
  }

  lemma {:induction false} RunBounded(workers: nat, limit: int, steps: seq<Step>)
    requires Sorting(steps)
    ensures Bounded(Run(workers, limit, steps), limit)
  {
    if steps != [] {
      assert Sorting(steps[..|steps| - 1]);
      RunBounded(workers, limit, steps[..|steps| - 1]);
      NextBounded(Run(workers, limit, steps[..|steps| - 1]), limit, steps[|steps| - 1]);
    }
  }

  /** A pass that ends leaves at most limit transactions, none older than one it dropped for a full queue. */
  lemma PassKeepsNewest(workers: nat, limit: int, steps: seq<Step>)
    requires Sorting(steps)
    ensures var s := Run(workers, limit, steps);
            s.pass.Retrying? && s.pass.todo == [] ==>
              var retry := Next(s, limit, End).c.retry;
              && (retry == [] || |retry| <= limit) && NoNewer(s.pass.full, retry)
              && (s.pass.full != [] ==> |retry| >= limit)
  {
    RunBounded(workers, limit, steps);
  }

  // ---- how long the retry queue gets ----

  predicate EndsPass(s: State, step: Step) {
    step.End? && s.pass.Retrying? && s.pass.todo == []
  }

  predicate ReceivesOne(s: State, step: Step) {
    step.Receive? && s.pass.Idle? && s.c.requeued != []
  }

  /** How many transactions the last pass that ended kept. */
  ghost function KeptLast(workers: nat, limit: int, steps: seq<Step>): nat {
    if steps == [] then 0
    else
      var most, last := steps[..|steps| - 1], steps[|steps| - 1];
      var s := Run(workers, limit, most);
      if EndsPass(s, last) then |s.pass.kept| else KeptLast(workers, limit, most)
  }

  /** How many transactions the retry goroutine took since. */
  ghost function ReceivedSince(workers: nat, limit: int, steps: seq<Step>): nat {
    if steps == [] then 0
    else
      var most, last := steps[..|steps| - 1], steps[|steps| - 1];
      var s := Run(workers, limit, most);
      if EndsPass(s, last) then 0
      else ReceivedSince(workers, limit, most) + if ReceivesOne(s, last) then 1 else 0
  }

  /** How the length of the retry queue changes into a state without a pass. */
  lemma NextRetryLength(s: State, limit: int, step: Step)
    requires Next(s, limit, step).pass.Idle?
    ensures if EndsPass(s, step) then |Next(s, limit, step).c.retry| == |s.pass.kept|
            else s.pass.Idle?
                 && |Next(s, limit, step).c.retry| == |s.c.retry| + if ReceivesOne(s, step) then 1 else 0
  {
  }

  lemma {:induction false} RetryLength(workers: nat, limit: int, steps: seq<Step>)
    ensures var s := Run(workers, limit, steps);
            s.pass.Idle? ==> |s.c.retry| == KeptLast(workers, limit, steps) + ReceivedSince(workers, limit, steps)
  {
    if steps != [] && Run(workers, limit, steps).pass.Idle? {
      RetryLength(workers, limit, steps[..|steps| - 1]);
      NextRetryLength(Run(workers, limit, steps[..|steps| - 1]), limit, steps[|steps| - 1]);
    }
  }

  /** A pass never keeps more than the limit. */
  ghost predicate KeepsFew(p: Pass, limit: int) {
    p.Retrying? ==> p.kept == [] || |p.kept| <= limit
  }

  lemma NextKeepsFew(s: State, limit: int, step: Step)
    requires KeepsFew(s.pass, limit)
    ensures KeepsFew(Next(s, limit, step).pass, limit)
  {
  }

  lemma {:induction false} PassesKeepFew(workers: nat, limit: int, steps: seq<Step>)
    ensures KeepsFew(Run(workers, limit, steps).pass, limit)
    ensures KeptLast(workers, limit, steps) == 0 || KeptLast(workers, limit, steps) <= limit
  {
    if steps != [] {
      PassesKeepFew(workers, limit, steps[..|steps| - 1]);
      NextKeepsFew(Run(workers, limit, steps[..|steps| - 1]), limit, steps[|steps| - 1]);
    }
  }

  /** In every run, whenever no pass is running, the retry queue holds what the last pass kept, which is within the
      limit, and everything received since. So it respects the limit if and only if no more was received since than
      the last pass left room for. */
  lemma RetryQueueWithinLimit(workers: nat, limit: int, steps: seq<Step>)
    requires Run(workers, limit, steps).pass.Idle?
    ensures |Run(workers, limit, steps).c.retry| <= limit
       <==> ReceivedSince(workers, limit, steps) <= limit - KeptLast(workers, limit, steps)
    ensures limit >= 0 ==> KeptLast(workers, limit, steps) <= limit
    ensures limit >= 0 ==> |Run(workers, limit, steps).c.retry| <= limit + ReceivedSince(workers, limit, steps)
  {
    RetryLength(workers, limit, steps);
    PassesKeepFew(workers, limit, steps);
  }

  lemma RunSnoc(workers: nat, limit: int, steps: seq<Step>, a: Step)
    ensures Run(workers, limit, steps + [a]) == Next(Run(workers, limit, steps), limit, a)
  {
    assert (steps + [a])[..|steps|] == steps;
  }

  function Failing(n: nat): Queue {
    seq(n, i => Transaction(i, 0, ""))
  }

  /** A transaction is submitted, fails in the first worker and is handed back. */
  function WithFailure(steps: seq<Step>, t: Transaction): seq<Step> {
    steps + [Submit(t)] + [Poll(0)] + [Done(0, true)] + [Receive]
  }

  lemma WithFailureRun(workers: nat, limit: int, steps: seq<Step>, t: Transaction)
    ensures Run(workers, limit, WithFailure(steps, t))
         == Next(Next(Next(Next(Run(workers, limit, steps), limit, Submit(t)), limit, Poll(0)), limit, Done(0, true)),
                 limit, Receive)
  {
    RunSnoc(workers, limit, steps, Submit(t));
    RunSnoc(workers, limit, steps + [Submit(t)], Poll(0));
    RunSnoc(workers, limit, steps + [Submit(t)] + [Poll(0)], Done(0, true));
    RunSnoc(workers, limit, steps + [Submit(t)] + [Poll(0)] + [Done(0, true)], Receive);
  }

  lemma OneFailure(s: State, limit: int, t: Transaction)
    requires s.pass.Idle? && |s.workers| >= 1 && s.workers[0] == Polling && s.c.high == [] && s.c.requeued == []
    ensures Next(Next(Next(Next(s, limit, Submit(t)), limit, Poll(0)), limit, Done(0, true)), limit, Receive)
         == s.(c := s.c.(retry := s.c.retry + [t]))
  {
    assert s.workers[0 := Busy(t)][0 := Polling] == s.workers;
    assert [] + [t] == [t] && [t][1..] == [];
  }

  /** Nothing anywhere but in the retry queue. */
  function OnlyRetrying(workers: nat, q: Queue): State {
    Started(workers).(c := Channels([], [], [], q))
  }

  lemma OneMoreRetrying(workers: nat, limit: int, steps: seq<Step>, q: Queue, t: Transaction)
    requires workers >= 1 && Run(workers, limit, steps) == OnlyRetrying(workers, q)
    ensures Run(workers, limit, WithFailure(steps, t)) == OnlyRetrying(workers, q + [t])
  {
    WithFailureRun(workers, limit, steps, t);
    OneFailure(OnlyRetrying(workers, q), limit, t);
  }

  lemma {:induction false} Failures(workers: nat, limit: int, n: nat) returns (steps: seq<Step>)
    requires workers >= 1
    ensures Run(workers, limit, steps) == OnlyRetrying(workers, Failing(n))
  {
    if n == 0 {
      steps := [];
      assert Failing(0) == [];
    } else {
      var t := Transaction(n - 1, 0, "");
      var most := Failures(workers, limit, n - 1);
      OneMoreRetrying(workers, limit, most, Failing(n - 1), t);
      assert Failing(n - 1) + [t] == Failing(n);
      steps := WithFailure(most, t);
    }
  }

  /** Between passes the limit does not bind: for every limit some run exceeds it. */
  lemma RetryQueueExceedsLimit(workers: nat, limit: nat) returns (steps: seq<Step>)
    requires workers >= 1
    ensures var s := Run(workers, limit, steps); s.pass.Idle? && |s.c.retry| == limit + 1
  {
    steps := Failures(workers, limit, limit + 1);
  }

  // ---- one pass on its own ----

  /** A pass with no other goroutine in between: one verdict of the breaker per transaction. */
  ghost function PassRun(s: State, limit: int, verdicts: seq<bool>): State
    requires s.pass.Retrying? && |verdicts| == |s.pass.todo|
    decreases |verdicts|
  {
    if verdicts == [] then s else PassRun(RetryOne(s, limit, verdicts[0]), limit, verdicts[1..])
  }

  /** All places but those a pass sends to, keeps in or drops at. */
  predicate SameElsewhere(s: State, e: State) {
    && e.c.high == s.c.high && e.c.requeued == s.c.requeued && e.c.retry == s.c.retry && e.workers == s.workers
    && e.gone.finished == s.gone.finished && e.gone.onInput == s.gone.onInput && e.gone.onRequeue == s.gone.onRequeue
  }

  /** How often t is in a place where a pass puts transactions. */
  ghost function Dealt(s: State, t: Transaction): nat
    requires s.pass.Retrying?
  {
    In(s.c.low, t) + In(s.gone.workerBusy, t) + In(s.pass.kept, t) + In(s.gone.queueFull, t)
  }

  /** Nothing leaves the places where a pass puts transactions. */
  predicate Grown(s: State, e: State)
    requires s.pass.Retrying? && e.pass.Retrying?
  {
    && s.c.low <= e.c.low && s.gone.workerBusy <= e.gone.workerBusy
    && s.pass.kept <= e.pass.kept && s.gone.queueFull <= e.gone.queueFull && s.pass.full <= e.pass.full
  }

  lemma RetryDeals(s: State, limit: int, blocked: bool, t: Transaction)
    requires s.pass.Retrying? && s.pass.todo != []
    ensures var e := RetryOne(s, limit, blocked);
            && e.pass.Retrying? && e.pass.todo == s.pass.todo[1..] && SameElsewhere(s, e) && Grown(s, e)
            && Dealt(e, t) == Dealt(s, t) + One(s.pass.todo[0], t)
  {
    var x := s.pass.todo[0];
    if !blocked {
      if |s.c.low| < CHAN_BUFFER_SIZE {
        InSnoc(s.c.low, x, t);
      } else {
        InSnoc(s.gone.workerBusy, x, t);
      }
    } else if |s.pass.kept| < limit {
      InSnoc(s.pass.kept, x, t);
    } else {
      InSnoc(s.gone.queueFull, x, t);
    }
  }

  /** One pass over the rest of its transactions sends, keeps or drops each of them once, and touches nothing else:
      what it sends, finds the workers busy for, keeps and drops grows by exactly the transactions it had left. */
  lemma {:induction false} PassRunHolds(s: State, limit: int, verdicts: seq<bool>, t: Transaction)
    requires s.pass.Retrying? && |verdicts| == |s.pass.todo|
    ensures var e := PassRun(s, limit, verdicts);
            && e.pass.Retrying? && e.pass.todo == [] && SameElsewhere(s, e) && Grown(s, e)
            && Dealt(e, t) == Dealt(s, t) + In(s.pass.todo, t)
    decreases |verdicts|
  {
    if verdicts != [] {
      RetryDeals(s, limit, verdicts[0], t);
      PassRunHolds(RetryOne(s, limit, verdicts[0]), limit, verdicts[1..], t);
    }
  }

  /** The channels stay bounded and the newest are kept; what was dropped for a full queue is among the dropped. */
  lemma {:induction false} PassRunBounded(s: State, limit: int, verdicts: seq<bool>, base: Queue)
    requires s.pass.Retrying? && |verdicts| == |s.pass.todo|
    requires Bounded(s, limit) && s.gone.queueFull == base + s.pass.full
    ensures var e := PassRun(s, limit, verdicts);
            Bounded(e, limit) && e.pass.Retrying? && e.gone.queueFull == base + e.pass.full
    decreases |verdicts|
  {
    if verdicts != [] {
      assert RetryOne(s, limit, verdicts[0]) == Next(s, limit, Retry(verdicts[0]));
      NextBounded(s, limit, Retry(verdicts[0]));
      PassRunBounded(RetryOne(s, limit, verdicts[0]), limit, verdicts[1..], base);
    }
  }

  /** A whole pass: begun on the sorted retry queue, run with one verdict per transaction, and ended. */
  ghost function WholePass(s: State, limit: int, sorted: Queue, verdicts: seq<bool>): State
    requires s.pass.Idle? && multiset(sorted) == multiset(s.c.retry) && |verdicts| == |sorted|
  {
    Next(PassRun(Next(s, limit, Begin(sorted)), limit, verdicts), limit, End)
  }

  /** What the pass puts into each place, in order. */
  datatype Dealing = Dealing(sent: Queue, busy: Queue, kept: Queue, dropped: Queue)

  /** The transactions with this verdict, in order. */
  ghost function With(q: Queue, verdicts: seq<bool>, blocked: bool): Queue
    requires |q| == |verdicts|
  {
    if q == [] then []
    else (if verdicts[0] == blocked then [q[0]] else []) + With(q[1..], verdicts[1..], blocked)
  }

  ghost predicate Deals(s: State, e: State, g: Dealing) {
    && e.c.low == s.c.low + g.sent && e.gone.workerBusy == s.gone.workerBusy + g.busy
    && e.c.retry == g.kept && e.gone.queueFull == s.gone.queueFull + g.dropped
    && e.c.high == s.c.high && e.c.requeued == s.c.requeued && e.workers == s.workers && e.pass == s.pass
    && e.gone.finished == s.gone.finished && e.gone.onInput == s.gone.onInput && e.gone.onRequeue == s.gone.onRequeue
  }

  /** What the rest of a pass deals out. */
  ghost predicate DealsRest(s: State, e: State, g: Dealing)
    requires s.pass.Retrying? && e.pass.Retrying?
  {
    && e.c.low == s.c.low + g.sent && e.gone.workerBusy == s.gone.workerBusy + g.busy
    && e.pass.kept == s.pass.kept + g.kept && e.gone.queueFull == s.gone.queueFull + g.dropped
  }

  /** Places fill up in order: nothing is sent once the workers' queue is full, nothing kept once the limit is
      reached, and nothing refused or dropped before. */
  ghost predicate InOrder(low: int, kept: int, limit: int, g: Dealing) {
    && (low >= CHAN_BUFFER_SIZE ==> g.sent == []) && (g.busy != [] ==> low + |g.sent| >= CHAN_BUFFER_SIZE)
    && (kept >= limit ==> g.kept == []) && (g.dropped != [] ==> kept + |g.kept| >= limit)
  }

  /** One more transaction in front of what the rest deals out. */
  function DealFirst(t: Transaction, blocked: bool, low: int, kept: int, limit: int, g: Dealing): Dealing {
    if !blocked then
      if low < CHAN_BUFFER_SIZE then g.(sent := [t] + g.sent) else g.(busy := [t] + g.busy)
    else if kept < limit then g.(kept := [t] + g.kept) else g.(dropped := [t] + g.dropped)
  }

  lemma DealFirstHolds(s: State, e: State, limit: int, blocked: bool, g: Dealing)
    requires s.pass.Retrying? && s.pass.todo != [] && e.pass.Retrying?
    requires DealsRest(RetryOne(s, limit, blocked), e, g)
    ensures DealsRest(s, e, DealFirst(s.pass.todo[0], blocked, |s.c.low|, |s.pass.kept|, limit, g))
  {
    var t := s.pass.todo[0];
    SnocCons(s.c.low, t, g.sent);
    SnocCons(s.gone.workerBusy, t, g.busy);
    SnocCons(s.pass.kept, t, g.kept);
    SnocCons(s.gone.queueFull, t, g.dropped);
  }

  lemma SnocCons(a: Queue, t: Transaction, b: Queue)
    ensures (a + [t]) + b == a + ([t] + b)
  {
  }

  lemma FirstInOrder(t: Transaction, blocked: bool, low: int, kept: int, limit: int, g: Dealing, a: Queue, b: Queue)
    requires g.sent + g.busy == a && g.kept + g.dropped == b
    requires InOrder(low + (if !blocked && low < CHAN_BUFFER_SIZE then 1 else 0),
                     kept + (if blocked && kept < limit then 1 else 0), limit, g)
    ensures var h := DealFirst(t, blocked, low, kept, limit, g);
            && InOrder(low, kept, limit, h)
            && h.sent + h.busy == (if blocked then [] else [t]) + a
            && h.kept + h.dropped == (if blocked then [t] else []) + b
  {
  }

  /** The rest of a pass sends the transactions that are not blocked while the workers' queue has room, keeps the
      blocked ones while the limit allows, and refuses or drops the others: all in order. */
  lemma {:induction false} PassDeals(s: State, limit: int, verdicts: seq<bool>) returns (g: Dealing)
    requires s.pass.Retrying? && |verdicts| == |s.pass.todo|
    ensures PassRun(s, limit, verdicts).pass.Retrying?
    ensures DealsRest(s, PassRun(s, limit, verdicts), g)
    ensures g.sent + g.busy == With(s.pass.todo, verdicts, false)
    ensures g.kept + g.dropped == With(s.pass.todo, verdicts, true)
    ensures InOrder(|s.c.low|, |s.pass.kept|, limit, g)
    decreases |verdicts|
  {
    if verdicts == [] {
      g := Dealing([], [], [], []);
    } else {
      var first, next := s.pass.todo[0], RetryOne(s, limit, verdicts[0]);
      var rest := PassDeals(next, limit, verdicts[1..]);
      g := DealFirst(first, verdicts[0], |s.c.low|, |s.pass.kept|, limit, rest);
      DealFirstHolds(s, PassRun(s, limit, verdicts), limit, verdicts[0], rest);
      FirstInOrder(first, verdicts[0], |s.c.low|, |s.pass.kept|, limit, rest,
                   With(next.pass.todo, verdicts[1..], false), With(next.pass.todo, verdicts[1..], true));
    }
  }

  lemma {:induction false} WithPartitions(q: Queue, verdicts: seq<bool>)
    requires |q| == |verdicts|
    ensures multiset(With(q, verdicts, false)) + multiset(With(q, verdicts, true)) == multiset(q)
  {
    if q != [] {
      WithPartitions(q[1..], verdicts[1..]);
      assert q == [q[0]] + q[1..];
    }
  }

  /** One retry pass deals the newest-first retry queue out by the breaker's verdicts: the transactions that are not
      blocked are sent to the workers, in order, until their queue is full, and the others of them dropped; the
      blocked ones are kept, in order, up to the limit, and the others of them dropped. Nothing is lost or
      duplicated, no other place changes, and none dropped for a full queue is newer than one kept. */
  lemma PassPartitions(s: State, limit: int, sorted: Queue, verdicts: seq<bool>) returns (g: Dealing)
    requires s.pass.Idle? && multiset(sorted) == multiset(s.c.retry) && |verdicts| == |sorted|
    requires Bounded(s, limit) && NewestFirst(sorted)
    ensures Deals(s, WholePass(s, limit, sorted, verdicts), g)
    ensures g.sent + g.busy == With(sorted, verdicts, false) && g.kept + g.dropped == With(sorted, verdicts, true)
    ensures multiset(g.sent) + multiset(g.busy) + multiset(g.kept) + multiset(g.dropped) == multiset(s.c.retry)
    ensures g.busy != [] ==> |s.c.low| + |g.sent| == CHAN_BUFFER_SIZE
    ensures (g.kept == [] || |g.kept| <= limit) && (g.dropped != [] ==> |g.kept| >= limit)
    ensures NoNewer(g.dropped, g.kept)
  {
    var b := Next(s, limit, Begin(sorted));
    g := PassDeals(b, limit, verdicts);
    PassBounds(b, limit, verdicts, g, s.gone.queueFull);
    WithPartitions(sorted, verdicts);
    PartsMultiset(g, With(sorted, verdicts, false), With(sorted, verdicts, true));
  }

  lemma PassBounds(b: State, limit: int, verdicts: seq<bool>, g: Dealing, base: Queue)
    requires b.pass.Retrying? && |verdicts| == |b.pass.todo| && b.pass.kept == [] && b.pass.full == []
    requires Bounded(b, limit) && b.gone.queueFull == base
    requires PassRun(b, limit, verdicts).pass.Retrying? && DealsRest(b, PassRun(b, limit, verdicts), g)
    ensures var e := PassRun(b, limit, verdicts);
            && e.pass.todo == [] && SameElsewhere(b, e) && g.kept == e.pass.kept && |e.c.low| <= CHAN_BUFFER_SIZE
    ensures (g.kept == [] || |g.kept| <= limit) && NoNewer(g.dropped, g.kept)
  {
    PassRunBounded(b, limit, verdicts, base);
    PassRunHolds(b, limit, verdicts, Transaction(0, 0, ""));
    SameSuffix(base, g.dropped, PassRun(b, limit, verdicts).pass.full);
  }

  lemma SameSuffix(a: Queue, b: Queue, c: Queue)
    requires a + b == a + c
    ensures b == c
  {
    assert (a + b)[|a|..] == b && (a + c)[|a|..] == c;
  }

  lemma PartsMultiset(g: Dealing, a: Queue, b: Queue)
    requires g.sent + g.busy == a && g.kept + g.dropped == b
    ensures multiset(g.sent) + multiset(g.busy) + multiset(g.kept) + multiset(g.dropped) == multiset(a) + multiset(b)
  {
  }

  class DomainForwarder {
    const retryQueueLimit: int
    var highPrio: Queue
    var lowPrio: Queue
    var requeuedTransaction: Queue
    var retryQueue: Queue
    ghost var gone: Gone
    var workers: seq<Worker>

    ghost function Contents(): State
      reads this
    {
      State(Channels(highPrio, lowPrio, requeuedTransaction, retryQueue), Idle, workers, gone)
    }

    constructor (limit: int, n: nat)
      ensures Contents() == Started(n) && retryQueueLimit == limit
    {
      retryQueueLimit := limit;
      highPrio, lowPrio, requeuedTransaction, retryQueue := [], [], [], [];
      gone := Gone([], [], [], [], []);
      workers := Started(n).workers;
    }

    method SendHTTPTransactions(t: Transaction) returns (ok: bool)
      modifies this
      ensures Contents() == Next(old(Contents()), retryQueueLimit, Submit(t))
      ensures ok == (|old(highPrio)| < CHAN_BUFFER_SIZE)
    {
      if |highPrio| < CHAN_BUFFER_SIZE {
        highPrio := highPrio + [t];
        return true;
      }
      gone := gone.(onInput := gone.onInput + [t]);
      return false;
    }

    method RequeueTransaction()
      requires requeuedTransaction != []
      modifies this
      ensures Contents() == Next(old(Contents()), retryQueueLimit, Receive)
    {
      var t := requeuedTransaction[0];
      requeuedTransaction := requeuedTransaction[1..];
      retryQueue := retryQueue + [t];
    }

    /** The first select of the worker loop: a high-priority transaction if there is one, otherwise on to the second. */
    method FirstSelect(w: nat)
      requires w < |workers| && workers[w] == Polling
      modifies this
      ensures Contents() == Next(old(Contents()), retryQueueLimit, Poll(w))
    {
      if |highPrio| > 0 {
        workers := workers[w := Busy(highPrio[0])];
        highPrio := highPrio[1..];
      } else {
        workers := workers[w := Waiting];
      }
    }

    /** The second select of the worker loop: whichever of the two queues is ready. */
    method SecondSelect(w: nat, fromLow: bool)
      requires w < |workers| && workers[w] == Waiting && if fromLow then lowPrio != [] else highPrio != []
      modifies this
      ensures Contents() == Next(old(Contents()), retryQueueLimit, Wake(w, fromLow))
    {
      if fromLow {
        workers := workers[w := Busy(lowPrio[0])];
        lowPrio := lowPrio[1..];
      } else {
        workers := workers[w := Busy(highPrio[0])];
        highPrio := highPrio[1..];
      }
    }

    /** process: a worker runs its transaction through the breaker and hands it back unless it went through. */
    method Process(w: nat, breaker: Backoff.BlockedEndpoints, failed: bool, now: real, draw: real)
      requires w < |workers| && workers[w].Busy? && Backoff.Valid(breaker.c)
      modifies this, breaker
      ensures var t := old(workers[w].t);
              var blocked := Backoff.Blocked(old(breaker.errorPerEndpoint), t.target, now);
              && Contents() == Next(old(Contents()), retryQueueLimit, Done(w, blocked || failed))
              && breaker.errorPerEndpoint ==
                 (if blocked then old(breaker.errorPerEndpoint)
                  else Backoff.Step(breaker.c, old(breaker.errorPerEndpoint),
                                    Backoff.Event(failed, t.target, now, draw)))
    {
      var t := workers[w].t;
      workers := workers[w := Polling];
      var blocked := breaker.IsBlock(t.target, now);
      if blocked {
        Requeue(t);
      } else if failed {
        breaker.Close(t.target, now, draw);
        Requeue(t);
      } else {
        breaker.Recover(t.target, now, draw);
        gone := gone.(finished := gone.finished + [t]);
      }
    }

    /** The worker's non-blocking send to the retry goroutine. */
    method Requeue(t: Transaction)
      modifies this`requeuedTransaction, this`gone
      ensures if |old(requeuedTransaction)| < CHAN_BUFFER_SIZE
              then requeuedTransaction == old(requeuedTransaction) + [t] && gone == old(gone)
              else requeuedTransaction == old(requeuedTransaction)
                   && gone == old(gone).(onRequeue := old(gone).onRequeue + [t])
    {
      if |requeuedTransaction| < CHAN_BUFFER_SIZE {
        requeuedTransaction := requeuedTransaction + [t];
      } else {
        gone := gone.(onRequeue := gone.onRequeue + [t]);
      }
    }

    /** retryTransactions: the queue is sorted newest first and every transaction sent, kept or dropped. */
    method RetryTransactions(verdicts: seq<bool>) returns (ghost sorted: Queue)
      requires |verdicts| == |retryQueue|
      modifies this
      ensures NewestFirst(sorted) && multiset(sorted) == multiset(old(retryQueue)) && |sorted| == |verdicts|
      ensures Contents() == WholePass(old(Contents()), retryQueueLimit, sorted, verdicts)
    {
      var queue := SortNewestFirst(retryQueue);
      sorted := queue;
      SameLength(sorted, retryQueue);
      var newQueue := [];
      ghost var s := Next(Contents(), retryQueueLimit, Begin(sorted));
      ghost var goal := PassRun(s, retryQueueLimit, verdicts);
      for i := 0 to |queue|
        invariant s.pass.Retrying? && s.pass.todo == queue[i..] && s.pass.kept == newQueue
        invariant s.c == Channels(highPrio, lowPrio, requeuedTransaction, [])
        invariant s.gone == gone && s.workers == workers
        invariant PassRun(s, retryQueueLimit, verdicts[i..]) == goal
      {
        var t := queue[i];
        assert queue[i..][1..] == queue[i + 1..] && verdicts[i..][1..] == verdicts[i + 1..];
        s := RetryOne(s, retryQueueLimit, verdicts[i]);
        if !verdicts[i] {
          if |lowPrio| < CHAN_BUFFER_SIZE {
            lowPrio := lowPrio + [t];
          } else {
            gone := gone.(workerBusy := gone.workerBusy + [t]);
          }
        } else if |newQueue| < retryQueueLimit {
          newQueue := newQueue + [t];
        } else {
          gone := gone.(queueFull := gone.queueFull + [t]);
        }
      }
      retryQueue := newQueue;
    }
  }

  function InsertByAge(q: Queue, t: Transaction): Queue {
    if q == [] || t.createdAt >= q[0].createdAt then [t] + q else [q[0]] + InsertByAge(q[1..], t)
  }

  lemma {:induction false} InsertByAgeHolds(q: Queue, t: Transaction)
    requires NewestFirst(q)
    ensures NewestFirst(InsertByAge(q, t)) && multiset(InsertByAge(q, t)) == multiset(q) + multiset{t}
  {
    if q == [] || t.createdAt >= q[0].createdAt {
      assert ([t] + q)[1..] == q;
    } else {
      InsertByAgeHolds(q[1..], t);
      assert q == [q[0]] + q[1..];
      assert ([q[0]] + InsertByAge(q[1..], t))[1..] == InsertByAge(q[1..], t);
    }
  }

  method SortNewestFirst(q: Queue) returns (sorted: Queue)
    ensures NewestFirst(sorted) && multiset(sorted) == multiset(q)
  {
    sorted := [];
    for i := 0 to |q|
      invariant NewestFirst(sorted) && multiset(sorted) == multiset(q[..i])
    {
      InsertByAgeHolds(sorted, q[i]);
      PrefixMultiset(q, i);
      sorted := InsertByAge(sorted, q[i]);
    }
    assert q[..|q|] == q;
  }
}
