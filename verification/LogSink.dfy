/**
 The log sink (applog.go): a bounded queue under a mutex, a worker that takes the
 whole queue at a tick and once more when told to stop, and a close that lets
 nothing accepted be left behind. Every step below is one critical section or one
 delivery, so all interleavings of callers and worker are covered.
 */
module LogSink {

  datatype Phase<P> =
    | Idle
    | Sending(batch: seq<P>, last: bool)
    | Finished

  datatype State<P> = State(
    maxQueue: nat,
    queue: seq<P>,
    closed: bool,
    stopped: bool,
    phase: Phase<P>,
    sent: nat,
    failed: nat,
    dropped: nat,
    // history: calls, lines that Handle turned away silently, what was taken in, what was posted
    offered: nat,
    ignored: nat,
    accepted: seq<P>,
    posted: seq<P>)

  function Init<P>(maxQueue: nat): State<P> {
    State(maxQueue, [], false, false, Idle, 0, 0, 0, 0, 0, [], [])
  }

  datatype Event<P> =
    | Enqueue(p: P)
    | Handle(p: P)
    | MarkClosed
    | SignalStop
    | Flush
    | FlushAndReturn
    | Delivered(ok: bool)

  predicate Enabled<P>(s: State<P>, e: Event<P>) {
    match e
    case SignalStop => s.closed && !s.stopped
    case Flush => s.phase.Idle?
    case FlushAndReturn => s.phase.Idle? && s.stopped
    case Delivered(_) => s.phase.Sending?
    case _ => true
  }

  /** Queue or drop, as `enqueue` and `Handle` both do while the sink is open. */
  function Accept<P>(s: State<P>, p: P): State<P> {
    if |s.queue| >= s.maxQueue then s.(dropped := s.dropped + 1)
    else s.(queue := s.queue + [p], accepted := s.accepted + [p])
  }

  /** The first half of `flush`: the queue is taken under the lock. */
  function Take<P>(s: State<P>, last: bool): State<P> {
    if s.queue == [] then s.(phase := if last then Finished else Idle)
    else s.(queue := [], phase := Sending(s.queue, last))
  }

  function Next<P>(s: State<P>, e: Event<P>): State<P>
    requires Enabled(s, e)
  {
    match e
    case Enqueue(p) =>
      var t := s.(offered := s.offered + 1);
      if s.closed then t.(dropped := t.dropped + 1) else Accept(t, p)
    case Handle(p) =>
      var t := s.(offered := s.offered + 1);
      if s.closed then t.(ignored := t.ignored + 1) else Accept(t, p)
    case MarkClosed => s.(closed := true)
    case SignalStop => s.(stopped := true)
    case Flush => Take(s, false)
    case FlushAndReturn => Take(s, true)
    case Delivered(ok) =>
      var n := |s.phase.batch|;
      s.(posted := s.posted + s.phase.batch,
         sent := s.sent + if ok then n else 0, failed := s.failed + if ok then 0 else n,
         phase := if s.phase.last then Finished else Idle)
  }

  function InFlight<P>(s: State<P>): seq<P> {
    if s.phase.Sending? then s.phase.batch else []
  }

  ghost predicate Inv<P>(s: State<P>) {
    && |s.queue| <= s.maxQueue
    && s.posted + InFlight(s) + s.queue == s.accepted
    && s.offered == |s.accepted| + s.dropped + s.ignored
    && s.sent + s.failed == |s.posted|
    && (s.stopped ==> s.closed)
    && (s.phase.Finished? || (s.phase.Sending? && s.phase.last) ==> s.stopped && s.queue == [])
    && (s.phase.Sending? ==> s.phase.batch != [])
  }

  lemma {:induction false} NextKeepsInv<P>(s: State<P>, e: Event<P>)
    requires Inv(s) && Enabled(s, e)
    ensures Inv(Next(s, e))
  {
    var t := Next(s, e);
    match e
    case Enqueue(p) => assert !s.closed ==> s.posted + InFlight(s) + (s.queue + [p]) == s.accepted + [p];
    case Handle(p) => assert !s.closed ==> s.posted + InFlight(s) + (s.queue + [p]) == s.accepted + [p];
    case Delivered(_) => assert t.posted + InFlight(t) + t.queue == s.posted + InFlight(s) + s.queue;
    case _ =>
  }

  ghost predicate Executable<P>(s: State<P>, es: seq<Event<P>>)
    decreases |es|
  {
    es == [] || (Enabled(s, es[0]) && Executable(Next(s, es[0]), es[1..]))
  }

  ghost function Run<P>(s: State<P>, es: seq<Event<P>>): State<P>
    requires Executable(s, es)
    decreases |es|
  {
    if es == [] then s else Run(Next(s, es[0]), es[1..])
  }

  lemma {:induction false} RunKeepsInv<P>(s: State<P>, es: seq<Event<P>>)
    requires Inv(s) && Executable(s, es)
    ensures Inv(Run(s, es))
    decreases |es|
  {
    if es != [] {
      NextKeepsInv(s, es[0]);
      RunKeepsInv(Next(s, es[0]), es[1..]);
    }
  }

  function Offers<P>(es: seq<Event<P>>): nat {
    if es == [] then 0 else (if es[0].Enqueue? || es[0].Handle? then 1 else 0) + Offers(es[1..])
  }

  /** Lines handed to `Handle` once the sink is marked closed. */
  function LateLines<P>(es: seq<Event<P>>, closed: bool): nat {
    if es == [] then 0
    else (if es[0].Handle? && closed then 1 else 0) + LateLines(es[1..], closed || es[0].MarkClosed?)
  }

  lemma {:induction false} CountsAreCalls<P>(s: State<P>, es: seq<Event<P>>)
    requires Executable(s, es)
    ensures Run(s, es).offered == s.offered + Offers(es)
    ensures Run(s, es).ignored == s.ignored + LateLines(es, s.closed)
    decreases |es|
  {
    if es != [] {
      CountsAreCalls(Next(s, es[0]), es[1..]);
    }
  }

  /** In every state of every run the queue keeps its bound and the five numbers
      account for everything offered, if and only if no line was handed to
      `Handle` after close: those alone vanish uncounted. */
  lemma {:induction false} EveryRunConserves<P>(maxQueue: nat, es: seq<Event<P>>)
    requires Executable(Init(maxQueue), es)
    ensures var s := Run(Init(maxQueue), es);
            && |s.queue| <= s.maxQueue
            && Offers(es) == s.sent + s.failed + s.dropped + |s.queue| + |InFlight(s)| + LateLines(es, false)
            && (Offers(es) == s.sent + s.failed + s.dropped + |s.queue| + |InFlight(s)| <==> LateLines(es, false) == 0)
            && s.posted <= s.accepted
  {
    RunKeepsInv<P>(Init(maxQueue), es);
    CountsAreCalls<P>(Init(maxQueue), es);
  }

  /** Once the worker has finished, everything accepted was posted, in order, and
      whatever callers still do, the queue stays empty. */
  lemma {:induction false} NothingStranded<P>(maxQueue: nat, es: seq<Event<P>>, later: seq<Event<P>>)
    requires Executable(Init(maxQueue), es) && Run<P>(Init(maxQueue), es).phase.Finished?
    requires Executable(Run(Init(maxQueue), es), later)
    ensures var s, t := Run(Init(maxQueue), es), Run(Run(Init(maxQueue), es), later);
            s.queue == [] && s.posted == s.accepted &&
            t.phase.Finished? && t.queue == [] && t.posted == s.posted && t.accepted == s.accepted
  {
    RunKeepsInv<P>(Init(maxQueue), es);
    FinishedStays(Run(Init(maxQueue), es), later);
  }

  lemma {:induction false} FinishedStays<P>(s: State<P>, es: seq<Event<P>>)
    requires Inv(s) && s.phase.Finished? && Executable(s, es)
    ensures var t := Run(s, es); t.phase.Finished? && t.queue == [] && t.posted == s.posted && t.accepted == s.accepted
    decreases |es|
  {
    if es != [] {
      NextKeepsInv(s, es[0]);
      FinishedStays(Next(s, es[0]), es[1..]);
    }
  }

  /** One line handed to `Handle` after close is lost without a trace. */
  lemma {:induction false} LateLineVanishes<P>(maxQueue: nat, p: P)
    ensures var es: seq<Event<P>> := [MarkClosed, Handle(p)];
            Executable(Init(maxQueue), es) && Offers(es) == 1 &&
            var s := Run(Init(maxQueue), es);
            s.sent == s.failed == s.dropped == 0 && s.queue == [] && InFlight(s) == []
  {
    var s0: State<P> := Init(maxQueue);
    var es: seq<Event<P>> := [MarkClosed, Handle(p)];
    var s1 := Next(s0, es[0]);
    var s2 := Next(s1, es[1]);
    assert es[1..] == [Handle(p)] && es[1..][1..] == [];
    assert Offers(es[1..]) == 1 + Offers(es[1..][1..]) == 1;
    assert Executable(s2, []) && Run(s2, []) == s2;
    assert Executable(s1, es[1..]) && Run(s1, es[1..]) == s2;
  }

  // --------------------------------------- what is accepted, and what counts

  /** An open sink with room takes the payload. */
  predicate TakesIn<P>(s: State<P>, e: Event<P>) {
    (e.Enqueue? || e.Handle?) && !s.closed && |s.queue| < s.maxQueue
  }

  /** A full sink drops it; so does a closed one, but not a line from `Handle`. */
  predicate Drops<P>(s: State<P>, e: Event<P>) {
    (e.Enqueue? && (s.closed || |s.queue| >= s.maxQueue)) || (e.Handle? && !s.closed && |s.queue| >= s.maxQueue)
  }

  ghost function Admitted<P>(s: State<P>, es: seq<Event<P>>): seq<P>
    requires Executable(s, es)
    decreases |es|
  {
    if es == [] then [] else (if TakesIn(s, es[0]) then [es[0].p] else []) + Admitted(Next(s, es[0]), es[1..])
  }

  ghost function Refused<P>(s: State<P>, es: seq<Event<P>>): nat
    requires Executable(s, es)
    decreases |es|
  {
    if es == [] then 0 else (if Drops(s, es[0]) then 1 else 0) + Refused(Next(s, es[0]), es[1..])
  }

  /** How many payloads are posted in a run with the given outcome. */
  ghost function Answered<P>(s: State<P>, es: seq<Event<P>>, ok: bool): nat
    requires Executable(s, es)
    decreases |es|
  {
    if es == [] then 0
    else
      (if es[0].Delivered? && es[0].ok == ok && s.phase.Sending? then |s.phase.batch| else 0) +
      Answered(Next(s, es[0]), es[1..], ok)
  }

  lemma {:induction false} StepCounts<P>(s: State<P>, e: Event<P>)
    requires Enabled(s, e)
    ensures var t := Next(s, e);
            && t.accepted == s.accepted + (if TakesIn(s, e) then [e.p] else [])
            && t.dropped == s.dropped + (if Drops(s, e) then 1 else 0)
            && t.sent == s.sent + (if e.Delivered? && e.ok then |s.phase.batch| else 0)
            && t.failed == s.failed + (if e.Delivered? && !e.ok then |s.phase.batch| else 0)
  {
  }

  /** Over every run: what is accepted is, in order, exactly what found the sink open
      and with room; the drop counter counts exactly the refusals; `sent` and `failed`
      count exactly what was posted with that outcome. */
  lemma {:induction false} CountersMean<P>(s: State<P>, es: seq<Event<P>>)
    requires Executable(s, es)
    ensures var t := Run(s, es);
            && t.accepted == s.accepted + Admitted(s, es)
            && t.dropped == s.dropped + Refused(s, es)
            && t.sent == s.sent + Answered(s, es, true)
            && t.failed == s.failed + Answered(s, es, false)
    decreases |es|
  {
    if es != [] {
      StepCounts(s, es[0]);
      CountersMean(Next(s, es[0]), es[1..]);
    }
  }

  /** A flush takes the whole queue. */
  lemma {:induction false} FlushTakesAll<P>(s: State<P>, e: Event<P>)
    requires Enabled(s, e) && (e.Flush? || e.FlushAndReturn?)
    ensures Next(s, e).queue == [] && InFlight(Next(s, e)) == s.queue
  {
  }

  // ------------------------------------------------------------ after the stop

  /** Steps of the worker that are not ticks. */
  predicate Progress<P>(e: Event<P>) {
    e.FlushAndReturn? || e.Delivered?
  }

  function ProgressIn<P>(es: seq<Event<P>>): nat {
    if es == [] then 0 else (if Progress(es[0]) then 1 else 0) + ProgressIn(es[1..])
  }

  /** How many such steps a stopped worker can still take; a tick may spend the
      queue, but never adds to them. */
  function Remaining<P>(s: State<P>): nat {
    match s.phase
    case Finished => 0
    case Idle => if s.queue == [] then 1 else 2
    case Sending(_, last) => if last then 1 else if s.queue == [] then 2 else 3
  }

  lemma {:induction false} StoppedStep<P>(s: State<P>, e: Event<P>)
    requires Inv(s) && s.stopped && Enabled(s, e)
    ensures Next(s, e).stopped
    ensures (if Progress(e) then 1 else 0) + Remaining(Next(s, e)) <= Remaining(s)
  {
  }

  /** Over every run after the stop signal, whatever callers and ticks do in it: the
      worker takes at most three steps besides ticks, and as long as it has not
      finished the next one is possible. */
  lemma {:induction false} StopIsHeeded<P>(s: State<P>, es: seq<Event<P>>)
    requires Inv(s) && s.stopped && Executable(s, es)
    ensures var t := Run(s, es);
            && ProgressIn(es) + Remaining(t) <= Remaining(s) <= 3
            && (!t.phase.Finished? ==> Enabled<P>(t, FlushAndReturn) || Enabled<P>(t, Delivered(true)))
    decreases |es|
  {
    if es != [] {
      NextKeepsInv(s, es[0]);
      StoppedStep(s, es[0]);
      StopIsHeeded(Next(s, es[0]), es[1..]);
    } else {
      assert s.stopped;
    }
  }

  ghost predicate Drained<P>(s: State<P>) {
    s.phase.Finished? && s.queue == [] && s.posted == s.accepted
  }

  /** A run to the stop signal and on: once the worker has taken three steps besides
      ticks, or as few as it had left, everything accepted has been posted. */
  lemma {:induction false} StoppedWorkerDrains<P>(maxQueue: nat, es: seq<Event<P>>, later: seq<Event<P>>)
    requires Executable(Init(maxQueue), es) && Run<P>(Init(maxQueue), es).stopped
    requires Executable(Run(Init(maxQueue), es), later)
    ensures ProgressIn(later) <= 3
    ensures ProgressIn(later) >= Remaining(Run<P>(Init(maxQueue), es)) ==>
              Drained(Run(Run(Init(maxQueue), es), later))
  {
    var s := Run<P>(Init(maxQueue), es);
    RunKeepsInv<P>(Init(maxQueue), es);
    StopIsHeeded(s, later);
    RunKeepsInv(s, later);
  }

  /** The sink with its fields as the program has them. */
  class Sink<P> {
    const maxQueue: nat
    var queue: seq<P>
    var closed: bool
    var stopped: bool
    var phase: Phase<P>
    var sent: nat
    var failed: nat
    var dropped: nat
    ghost var offered: nat
    ghost var ignored: nat
    ghost var accepted: seq<P>
    ghost var posted: seq<P>

    constructor (maxQueue: nat)
      ensures Valid() && Current() == Init(maxQueue)
    {
      this.maxQueue := maxQueue;
      queue, closed, stopped, phase, sent, failed, dropped := [], false, false, Idle, 0, 0, 0;
      offered, ignored, accepted, posted := 0, 0, [], [];
    }

    ghost function Current(): State<P>
      reads this
    {
      State(maxQueue, queue, closed, stopped, phase, sent, failed, dropped, offered, ignored, accepted, posted)
    }

    /** The invariant of every run: it is all that the results below need. */
    ghost predicate Valid()
      reads this
    {
      Inv(Current())
    }

    /** The counters account for every call; the queue keeps its bound. */
    lemma Accounts()
      requires Valid()
      ensures |queue| <= maxQueue
      ensures offered == sent + failed + dropped + |queue| + |InFlight(Current())| + ignored
    {
    }

    /** When the worker has finished, everything accepted has been posted, in order. */
    lemma FinishedMeansPosted()
      requires Valid() && phase.Finished?
      ensures queue == [] && posted == accepted && sent + failed == |accepted|
    {
    }

    /** `enqueue`: a closed sink drops and counts. */
    method EnqueuePayload(p: P)
      requires Valid()
      modifies this
      ensures Valid() && Current() == Next(old(Current()), Enqueue(p))
      ensures !closed && old(|queue|) < maxQueue ==> queue == old(queue) + [p] && dropped == old(dropped)
      ensures closed || old(|queue|) >= maxQueue ==> queue == old(queue) && dropped == old(dropped) + 1
    {
      NextKeepsInv(Current(), Enqueue(p));
      offered := offered + 1;
      if closed {
        dropped := dropped + 1;
        return;
      }
      if |queue| >= maxQueue {
        dropped := dropped + 1;
        return;
      }
      queue, accepted := queue + [p], accepted + [p];
    }

    /** The tail of `Handle`: a closed sink ignores the line. */
    method HandleLine(p: P)
      requires Valid()
      modifies this
      ensures Valid() && Current() == Next(old(Current()), Handle(p))
      ensures !closed && old(|queue|) < maxQueue ==> queue == old(queue) + [p] && dropped == old(dropped)
      ensures !closed && old(|queue|) >= maxQueue ==> queue == old(queue) && dropped == old(dropped) + 1
      ensures closed ==> queue == old(queue) && dropped == old(dropped)
    {
      NextKeepsInv(Current(), Handle(p));
      offered := offered + 1;
      if closed {
        ignored := ignored + 1;
        return;
      }
      if |queue| >= maxQueue {
        dropped := dropped + 1;
        return;
      }
      queue, accepted := queue + [p], accepted + [p];
    }

    /** `close` up to its wait: idempotent. */
    method CloseSink() returns (signalled: bool)
      requires Valid()
      modifies this
      ensures Valid() && signalled == !old(closed)
      ensures Current() == if old(closed) then old(Current()) else Next(Next(old(Current()), MarkClosed), SignalStop)
    {
      if closed {
        return false;
      }
      NextKeepsInv(Current(), MarkClosed);
      NextKeepsInv(Next(Current(), MarkClosed), SignalStop);
      closed := true;
      stopped := true;
      return true;
    }

    /** The critical section at the start of `flush`. */
    method TakeBatch(last: bool)
      requires Valid() && phase.Idle? && (last ==> stopped)
      modifies this
      ensures Valid() && Current() == Next(old(Current()), if last then FlushAndReturn else Flush)
    {
      NextKeepsInv(Current(), if last then FlushAndReturn else Flush);
      var batch := queue;
      queue := [];
      if |batch| == 0 {
        phase := if last then Finished else Idle;
        return;
      }
      phase := Sending(batch, last);
    }

    /** The end of `flush`: the outcome of the delivery is counted. */
    method Count(ok: bool)
      requires Valid() && phase.Sending?
      modifies this
      ensures Valid() && Current() == Next(old(Current()), Delivered(ok))
      ensures sent == old(sent) + if ok then old(|phase.batch|) else 0
      ensures failed == old(failed) + if ok then 0 else old(|phase.batch|)
    {
      NextKeepsInv(Current(), Delivered(ok));
      posted := posted + phase.batch;
      if ok {
        sent := sent + |phase.batch|;
      } else {
        failed := failed + |phase.batch|;
      }
      phase := if phase.last then Finished else Idle;
    }
  }
}
