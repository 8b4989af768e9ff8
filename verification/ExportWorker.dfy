/**
 One exporter's worker (internal/export/export.go) as a step machine. Records and
 log lines arrive on two bounded queues; the worker's `select` takes any ready
 arm; each arm leaves pending operations that are performed one by one, so that
 callers interleave with every part of a flush and of the final drain.
 */
module ExportWorker {

  /** What an exporter is handed, in the order of the calls. */
  datatype Call<R, L> = Export(records: seq<R>) | ExportLogs(lines: seq<L>) | Close

  /** What the worker has still to do before it selects again. */
  datatype Pending = FlushRecords | FlushLogs | DrainLogs | CloseExporter

  /** One of the worker's two streams: the channel, the batch being filled, the
      drop counter, and (history) what the channel has accepted. */
  datatype Lane<T> = Lane(queue: seq<T>, closed: bool, batch: seq<T>, dropped: nat, accepted: seq<T>)

  datatype State<R, L> = State(
    capacity: nat,
    batchSize: int,
    acceptsLogs: bool,
    recs: Lane<R>,
    logs: Lane<L>,
    delivered: nat,
    failed: nat,
    selectingLogs: bool,
    pending: seq<Pending>,
    returned: bool,
    // history
    calls: seq<Call<R, L>>,
    offered: nat)

  function Init<R, L>(capacity: nat, batchSize: int, acceptsLogs: bool): State<R, L> {
    var recs: Lane<R> := Lane([], false, [], 0, []);
    var logs: Lane<L> := Lane([], false, [], 0, []);
    State(capacity, batchSize, acceptsLogs, recs, logs, 0, 0, acceptsLogs, [], false, [], 0)
  }

  datatype Event<R, L> =
    | Enqueue(r: R)
    | EnqueueLog(l: L)
    | CloseLogs
    | CloseQueue
    | ReceiveRecord
    | ReceiveEndOfRecords
    | ReceiveLog
    | ReceiveEndOfLogs
    | Tick
    | Perform(ok: bool)

  /** Callers never send on a closed channel, `Shutdown` closes the log channel
      first, and the worker selects only when nothing is pending. */
  predicate Enabled<R, L>(s: State<R, L>, e: Event<R, L>) {
    var selecting := s.pending == [] && !s.returned;
    match e
    case Enqueue(_) => !s.recs.closed
    case EnqueueLog(_) => !s.logs.closed
    case CloseLogs => s.acceptsLogs && !s.logs.closed
    case CloseQueue => !s.recs.closed && (s.acceptsLogs ==> s.logs.closed)
    case ReceiveRecord => selecting && s.recs.queue != []
    case ReceiveEndOfRecords => selecting && s.recs.queue == [] && s.recs.closed
    case ReceiveLog => selecting && s.selectingLogs && s.logs.queue != []
    case ReceiveEndOfLogs => selecting && s.selectingLogs && s.logs.queue == [] && s.logs.closed
    case Tick => selecting
    case Perform(_) =>
      s.pending != [] && !(s.pending[0].DrainLogs? && s.selectingLogs && s.logs.queue == [] && !s.logs.closed)
  }

  /** A full channel drops, and counts it. */
  function Send<T>(lane: Lane<T>, x: T, capacity: nat): Lane<T> {
    if |lane.queue| < capacity then lane.(queue := lane.queue + [x], accepted := lane.accepted + [x])
    else lane.(dropped := lane.dropped + 1)
  }

  /** The head of the channel joins the batch. */
  function Receive<T>(lane: Lane<T>): Lane<T>
    requires lane.queue != []
  {
    lane.(queue := lane.queue[1..], batch := lane.batch + [lane.queue[0]])
  }

  /** The `for l := range logQueue` loop, one line at a time. */
  function Drain<R, L>(s: State<R, L>): State<R, L>
    requires s.pending != []
  {
    if !s.selectingLogs || s.logs.queue == [] then s.(pending := s.pending[1..])
    else
      var logs := Receive(s.logs);
      s.(logs := logs, pending := if |logs.batch| >= s.batchSize then [FlushLogs] + s.pending else s.pending)
  }

  /** The `flush` closure: an empty batch is not handed over. */
  function SendRecords<R, L>(s: State<R, L>, ok: bool): State<R, L>
    requires s.pending != []
  {
    var rest, batch := s.pending[1..], s.recs.batch;
    if batch == [] then s.(pending := rest)
    else
      s.(pending := rest, recs := s.recs.(batch := []), calls := s.calls + [Export(batch)],
         delivered := s.delivered + Share(ok, batch), failed := s.failed + Share(!ok, batch))
  }

  /** The `flushLogs` closure. */
  function SendLines<R, L>(s: State<R, L>, ok: bool): State<R, L>
    requires s.pending != []
  {
    var rest, batch := s.pending[1..], s.logs.batch;
    if batch == [] then s.(pending := rest)
    else
      s.(pending := rest, logs := s.logs.(batch := []), calls := s.calls + [ExportLogs(batch)],
         delivered := s.delivered + Share(ok, batch), failed := s.failed + Share(!ok, batch))
  }

  /** What a batch adds to a counter. */
  function Share<T>(counts: bool, batch: seq<T>): nat {
    if counts then |batch| else 0
  }

  function PerformFirst<R, L>(s: State<R, L>, ok: bool): State<R, L>
    requires s.pending != []
  {
    match s.pending[0]
    case FlushRecords => SendRecords(s, ok)
    case FlushLogs => SendLines(s, ok)
    case DrainLogs => Drain(s)
    case CloseExporter => s.(pending := s.pending[1..], calls := s.calls + [Close], returned := true)
  }

  predicate CallerEvent<R, L>(e: Event<R, L>) {
    e.Enqueue? || e.EnqueueLog? || e.CloseLogs? || e.CloseQueue?
  }

  /** What callers of the dispatcher do to the channels; an exporter that takes no
      log lines is skipped. */
  function CallerStep<R, L>(s: State<R, L>, e: Event<R, L>): State<R, L>
    requires CallerEvent(e)
  {
    match e
    case Enqueue(r) => s.(offered := s.offered + 1, recs := Send(s.recs, r, s.capacity))
    case EnqueueLog(l) =>
      if !s.acceptsLogs then s
      else s.(offered := s.offered + 1, logs := Send(s.logs, l, s.capacity))
    case CloseLogs => s.(logs := s.logs.(closed := true))
    case CloseQueue => s.(recs := s.recs.(closed := true))
  }

  /** The arms of the worker's `select`. */
  function SelectStep<R, L>(s: State<R, L>, e: Event<R, L>): State<R, L>
    requires !CallerEvent(e) && !e.Perform?
    requires e.ReceiveRecord? ==> s.recs.queue != []
    requires e.ReceiveLog? ==> s.logs.queue != []
  {
    match e
    case ReceiveRecord =>
      var recs := Receive(s.recs);
      s.(recs := recs, pending := if |recs.batch| >= s.batchSize then [FlushRecords] else [])
    case ReceiveEndOfRecords => s.(pending := [FlushRecords, DrainLogs, FlushLogs, CloseExporter])
    case ReceiveLog =>
      var logs := Receive(s.logs);
      s.(logs := logs, pending := if |logs.batch| >= s.batchSize then [FlushLogs] else [])
    case ReceiveEndOfLogs => s.(selectingLogs := false, pending := [FlushLogs])
    case Tick => s.(pending := [FlushRecords, FlushLogs])
  }

  function Next<R, L>(s: State<R, L>, e: Event<R, L>): State<R, L>
    requires Enabled(s, e)
  {
    if CallerEvent(e) then CallerStep(s, e)
    else if e.Perform? then PerformFirst(s, e.ok)
    else SelectStep(s, e)
  }

  // ------------------------------------------------------------- invariants

  function Exported<R, L>(calls: seq<Call<R, L>>): seq<R> {
    if calls == [] then []
    else
      var n := |calls| - 1;
      Exported(calls[..n]) + if calls[n].Export? then calls[n].records else []
  }

  function ExportedLogs<R, L>(calls: seq<Call<R, L>>): seq<L> {
    if calls == [] then []
    else
      var n := |calls| - 1;
      ExportedLogs(calls[..n]) + if calls[n].ExportLogs? then calls[n].lines else []
  }

  function Limit(batchSize: int): nat {
    if batchSize < 1 then 1 else batchSize
  }

  /** Nothing lost, nothing twice, in order. */
  ghost predicate InOrder<R, L>(s: State<R, L>) {
    && Fifo(Exported(s.calls), s.recs.batch, s.recs.queue, s.recs.accepted)
    && Fifo(ExportedLogs(s.calls), s.logs.batch, s.logs.queue, s.logs.accepted)
  }

  /** What was accepted is, in order, what was handed over, what is batched and what is queued. */
  ghost predicate Fifo<T>(handed: seq<T>, batch: seq<T>, queue: seq<T>, accepted: seq<T>) {
    handed + batch + queue == accepted
  }

  lemma {:induction false} FifoSend<T>(handed: seq<T>, batch: seq<T>, queue: seq<T>, accepted: seq<T>, x: T)
    requires Fifo(handed, batch, queue, accepted)
    ensures Fifo(handed, batch, queue + [x], accepted + [x])
  {
  }

  lemma {:induction false} FifoReceive<T>(handed: seq<T>, batch: seq<T>, queue: seq<T>, accepted: seq<T>)
    requires Fifo(handed, batch, queue, accepted) && queue != []
    ensures Fifo(handed, batch + [queue[0]], queue[1..], accepted)
  {
    assert queue == [queue[0]] + queue[1..];
  }

  ghost predicate Counted<R, L>(s: State<R, L>) {
    && s.offered == |s.recs.accepted| + |s.logs.accepted| + s.recs.dropped + s.logs.dropped
    && s.delivered + s.failed == |Exported(s.calls)| + |ExportedLogs(s.calls)|
  }

  /** Batches are never empty and never over the limit; a full one is about to be flushed. */
  ghost predicate Batched<R, L>(s: State<R, L>) {
    var limit := Limit(s.batchSize);
    && |s.recs.queue| <= s.capacity && |s.logs.queue| <= s.capacity
    && |s.recs.batch| <= limit && |s.logs.batch| <= limit
    && (|s.recs.batch| == limit ==> s.pending != [] && s.pending[0].FlushRecords?)
    && (|s.logs.batch| == limit ==> s.pending != [] && s.pending[0].FlushLogs?)
    && forall c | c in s.calls ::
         (c.Export? ==> 1 <= |c.records| <= limit) && (c.ExportLogs? ==> 1 <= |c.lines| <= limit)
  }

  /** The shutdown sequence: what is pending says how far it has come. */
  ghost predicate Staged<R, L>(s: State<R, L>) {
    && (s.selectingLogs ==> s.acceptsLogs)
    && (!s.selectingLogs ==> s.logs.queue == [] && (s.acceptsLogs ==> s.logs.closed))
    && (s.recs.closed && s.acceptsLogs ==> s.logs.closed)
    && (s.returned ==> s.pending == [] && s.recs.closed)
    && (s.returned ==> s.recs.queue == [] && s.recs.batch == [] && s.logs.batch == [] && s.logs.queue == [])
    && (s.pending == [] || s.pending == [FlushRecords] || s.pending == [FlushLogs] ||
        s.pending == [FlushRecords, FlushLogs]
        || (s.recs.closed && s.recs.queue == [] &&
            (|| s.pending == [FlushRecords, DrainLogs, FlushLogs, CloseExporter]
             || (s.recs.batch == [] &&
                 (|| s.pending == [DrainLogs, FlushLogs, CloseExporter]
                  || s.pending == [FlushLogs, DrainLogs, FlushLogs, CloseExporter]
                  || (s.logs.queue == [] && s.pending == [FlushLogs, CloseExporter])
                  || (s.logs.queue == [] && s.logs.batch == [] && s.pending == [CloseExporter]))))))
    && (forall i | 0 <= i < |s.calls| && s.calls[i].Close? :: i == |s.calls| - 1)
    && (s.returned <==> s.calls != [] && s.calls[|s.calls| - 1].Close?)
  }

  ghost predicate Inv<R, L>(s: State<R, L>) {
    InOrder(s) && Counted(s) && Batched(s) && Staged(s)
  }

  lemma {:induction false} InitInv<R, L>(capacity: nat, batchSize: int, acceptsLogs: bool)
    ensures Inv<R, L>(Init(capacity, batchSize, acceptsLogs))
  {
  }

  lemma {:induction false} ExportedAppend<R, L>(calls: seq<Call<R, L>>, c: Call<R, L>)
    ensures Exported(calls + [c]) == Exported(calls) + if c.Export? then c.records else []
    ensures ExportedLogs(calls + [c]) == ExportedLogs(calls) + if c.ExportLogs? then c.lines else []
  {
    assert (calls + [c])[..|calls|] == calls;
  }

  lemma {:induction false} CallersInOrder<R, L>(s: State<R, L>, e: Event<R, L>)
    requires InOrder(s) && CallerEvent(e) && Enabled(s, e)
    ensures InOrder(CallerStep(s, e))
  {
    match e
    case Enqueue(r) => FifoSend(Exported(s.calls), s.recs.batch, s.recs.queue, s.recs.accepted, r);
    case EnqueueLog(l) => FifoSend(ExportedLogs(s.calls), s.logs.batch, s.logs.queue, s.logs.accepted, l);
    case _ =>
  }

  lemma {:induction false} CallersCounted<R, L>(s: State<R, L>, e: Event<R, L>)
    requires Counted(s) && CallerEvent(e) && Enabled(s, e)
    ensures Counted(CallerStep(s, e))
  {
  }

  lemma {:induction false} CallersBatched<R, L>(s: State<R, L>, e: Event<R, L>)
    requires Batched(s) && CallerEvent(e) && Enabled(s, e)
    ensures Batched(CallerStep(s, e))
  {
  }

  lemma {:induction false} CallersStaged<R, L>(s: State<R, L>, e: Event<R, L>)
    requires Staged(s) && CallerEvent(e) && Enabled(s, e)
    ensures Staged(CallerStep(s, e))
  {
  }

  lemma {:induction false} SelectsInOrder<R, L>(s: State<R, L>, e: Event<R, L>)
    requires InOrder(s) && !CallerEvent(e) && !e.Perform? && Enabled(s, e)
    ensures InOrder(SelectStep(s, e))
  {
    if e.ReceiveRecord? { FifoReceive(Exported(s.calls), s.recs.batch, s.recs.queue, s.recs.accepted); }
    if e.ReceiveLog? { FifoReceive(ExportedLogs(s.calls), s.logs.batch, s.logs.queue, s.logs.accepted); }
  }

  lemma {:induction false} SelectsCounted<R, L>(s: State<R, L>, e: Event<R, L>)
    requires Counted(s) && !CallerEvent(e) && !e.Perform? && Enabled(s, e)
    ensures Counted(SelectStep(s, e))
  {
  }

  lemma {:induction false} SelectsBatched<R, L>(s: State<R, L>, e: Event<R, L>)
    requires Batched(s) && !CallerEvent(e) && !e.Perform? && Enabled(s, e)
    ensures Batched(SelectStep(s, e))
  {
  }

  lemma {:induction false} SelectsStaged<R, L>(s: State<R, L>, e: Event<R, L>)
    requires Staged(s) && !CallerEvent(e) && !e.Perform? && Enabled(s, e)
    ensures Staged(SelectStep(s, e))
  {
  }

  /** Handing a batch over moves it from the worker to the exporter. */
  lemma {:induction false} FlushInOrder<R, L>(s: State<R, L>, t: State<R, L>, c: Call<R, L>)
    requires InOrder(s) && t.recs.accepted == s.recs.accepted && t.logs.accepted == s.logs.accepted
    requires t.recs.queue == s.recs.queue && t.logs.queue == s.logs.queue
    requires (c == Export(s.recs.batch) && t.recs.batch == [] && t.logs.batch == s.logs.batch) ||
             (c == ExportLogs(s.logs.batch) && t.logs.batch == [] && t.recs.batch == s.recs.batch)
    requires t.calls == s.calls + [c] ||
             (t.calls == s.calls && t.recs.batch == s.recs.batch && t.logs.batch == s.logs.batch)
    ensures InOrder(t)
  {
    ExportedAppend(s.calls, c);
    var x, y := Exported(s.calls), ExportedLogs(s.calls);
    assert x + s.recs.batch + [] == x + s.recs.batch && x + [] + s.recs.batch == x + s.recs.batch;
    assert y + s.logs.batch + [] == y + s.logs.batch && y + [] + s.logs.batch == y + s.logs.batch;
  }

  lemma {:induction false} FlushRecordsInOrder<R, L>(s: State<R, L>, ok: bool)
    requires InOrder(s) && s.pending != [] && s.pending[0].FlushRecords?
    ensures InOrder(PerformFirst(s, ok))
  {
    FlushInOrder(s, PerformFirst(s, ok), Export(s.recs.batch));
  }

  lemma {:induction false} FlushRecordsCounted<R, L>(s: State<R, L>, ok: bool)
    requires Counted(s) && s.pending != [] && s.pending[0].FlushRecords?
    ensures Counted(PerformFirst(s, ok))
  {
    if s.recs.batch != [] { ExportedAppend(s.calls, Export(s.recs.batch)); }
  }

  lemma {:induction false} FlushRecordsBatched<R, L>(s: State<R, L>, ok: bool)
    requires Inv(s) && s.pending != [] && s.pending[0].FlushRecords?
    ensures Batched(PerformFirst(s, ok))
  {
  }

  lemma {:induction false} FlushRecordsStaged<R, L>(s: State<R, L>, ok: bool)
    requires Staged(s) && s.pending != [] && s.pending[0].FlushRecords?
    ensures Staged(PerformFirst(s, ok))
  {
  }

  lemma {:induction false} FlushRecordsKeepsInv<R, L>(s: State<R, L>, ok: bool)
    requires Inv(s) && s.pending != [] && s.pending[0].FlushRecords?
    ensures Inv(PerformFirst(s, ok))
  {
    FlushRecordsInOrder(s, ok);
    FlushRecordsCounted(s, ok);
    FlushRecordsBatched(s, ok);
    FlushRecordsStaged(s, ok);
  }

  lemma {:induction false} FlushLogsInOrder<R, L>(s: State<R, L>, ok: bool)
    requires InOrder(s) && s.pending != [] && s.pending[0].FlushLogs?
    ensures InOrder(PerformFirst(s, ok))
  {
    FlushInOrder(s, PerformFirst(s, ok), ExportLogs(s.logs.batch));
  }

  lemma {:induction false} FlushLogsCounted<R, L>(s: State<R, L>, ok: bool)
    requires Counted(s) && s.pending != [] && s.pending[0].FlushLogs?
    ensures Counted(PerformFirst(s, ok))
  {
    if s.logs.batch != [] { ExportedAppend(s.calls, ExportLogs(s.logs.batch)); }
  }

  lemma {:induction false} FlushLogsBatched<R, L>(s: State<R, L>, ok: bool)
    requires Inv(s) && s.pending != [] && s.pending[0].FlushLogs?
    ensures Batched(PerformFirst(s, ok))
  {
  }

  lemma {:induction false} FlushLogsStaged<R, L>(s: State<R, L>, ok: bool)
    requires Staged(s) && s.pending != [] && s.pending[0].FlushLogs?
    ensures Staged(PerformFirst(s, ok))
  {
  }

  lemma {:induction false} FlushLogsKeepsInv<R, L>(s: State<R, L>, ok: bool)
    requires Inv(s) && s.pending != [] && s.pending[0].FlushLogs?
    ensures Inv(PerformFirst(s, ok))
  {
    FlushLogsInOrder(s, ok);
    FlushLogsCounted(s, ok);
    FlushLogsBatched(s, ok);
    FlushLogsStaged(s, ok);
  }

  lemma {:induction false} DrainInOrder<R, L>(s: State<R, L>, ok: bool)
    requires InOrder(s) && s.pending != [] && s.pending[0].DrainLogs?
    requires Enabled(s, Perform(ok))
    ensures InOrder(Drain(s))
  {
    if s.selectingLogs && s.logs.queue != [] {
      FifoReceive(ExportedLogs(s.calls), s.logs.batch, s.logs.queue, s.logs.accepted);
    }
  }

  lemma {:induction false} DrainCounted<R, L>(s: State<R, L>, ok: bool)
    requires Counted(s) && s.pending != [] && s.pending[0].DrainLogs?
    requires Enabled(s, Perform(ok))
    ensures Counted(Drain(s))
  {
  }

  lemma {:induction false} DrainBatched<R, L>(s: State<R, L>, ok: bool)
    requires Inv(s) && s.pending != [] && s.pending[0].DrainLogs?
    requires Enabled(s, Perform(ok))
    ensures Batched(Drain(s))
  {
  }

  lemma {:induction false} DrainStaged<R, L>(s: State<R, L>, ok: bool)
    requires Staged(s) && s.pending != [] && s.pending[0].DrainLogs?
    requires Enabled(s, Perform(ok))
    ensures Staged(Drain(s))
  {
  }

  lemma {:induction false} DrainKeepsInv<R, L>(s: State<R, L>, ok: bool)
    requires Inv(s) && s.pending != [] && s.pending[0].DrainLogs?
    requires Enabled(s, Perform(ok))
    ensures Inv(Drain(s))
  {
    DrainInOrder(s, ok);
    DrainCounted(s, ok);
    DrainBatched(s, ok);
    DrainStaged(s, ok);
  }

  lemma {:induction false} CloseKeepsInv<R, L>(s: State<R, L>, ok: bool)
    requires Inv(s) && s.pending != [] && s.pending[0].CloseExporter?
    ensures Inv(PerformFirst(s, ok))
  {
    var t := PerformFirst(s, ok);
    ExportedAppend(s.calls, Close);
    assert InOrder(t);
    assert Counted(t);
    CloseBatched(s, ok);
    CloseStaged(s, ok);
  }

  lemma {:induction false} CloseBatched<R, L>(s: State<R, L>, ok: bool)
    requires Batched(s) && Staged(s) && s.pending != [] && s.pending[0].CloseExporter?
    ensures Batched(PerformFirst(s, ok))
  {
  }

  lemma {:induction false} CloseStaged<R, L>(s: State<R, L>, ok: bool)
    requires Staged(s) && s.pending != [] && s.pending[0].CloseExporter?
    ensures Staged(PerformFirst(s, ok))
  {
  }

  lemma {:induction false} NextKeepsInv<R, L>(s: State<R, L>, e: Event<R, L>)
    requires Inv(s) && Enabled(s, e)
    ensures Inv(Next(s, e))
  {
    if CallerEvent(e) {
      CallersInOrder(s, e);
      CallersCounted(s, e);
      CallersBatched(s, e);
      CallersStaged(s, e);
    } else if e.Perform? {
      match s.pending[0] {
        case FlushRecords => FlushRecordsKeepsInv(s, e.ok);
        case FlushLogs => FlushLogsKeepsInv(s, e.ok);
        case DrainLogs => DrainKeepsInv(s, e.ok);
        case CloseExporter => CloseKeepsInv(s, e.ok);
      }
    } else {
      SelectsInOrder(s, e);
      SelectsCounted(s, e);
      SelectsBatched(s, e);
      SelectsStaged(s, e);
    }
  }

  // ------------------------------------------------------------ whole runs

  ghost predicate Executable<R, L>(s: State<R, L>, es: seq<Event<R, L>>)
    decreases |es|
  {
    es == [] || (Enabled(s, es[0]) && Executable(Next(s, es[0]), es[1..]))
  }

  ghost function Run<R, L>(s: State<R, L>, es: seq<Event<R, L>>): State<R, L>
    requires Executable(s, es)
    decreases |es|
  {
    if es == [] then s else Run(Next(s, es[0]), es[1..])
  }

  lemma {:induction false} RunKeepsInv<R, L>(s: State<R, L>, es: seq<Event<R, L>>)
    requires Inv(s) && Executable(s, es)
    ensures Inv(Run(s, es))
    decreases |es|
  {
    if es != [] {
      NextKeepsInv(s, es[0]);
      RunKeepsInv(Next(s, es[0]), es[1..]);
    }
  }

  lemma {:induction false} RunAppend<R, L>(s: State<R, L>, es: seq<Event<R, L>>, e: Event<R, L>)
    requires Executable(s, es) && Enabled(Run(s, es), e)
    ensures Executable(s, es + [e]) && Run(s, es + [e]) == Next(Run(s, es), e)
    decreases |es|
  {
    if es == [] {
      assert [e][1..] == [] && es + [e] == [e];
      assert Executable(Next(s, e), []);
    } else {
      assert (es + [e])[1..] == es[1..] + [e];
      RunAppend(Next(s, es[0]), es[1..], e);
    }
  }

  ghost predicate LeadsTo<R, L>(es: seq<Event<R, L>>, s: State<R, L>) {
    var s0 := Init(s.capacity, s.batchSize, s.acceptsLogs);
    Executable(s0, es) && Run(s0, es) == s
  }

  /** Some run leads to s. */
  ghost predicate Reachable<R(!new), L(!new)>(s: State<R, L>) {
    exists es :: LeadsTo(es, s)
  }

  lemma {:induction false} ReachableInit<R(!new), L(!new)>(capacity: nat, batchSize: int, acceptsLogs: bool)
    ensures Reachable<R, L>(Init(capacity, batchSize, acceptsLogs))
  {
    assert LeadsTo<R, L>([], Init(capacity, batchSize, acceptsLogs));
  }

  lemma {:induction false} ReachableNext<R(!new), L(!new)>(s: State<R, L>, e: Event<R, L>)
    requires Reachable(s) && Enabled(s, e)
    ensures Reachable(Next(s, e))
  {
    var es :| LeadsTo(es, s);
    var s0 := Init<R, L>(s.capacity, s.batchSize, s.acceptsLogs);
    RunAppend(s0, es, e);
    SetupStays(s, e);
    assert LeadsTo(es + [e], Next(s, e));
  }

  lemma {:induction false} ReachableInv<R(!new), L(!new)>(s: State<R, L>)
    requires Reachable(s)
    ensures Inv(s)
  {
    var es :| LeadsTo(es, s);
    InitInv<R, L>(s.capacity, s.batchSize, s.acceptsLogs);
    RunKeepsInv(Init<R, L>(s.capacity, s.batchSize, s.acceptsLogs), es);
  }

  lemma SetupStays<R, L>(s: State<R, L>, e: Event<R, L>)
    requires Enabled(s, e)
    ensures var t := Next(s, e);
            t.capacity == s.capacity && t.batchSize == s.batchSize && t.acceptsLogs == s.acceptsLogs
  {
  }

  /** How many records and log lines were offered to this worker. */
  function Offers<R, L>(es: seq<Event<R, L>>, acceptsLogs: bool): nat {
    if es == [] then 0
    else (if es[0].Enqueue? || (es[0].EnqueueLog? && acceptsLogs) then 1 else 0) + Offers(es[1..], acceptsLogs)
  }

  lemma {:induction false} OneOffer<R, L>(s: State<R, L>, e: Event<R, L>)
    requires Enabled(s, e)
    ensures Next(s, e).acceptsLogs == s.acceptsLogs
    ensures Next(s, e).offered == s.offered + if e.Enqueue? || (e.EnqueueLog? && s.acceptsLogs) then 1 else 0
  {
    if e.Perform? { PerformingOffersNothing(s, e.ok); }
  }

  lemma {:induction false} PerformingOffersNothing<R, L>(s: State<R, L>, ok: bool)
    requires s.pending != []
    ensures PerformFirst(s, ok).acceptsLogs == s.acceptsLogs && PerformFirst(s, ok).offered == s.offered
  {
  }

  lemma {:induction false} OfferedIsOffers<R, L>(s: State<R, L>, es: seq<Event<R, L>>)
    requires Executable(s, es)
    ensures Run(s, es).offered == s.offered + Offers(es, s.acceptsLogs)
    decreases |es|
  {
    if es != [] {
      OneOffer(s, es[0]);
      OfferedIsOffers(Next(s, es[0]), es[1..]);
    }
  }

  /** In every state of every run: what was offered is delivered, failed, dropped,
      queued or batched, and nothing else; the exporter has been handed a prefix
      of what was accepted, in order, in batches within the limit. */
  lemma {:induction false} EveryRunConserves<R, L>(capacity: nat, batchSize: int, acceptsLogs: bool,
                                                  es: seq<Event<R, L>>)
    requires Executable(Init(capacity, batchSize, acceptsLogs), es)
    ensures var s := Run(Init(capacity, batchSize, acceptsLogs), es);
            && Offers(es, acceptsLogs) ==
               s.delivered + s.failed + s.recs.dropped + s.logs.dropped + |s.recs.queue| + |s.logs.queue| +
               |s.recs.batch| + |s.logs.batch|
            && Exported(s.calls) <= s.recs.accepted && ExportedLogs(s.calls) <= s.logs.accepted
            && forall c | c in s.calls ::
                 (c.Export? ==> 1 <= |c.records| <= Limit(s.batchSize)) &&
                 (c.ExportLogs? ==> 1 <= |c.lines| <= Limit(s.batchSize))
  {
    var s0 := Init<R, L>(capacity, batchSize, acceptsLogs);
    InitInv<R, L>(capacity, batchSize, acceptsLogs);
    RunKeepsInv(s0, es);
    OfferedIsOffers(s0, es);
  }

  /** A worker that has returned has handed over everything it accepted, once and
      in order, and then closed its exporter, once. */
  lemma {:induction false} ReturnedMeansDrained<R, L>(capacity: nat, batchSize: int, acceptsLogs: bool,
                                                  es: seq<Event<R, L>>)
    requires Executable(Init(capacity, batchSize, acceptsLogs), es)
    ensures var s := Run(Init(capacity, batchSize, acceptsLogs), es);
            s.returned ==>
              && Exported(s.calls) == s.recs.accepted && ExportedLogs(s.calls) == s.logs.accepted
              && s.delivered + s.failed == |s.recs.accepted| + |s.logs.accepted|
              && s.calls != [] && forall i | 0 <= i < |s.calls| :: s.calls[i].Close? <==> i == |s.calls| - 1
  {
    InitInv<R, L>(capacity, batchSize, acceptsLogs);
    RunKeepsInv(Init<R, L>(capacity, batchSize, acceptsLogs), es);
  }

  // ------------------------------------- which items are accepted, and why

  /** The records of a run that find room in the channel when they are offered. */
  ghost function Admitted<R, L>(s: State<R, L>, es: seq<Event<R, L>>): seq<R>
    requires Executable(s, es)
    decreases |es|
  {
    if es == [] then []
    else
      (if es[0].Enqueue? && |s.recs.queue| < s.capacity then [es[0].r] else []) + Admitted(Next(s, es[0]), es[1..])
  }

  /** How many find none. */
  ghost function Refused<R, L>(s: State<R, L>, es: seq<Event<R, L>>): nat
    requires Executable(s, es)
    decreases |es|
  {
    if es == [] then 0
    else (if es[0].Enqueue? && |s.recs.queue| >= s.capacity then 1 else 0) + Refused(Next(s, es[0]), es[1..])
  }

  ghost function AdmittedLines<R, L>(s: State<R, L>, es: seq<Event<R, L>>): seq<L>
    requires Executable(s, es)
    decreases |es|
  {
    if es == [] then []
    else
      (if es[0].EnqueueLog? && s.acceptsLogs && |s.logs.queue| < s.capacity then [es[0].l] else []) +
      AdmittedLines(Next(s, es[0]), es[1..])
  }

  ghost function RefusedLines<R, L>(s: State<R, L>, es: seq<Event<R, L>>): nat
    requires Executable(s, es)
    decreases |es|
  {
    if es == [] then 0
    else
      (if es[0].EnqueueLog? && s.acceptsLogs && |s.logs.queue| >= s.capacity then 1 else 0) +
      RefusedLines(Next(s, es[0]), es[1..])
  }

  /** A step accepts an item exactly if it offers one that finds room, and drops it
      exactly if it does not. */
  lemma {:induction false} StepAdmits<R, L>(s: State<R, L>, e: Event<R, L>)
    requires Enabled(s, e)
    ensures var t := Next(s, e);
            && t.recs.accepted == s.recs.accepted + (if e.Enqueue? && |s.recs.queue| < s.capacity then [e.r] else [])
            && t.recs.dropped == s.recs.dropped + if e.Enqueue? && |s.recs.queue| >= s.capacity then 1 else 0
  {
    if e.Perform? { PerformAdmitsNothing(s, e.ok); }
  }

  lemma {:induction false} StepAdmitsLine<R, L>(s: State<R, L>, e: Event<R, L>)
    requires Enabled(s, e)
    ensures var t, offered := Next(s, e), e.EnqueueLog? && s.acceptsLogs;
            && t.logs.accepted == s.logs.accepted + (if offered && |s.logs.queue| < s.capacity then [e.l] else [])
            && t.logs.dropped == s.logs.dropped + if offered && |s.logs.queue| >= s.capacity then 1 else 0
  {
    if e.Perform? { PerformAdmitsNothing(s, e.ok); }
  }

  lemma {:induction false} PerformAdmitsNothing<R, L>(s: State<R, L>, ok: bool)
    requires s.pending != []
    ensures var t := PerformFirst(s, ok);
            && t.recs.accepted == s.recs.accepted && t.recs.dropped == s.recs.dropped
            && t.logs.accepted == s.logs.accepted && t.logs.dropped == s.logs.dropped
  {
  }

  /** Over every run, what is accepted is, in order, exactly what found room, and the
      drop counters count exactly the rest. */
  lemma {:induction false} AcceptedAreAdmitted<R, L>(s: State<R, L>, es: seq<Event<R, L>>)
    requires Executable(s, es)
    ensures Run(s, es).recs.accepted == s.recs.accepted + Admitted(s, es)
    ensures Run(s, es).recs.dropped == s.recs.dropped + Refused(s, es)
    decreases |es|
  {
    if es != [] {
      StepAdmits(s, es[0]);
      AcceptedAreAdmitted(Next(s, es[0]), es[1..]);
    }
  }

  lemma {:induction false} AcceptedLinesAreAdmitted<R, L>(s: State<R, L>, es: seq<Event<R, L>>)
    requires Executable(s, es)
    ensures Run(s, es).logs.accepted == s.logs.accepted + AdmittedLines(s, es)
    ensures Run(s, es).logs.dropped == s.logs.dropped + RefusedLines(s, es)
    decreases |es|
  {
    if es != [] {
      StepAdmitsLine(s, es[0]);
      AcceptedLinesAreAdmitted(Next(s, es[0]), es[1..]);
    }
  }

  /** The records offered in a run. */
  function OfferedRecords<R, L>(es: seq<Event<R, L>>): seq<R> {
    if es == [] then [] else (if es[0].Enqueue? then [es[0].r] else []) + OfferedRecords(es[1..])
  }

  /** In particular, if every record finds room, all are accepted and none is dropped. */
  lemma {:induction false} RoomForAll<R, L>(s: State<R, L>, es: seq<Event<R, L>>)
    requires Executable(s, es) && Refused(s, es) == 0
    ensures Run(s, es).recs.accepted == s.recs.accepted + OfferedRecords(es)
    ensures Run(s, es).recs.dropped == s.recs.dropped
    decreases |es|
  {
    AcceptedAreAdmitted(s, es);
    NoneRefused(s, es);
  }

  lemma {:induction false} NoneRefused<R, L>(s: State<R, L>, es: seq<Event<R, L>>)
    requires Executable(s, es) && Refused(s, es) == 0
    ensures Admitted(s, es) == OfferedRecords(es)
    decreases |es|
  {
    if es != [] { NoneRefused(Next(s, es[0]), es[1..]); }
  }

  // ------------------------------------------------- what the counters count

  /** How many items are handed over in a run with the given answer. */
  ghost function Answered<R, L>(s: State<R, L>, es: seq<Event<R, L>>, ok: bool): nat
    requires Executable(s, es)
    decreases |es|
  {
    if es == [] then 0
    else (if es[0].Perform? && es[0].ok == ok then HandedNow(s) else 0) + Answered(Next(s, es[0]), es[1..], ok)
  }

  /** How many items the pending operation hands over. */
  function HandedNow<R, L>(s: State<R, L>): nat {
    if s.pending == [] then 0
    else
      match s.pending[0]
      case FlushRecords => |s.recs.batch|
      case FlushLogs => |s.logs.batch|
      case _ => 0
  }

  lemma {:induction false} StepAnswers<R, L>(s: State<R, L>, e: Event<R, L>)
    requires Enabled(s, e)
    ensures Next(s, e).delivered == s.delivered + if e.Perform? && e.ok then HandedNow(s) else 0
    ensures Next(s, e).failed == s.failed + if e.Perform? && !e.ok then HandedNow(s) else 0
  {
    if e.Perform? { PerformAnswers(s, e.ok); }
  }

  lemma {:induction false} PerformAnswers<R, L>(s: State<R, L>, ok: bool)
    requires s.pending != []
    ensures PerformFirst(s, ok).delivered == s.delivered + if ok then HandedNow(s) else 0
    ensures PerformFirst(s, ok).failed == s.failed + if ok then 0 else HandedNow(s)
  {
  }

  /** Over every run, `delivered` counts exactly the items whose hand-over succeeded, and
      `failed` those whose hand-over did not. */
  lemma {:induction false} CountersAreAnswers<R, L>(s: State<R, L>, es: seq<Event<R, L>>)
    requires Executable(s, es)
    ensures Run(s, es).delivered == s.delivered + Answered(s, es, true)
    ensures Run(s, es).failed == s.failed + Answered(s, es, false)
    decreases |es|
  {
    if es != [] {
      StepAnswers(s, es[0]);
      CountersAreAnswers(Next(s, es[0]), es[1..]);
    }
  }

  /** A pending flush hands over its batch, whole, and nothing else. */
  lemma {:induction false} RecordsFlushed<R, L>(s: State<R, L>, ok: bool)
    requires s.pending != [] && s.pending[0].FlushRecords?
    ensures var u := PerformFirst(s, ok);
            && u.pending == s.pending[1..] && u.recs.batch == [] && u.logs == s.logs
            && Exported(u.calls) == Exported(s.calls) + s.recs.batch && ExportedLogs(u.calls) == ExportedLogs(s.calls)
  {
    ExportedAppend(s.calls, Export(s.recs.batch));
  }

  lemma {:induction false} LinesFlushed<R, L>(s: State<R, L>, ok: bool)
    requires s.pending != [] && s.pending[0].FlushLogs?
    ensures var u := PerformFirst(s, ok);
            && u.pending == s.pending[1..] && u.logs.batch == [] && u.recs == s.recs
            && ExportedLogs(u.calls) == ExportedLogs(s.calls) + s.logs.batch && Exported(u.calls) == Exported(s.calls)
  {
    ExportedAppend(s.calls, ExportLogs(s.logs.batch));
  }

  /** A tick hands over both batches before the worker selects again. */
  lemma {:induction false} TickFlushes<R, L>(s: State<R, L>, ok: bool, ok': bool)
    requires Enabled(s, Tick)
    ensures var t := Next(s, Tick);
            && t.pending == [FlushRecords, FlushLogs]
            && var u := PerformFirst(PerformFirst(t, ok), ok');
               && u.pending == [] && u.recs.batch == [] && u.logs.batch == []
               && Exported(u.calls) == Exported(s.calls) + s.recs.batch
               && ExportedLogs(u.calls) == ExportedLogs(s.calls) + s.logs.batch
  {
    var t := Next(s, Tick);
    RecordsFlushed(t, ok);
    LinesFlushed(PerformFirst(t, ok), ok');
  }

  /** So does the end of the log channel with the lines, and log lines are no longer
      selected. */
  lemma {:induction false} EndOfLogsFlushes<R, L>(s: State<R, L>, ok: bool)
    requires Enabled(s, ReceiveEndOfLogs)
    ensures var t := Next(s, ReceiveEndOfLogs);
            && t.pending == [FlushLogs] && !t.selectingLogs
            && var u := PerformFirst(t, ok);
               u.pending == [] && u.logs.batch == [] && ExportedLogs(u.calls) == ExportedLogs(s.calls) + s.logs.batch
  {
    LinesFlushed(Next(s, ReceiveEndOfLogs), ok);
  }

  /** A received item joins its batch, which is handed over exactly when it is full. */
  lemma {:induction false} ReceivingFlushesWhenFull<R, L>(s: State<R, L>)
    ensures Enabled(s, ReceiveRecord) ==>
              var t := Next(s, ReceiveRecord);
              && t.recs.batch == s.recs.batch + [s.recs.queue[0]] && t.recs.queue == s.recs.queue[1..]
              && (t.pending == [FlushRecords] <==> |t.recs.batch| >= s.batchSize)
    ensures Enabled(s, ReceiveLog) ==>
              var t := Next(s, ReceiveLog);
              && t.logs.batch == s.logs.batch + [s.logs.queue[0]] && t.logs.queue == s.logs.queue[1..]
              && (t.pending == [FlushLogs] <==> |t.logs.batch| >= s.batchSize)
  {
  }

  // -------------------------------------------------------------- progress

  predicate ShutDown<R, L>(s: State<R, L>) {
    s.recs.closed && (s.acceptsLogs ==> s.logs.closed)
  }

  predicate WorkerStep<R, L>(e: Event<R, L>) {
    e.ReceiveRecord? || e.ReceiveEndOfRecords? || e.ReceiveLog? || e.ReceiveEndOfLogs? || e.Perform?
  }

  /** How many steps, not counting ticks, the drain can still take. */
  function Remaining<R, L>(s: State<R, L>): nat {
    3 * (|s.recs.queue| + |s.logs.queue|) + (if s.selectingLogs then 2 else 0) +
    (if CloseExporter in s.pending || s.returned then 0 else 5) + |s.pending|
  }

  /** After shutdown a worker that has not returned is never stuck: some step
      other than a tick is enabled. */
  lemma {:induction false} NeverStuck<R, L>(s: State<R, L>)
    requires Inv(s) && ShutDown(s) && !s.returned
    ensures exists e: Event<R, L> :: WorkerStep(e) && Enabled(s, e)
  {
    var e: Event<R, L> :=
      if s.pending != [] then Perform(true) else if s.recs.queue != [] then ReceiveRecord else ReceiveEndOfRecords;
    assert WorkerStep(e) && Enabled(s, e);
  }

  lemma {:induction false} StepsAreUsedUp<R, L>(s: State<R, L>, e: Event<R, L>)
    requires ShutDown(s) && Enabled(s, e) && (WorkerStep(e) || e.Tick?)
    ensures ShutDown(Next(s, e))
    ensures Remaining(Next(s, e)) <= if e.Tick? then Remaining(s) + 2 else Remaining(s) - 1
  {
    if e.Perform? {
      PerformingIsUsedUp(s, e.ok);
    }
  }

  lemma {:induction false} PerformingIsUsedUp<R, L>(s: State<R, L>, ok: bool)
    requires ShutDown(s) && s.pending != []
    ensures ShutDown(PerformFirst(s, ok)) && Remaining(PerformFirst(s, ok)) < Remaining(s)
  {
    var head, rest := s.pending[0], s.pending[1..];
    assert s.pending == [head] + rest;
    assert CloseExporter in s.pending <==> head.CloseExporter? || CloseExporter in rest;
    match head
    case FlushRecords => FlushLeaves(s, ok);
    case FlushLogs => FlushLeaves(s, ok);
    case DrainLogs => DrainingIsUsedUp(s);
    case CloseExporter =>
  }

  /** A flush touches neither channel. */
  lemma FlushLeaves<R, L>(s: State<R, L>, ok: bool)
    requires s.pending != [] && (s.pending[0].FlushRecords? || s.pending[0].FlushLogs?)
    ensures var t := PerformFirst(s, ok);
            && t.pending == s.pending[1..] && t.recs.queue == s.recs.queue && t.logs.queue == s.logs.queue
            && t.recs.closed == s.recs.closed && t.logs.closed == s.logs.closed && t.acceptsLogs == s.acceptsLogs
            && t.selectingLogs == s.selectingLogs && t.returned == s.returned
  {
  }

  lemma {:induction false} DrainingIsUsedUp<R, L>(s: State<R, L>)
    requires ShutDown(s) && s.pending != [] && s.pending[0].DrainLogs?
    ensures ShutDown(Drain(s)) && Remaining(Drain(s)) < Remaining(s)
  {
    var t, rest := Drain(s), s.pending[1..];
    assert s.pending == [DrainLogs] + rest;
    assert CloseExporter in t.pending <==> CloseExporter in s.pending;
  }

  function Ticks<R, L>(es: seq<Event<R, L>>): nat {
    if es == [] then 0 else (if es[0].Tick? then 1 else 0) + Ticks(es[1..])
  }

  /** After shutdown every run of the worker is bounded, up to the ticks in it:
      with `NeverStuck`, it returns. */
  lemma {:induction false} DrainIsBounded<R, L>(s: State<R, L>, es: seq<Event<R, L>>)
    requires Inv(s) && ShutDown(s) && Executable(s, es)
    requires forall e | e in es :: WorkerStep(e) || e.Tick?
    ensures |es| <= Remaining(s) + 3 * Ticks(es)
    decreases |es|
  {
    if es != [] {
      NextKeepsInv(s, es[0]);
      StepsAreUsedUp(s, es[0]);
      DrainIsBounded(Next(s, es[0]), es[1..]);
    }
  }
}
