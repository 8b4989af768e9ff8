/**
 The dispatcher of internal/export/export.go: its workers with their channels,
 counters and reused batches as mutable fields, stepping as module ExportWorker
 says.
 */
module ExportDispatcher {
  import opened ExportWorker

  class Worker<R(!new), L(!new)> {
    const capacity: nat
    const batchSize: int
    const acceptsLogs: bool
    var queue: seq<R>
    var queueClosed: bool
    var logs: seq<L>
    var logsClosed: bool
    var delivered: nat
    var failed: nat
    var dropped: nat
    var logDrop: nat
    var selectingLogs: bool
    var batch: seq<R>
    var lines: seq<L>
    var pending: seq<Pending>
    var returned: bool
    ghost var calls: seq<Call<R, L>>
    ghost var accepted: seq<R>
    ghost var acceptedLogs: seq<L>
    ghost var offered: nat

    constructor (capacity: nat, batchSize: int, acceptsLogs: bool)
      ensures Valid() && Current() == Init(capacity, batchSize, acceptsLogs)
    {
      this.capacity, this.batchSize, this.acceptsLogs := capacity, batchSize, acceptsLogs;
      queue, queueClosed, logs, logsClosed := [], false, [], false;
      delivered, failed, dropped, logDrop := 0, 0, 0, 0;
      selectingLogs, batch, lines, pending, returned := acceptsLogs, [], [], [], false;
      calls, accepted, acceptedLogs, offered := [], [], [], 0;
      ReachableInit<R, L>(capacity, batchSize, acceptsLogs);
    }

    ghost function Current(): State<R, L>
      reads this
    {
      State(capacity, batchSize, acceptsLogs, Lane(queue, queueClosed, batch, dropped, accepted),
            Lane(logs, logsClosed, lines, logDrop, acceptedLogs), delivered, failed, selectingLogs, pending, returned,
            calls, offered)
    }

    /** The worker is in a state that some run leads to. */
    ghost predicate Valid()
      reads this
    {
      Reachable(Current())
    }

    /** The counters account for everything offered. */
    lemma Accounts()
      requires Valid()
      ensures offered == delivered + failed + dropped + logDrop + |queue| + |logs| + |batch| + |lines|
      ensures Exported(calls) + batch + queue == accepted && ExportedLogs(calls) + lines + logs == acceptedLogs
    {
      ReachableInv(Current());
    }

    /** A worker that has returned has handed over all it accepted, in order. */
    lemma ReturnedMeansHandedOver()
      requires Valid() && returned
      ensures Exported(calls) == accepted && ExportedLogs(calls) == acceptedLogs
      ensures delivered + failed + dropped + logDrop == offered
      ensures calls != [] && forall i | 0 <= i < |calls| :: calls[i].Close? <==> i == |calls| - 1
    {
      ReachableInv(Current());
    }

    /** Sends without ever blocking: a full queue drops and counts. */
    method Offer(r: R)
      requires Valid() && Enabled(Current(), Enqueue(r))
      modifies this
      ensures Valid() && Current() == Next(old(Current()), Enqueue(r))
      ensures old(|queue|) < capacity ==>
                queue == old(queue) + [r] && accepted == old(accepted) + [r] && dropped == old(dropped)
      ensures old(|queue|) >= capacity ==>
                queue == old(queue) && accepted == old(accepted) && dropped == old(dropped) + 1
    {
      ReachableNext(Current(), Enqueue(r));
      offered := offered + 1;
      if |queue| < capacity {
        queue, accepted := queue + [r], accepted + [r];
      } else {
        dropped := dropped + 1;
      }
    }

    method OfferLog(l: L)
      requires Valid() && Enabled(Current(), EnqueueLog(l))
      modifies this
      ensures Valid() && Current() == Next(old(Current()), EnqueueLog(l))
      ensures acceptsLogs && old(|logs|) < capacity ==>
                logs == old(logs) + [l] && acceptedLogs == old(acceptedLogs) + [l] && logDrop == old(logDrop)
      ensures acceptsLogs && old(|logs|) >= capacity ==>
                logs == old(logs) && acceptedLogs == old(acceptedLogs) && logDrop == old(logDrop) + 1
      ensures !acceptsLogs ==> logs == old(logs) && acceptedLogs == old(acceptedLogs) && logDrop == old(logDrop)
    {
      ReachableNext(Current(), EnqueueLog(l));
      if !acceptsLogs {
        return;
      }
      offered := offered + 1;
      if |logs| < capacity {
        logs, acceptedLogs := logs + [l], acceptedLogs + [l];
      } else {
        logDrop := logDrop + 1;
      }
    }

    /** The body of the `flush` closure, given the exporter's answer. */
    method SendBatch(ok: bool)
      requires pending != []
      modifies this
      ensures Current() == SendRecords(old(Current()), ok)
    {
      pending := pending[1..];
      if |batch| == 0 {
        return;
      }
      calls := calls + [Export(batch)];
      if ok {
        delivered := delivered + |batch|;
      } else {
        failed := failed + |batch|;
      }
      batch := [];
    }

    /** The body of the `flushLogs` closure. */
    method SendBatchOfLines(ok: bool)
      requires pending != []
      modifies this
      ensures Current() == SendLines(old(Current()), ok)
    {
      pending := pending[1..];
      if |lines| == 0 {
        return;
      }
      calls := calls + [ExportLogs(lines)];
      if ok {
        delivered := delivered + |lines|;
      } else {
        failed := failed + |lines|;
      }
      lines := [];
    }

    method Flush(ok: bool)
      requires Valid() && pending != [] && pending[0].FlushRecords?
      modifies this
      ensures Valid() && Current() == SendRecords(old(Current()), ok)
      ensures batch == [] && Exported(calls) == Exported(old(calls)) + old(batch)
      ensures delivered == old(delivered) + if ok then old(|batch|) else 0
      ensures failed == old(failed) + if ok then 0 else old(|batch|)
    {
      ExportedAppend(calls, Export(batch));
      ReachableNext(Current(), Perform(ok));
      SendBatch(ok);
    }

    method FlushLines(ok: bool)
      requires Valid() && pending != [] && pending[0].FlushLogs?
      modifies this
      ensures Valid() && Current() == SendLines(old(Current()), ok)
      ensures lines == [] && ExportedLogs(calls) == ExportedLogs(old(calls)) + old(lines)
      ensures delivered == old(delivered) + if ok then old(|lines|) else 0
      ensures failed == old(failed) + if ok then 0 else old(|lines|)
    {
      ExportedAppend(calls, ExportLogs(lines));
      ReachableNext(Current(), Perform(ok));
      SendBatchOfLines(ok);
    }

    /** One arm of the `select`, one line of the drain loop, or one pending operation. */
    method Step(e: Event<R, L>)
      requires Valid() && Enabled(Current(), e) && (WorkerStep(e) || e.Tick?)
      modifies this
      ensures Valid() && Current() == Next(old(Current()), e)
    {
      ReachableNext(Current(), e);
      match e
      case ReceiveRecord =>
        ReceiveNext();
      case ReceiveEndOfRecords =>
        pending := [FlushRecords, DrainLogs, FlushLogs, CloseExporter];
      case ReceiveLog =>
        ReceiveNextLine();
      case ReceiveEndOfLogs =>
        selectingLogs, pending := false, [FlushLogs];
      case Tick =>
        pending := [FlushRecords, FlushLogs];
      case Perform(ok) =>
        PerformPending(ok);
    }

    method ReceiveNext()
      requires Valid() && Enabled(Current(), ReceiveRecord)
      modifies this
      ensures Valid() && Current() == SelectStep(old(Current()), ReceiveRecord)
    {
      ReachableNext(Current(), ReceiveRecord);
      batch, queue := batch + [queue[0]], queue[1..];
      if |batch| >= batchSize {
        pending := [FlushRecords];
      }
    }

    method ReceiveNextLine()
      requires Valid() && Enabled(Current(), ReceiveLog)
      modifies this
      ensures Valid() && Current() == SelectStep(old(Current()), ReceiveLog)
    {
      ReachableNext(Current(), ReceiveLog);
      lines, logs := lines + [logs[0]], logs[1..];
      if |lines| >= batchSize {
        pending := [FlushLogs];
      }
    }

    method PerformPending(ok: bool)
      requires Valid() && Enabled(Current(), Perform(ok))
      modifies this
      ensures Valid() && Current() == PerformFirst(old(Current()), ok)
    {
      ReachableNext(Current(), Perform(ok));
      match pending[0]
      case FlushRecords => Flush(ok);
      case FlushLogs => FlushLines(ok);
      case DrainLogs => DrainOne(ok);
      case CloseExporter =>
        pending, returned := pending[1..], true;
        calls := calls + [Close];
    }

    /** One round of the drain loop. */
    method DrainOne(ghost ok: bool)
      requires Valid() && Enabled(Current(), Perform(ok)) && pending[0].DrainLogs?
      modifies this
      ensures Valid() && Current() == Drain(old(Current()))
    {
      ReachableNext(Current(), Perform(ok));
      if selectingLogs && |logs| > 0 {
        lines, logs := lines + [logs[0]], logs[1..];
        if |lines| >= batchSize {
          pending := [FlushLogs] + pending;
        }
      } else {
        pending := pending[1..];
      }
    }

    /** The part of `Shutdown` that concerns one worker. */
    method CloseChannels()
      requires Valid() && !queueClosed && !logsClosed
      modifies this
      ensures Valid() && ShutDown(Current()) && Current() == Closed(old(Current()))
    {
      ReachableClosed(Current());
      if acceptsLogs {
        logsClosed := true;
      }
      queueClosed := true;
    }
  }

  /** The channels are closed, log channel first; there is none when log lines are
      not taken. */
  ghost function Closed<R, L>(s: State<R, L>): State<R, L>
    requires !s.recs.closed && !s.logs.closed
  {
    if s.acceptsLogs then Next(Next(s, CloseLogs), CloseQueue) else Next(s, CloseQueue)
  }

  lemma {:induction false} ReachableClosed<R(!new), L(!new)>(s: State<R, L>)
    requires Reachable(s) && !s.recs.closed && !s.logs.closed
    ensures Reachable(Closed(s))
  {
    if s.acceptsLogs {
      ReachableNext(s, CloseLogs);
      ReachableNext(Next(s, CloseLogs), CloseQueue);
    } else {
      ReachableNext(s, CloseQueue);
    }
  }

  class Dispatcher<R(!new), L(!new)> {
    const workers: seq<Worker<R, L>>

    constructor (workers: seq<Worker<R, L>>)
      ensures this.workers == workers
    {
      this.workers := workers;
    }

    /** Distinct workers, each in a valid state. */
    ghost predicate Valid()
      reads workers
    {
      && (forall i, j | 0 <= i < j < |workers| :: workers[i] != workers[j])
      && forall w | w in workers :: w.Valid()
    }

    /** When all workers have returned, each exporter has got all that its worker
        accepted, and the counters of each add up to what it was offered. */
    lemma {:induction false} ReturnedMeansHandedOver()
      requires Valid() && forall w | w in workers :: w.returned
      ensures forall w | w in workers ::
                && Exported(w.calls) == w.accepted && ExportedLogs(w.calls) == w.acceptedLogs
                && w.delivered + w.failed + w.dropped + w.logDrop == w.offered
    {
      forall w | w in workers
        ensures Exported(w.calls) == w.accepted && ExportedLogs(w.calls) == w.acceptedLogs
        ensures w.delivered + w.failed + w.dropped + w.logDrop == w.offered
      {
        w.ReturnedMeansHandedOver();
      }
    }

    /** `Enqueue`: the record is offered to every worker, none of which sees the others. */
    method EnqueueAll(r: R)
      requires Valid() && forall w | w in workers :: !w.queueClosed
      modifies workers
      ensures Valid()
      ensures forall w | w in workers :: w.Current() == Next(old(w.Current()), Enqueue(r))
    {
      for n := 0 to |workers|
        invariant Valid()
        invariant forall i | 0 <= i < n :: workers[i].Current() == Next(old(workers[i].Current()), Enqueue(r))
        invariant forall i | n <= i < |workers| :: workers[i].Current() == old(workers[i].Current())
      {
        workers[n].Offer(r);
      }
    }

    /** `EnqueueAppLog`. */
    method EnqueueAppLogAll(l: L)
      requires Valid() && forall w | w in workers :: !w.logsClosed
      modifies workers
      ensures Valid()
      ensures forall w | w in workers :: w.Current() == Next(old(w.Current()), EnqueueLog(l))
    {
      for n := 0 to |workers|
        invariant Valid()
        invariant forall i | 0 <= i < n :: workers[i].Current() == Next(old(workers[i].Current()), EnqueueLog(l))
        invariant forall i | n <= i < |workers| :: workers[i].Current() == old(workers[i].Current())
      {
        workers[n].OfferLog(l);
      }
    }

    /** `Shutdown` closes the channels of every worker. */
    method CloseChannels()
      requires Valid() && forall w | w in workers :: !w.queueClosed && !w.logsClosed
      modifies workers
      ensures Valid()
      ensures forall w | w in workers :: ShutDown(w.Current()) && w.Current() == Closed(old(w.Current()))
    {
      for n := 0 to |workers|
        invariant Valid()
        invariant forall i | 0 <= i < n ::
          ShutDown(workers[i].Current()) && workers[i].Current() == Closed(old(workers[i].Current()))
        invariant forall i | n <= i < |workers| :: workers[i].Current() == old(workers[i].Current())
      {
        workers[n].CloseChannels();
      }
    }

    /** A step of one worker is a step of that worker alone. */
    method StepOne(n: nat, e: Event<R, L>)
      requires Valid() && n < |workers|
      requires Enabled(workers[n].Current(), e) && (WorkerStep(e) || e.Tick?)
      modifies workers[n]
      ensures Valid() && workers[n].Current() == Next(old(workers[n].Current()), e)
      ensures forall i | 0 <= i < |workers| && i != n :: workers[i].Current() == old(workers[i].Current())
    {
      workers[n].Step(e);
    }
  }
}
