/** The HTTP sink of kazenai/sinks.py as a user of the durable spool.

    The network is an argument: posted says whether a batch arrived. disk lists the database size each
    enqueue sees. A sink whose spool could not be opened has none. */
module HttpSink {
  import opened Wrappers
  import opened RetryQueue

  datatype SinkStats = SinkStats(
    delivered: nat, spooled: nat, droppedQueue: nat, droppedDisk: nat, workerErrors: nat, retryBatches: nat, duplicates: nat)

  /** Enqueue the batch in order; the outcomes say what became of each event. */
  function SpoolAll(cfg: Config, q: Spool, batch: seq<Incoming>, disk: seq<int>): (r: (Spool, seq<Outcome>))
    requires |disk| == |batch|
    ensures |r.1| == |batch|
  {
    if batch == [] then (q, [])
    else
      var (p, outcomes) := SpoolAll(cfg, q, batch[..|batch| - 1], disk[..|batch| - 1]);
      var (p', outcome) := Enqueue(cfg, p, batch[|batch| - 1], disk[|batch| - 1]);
      (p', outcomes + [outcome])
  }

  lemma SpoolAllStep(cfg: Config, q: Spool, batch: seq<Incoming>, disk: seq<int>, i: nat)
    requires i < |batch| == |disk|
    ensures SpoolAll(cfg, q, batch[..i + 1], disk[..i + 1])
            == var (p, outcomes) := SpoolAll(cfg, q, batch[..i], disk[..i]);
               var (p', outcome) := Enqueue(cfg, p, batch[i], disk[i]);
               (p', outcomes + [outcome])
  {
    assert batch[..i + 1][..i] == batch[..i] && disk[..i + 1][..i] == disk[..i];
  }

  predicate Kept(outcome: Outcome) { outcome.Applied? || outcome.Duplicate? }

  function BookOne(stats: SinkStats, outcome: Outcome): SinkStats {
    match outcome
    case Applied => stats.(spooled := stats.spooled + 1)
    case Duplicate => stats.(duplicates := stats.duplicates + 1)
    case _ => stats.(droppedDisk := stats.droppedDisk + 1)
  }

  function Book(stats: SinkStats, outcomes: seq<Outcome>): SinkStats {
    if outcomes == [] then stats
    else BookOne(Book(stats, outcomes[..|outcomes| - 1]), outcomes[|outcomes| - 1])
  }

  lemma BookStep(stats: SinkStats, outcomes: seq<Outcome>, outcome: Outcome)
    ensures Book(stats, outcomes + [outcome]) == BookOne(Book(stats, outcomes), outcome)
  {
    assert (outcomes + [outcome])[..|outcomes|] == outcomes;
  }

  /** Every event of a batch is counted once, as spooled, duplicate or dropped, and none is counted
      dropped exactly when all were kept. */
  lemma {:induction false} BookCountsEachOnce(stats: SinkStats, outcomes: seq<Outcome>)
    ensures var b := Book(stats, outcomes);
            && b.spooled + b.duplicates + b.droppedDisk == stats.spooled + stats.duplicates + stats.droppedDisk + |outcomes|
            && b == stats.(spooled := b.spooled, duplicates := b.duplicates, droppedDisk := b.droppedDisk)
            && b.droppedDisk >= stats.droppedDisk
            && (b.droppedDisk == stats.droppedDisk <==> forall i :: 0 <= i < |outcomes| ==> Kept(outcomes[i]))
            && b.spooled == stats.spooled + multiset(outcomes)[Applied]
            && b.duplicates == stats.duplicates + multiset(outcomes)[Duplicate]
  {
    if outcomes != [] {
      assert outcomes == outcomes[..|outcomes| - 1] + [outcomes[|outcomes| - 1]];
      var n := |outcomes| - 1;
      BookCountsEachOnce(stats, outcomes[..n]);
      assert forall i :: 0 <= i < n ==> outcomes[..n][i] == outcomes[i];
    }
  }

  /** A queue has room for one event at least. */
  function AtLeastOne(n: int): nat { if n >= 1 then n else 1 }

  class Sink {
    const spool: RetryQueue?
    const queueMax: nat
    const failClosed: bool
    var queue: seq<Incoming>
    var stats: SinkStats

    ghost predicate Valid()
      reads this, spool
    {
      |queue| <= queueMax && (spool != null ==> spool.Valid())
    }

    constructor (spool: RetryQueue?, queueMax: int, failClosed: bool)
      requires spool != null ==> spool.Valid()
      ensures Valid() && this.spool == spool && queue == [] && stats == SinkStats(0, 0, 0, 0, 0, 0, 0)
      ensures this.failClosed == failClosed && this.queueMax == AtLeastOne(queueMax)
    {
      this.spool := spool;
      this.queueMax := AtLeastOne(queueMax);
      this.failClosed := failClosed;
      queue := [];
      stats := SinkStats(0, 0, 0, 0, 0, 0, 0);
    }

    method SpoolOne(event: Incoming, disk: int) returns (outcome: Outcome)
      requires spool != null && spool.Valid()
      modifies this`stats, spool
      ensures spool.Valid() && (spool.View(), outcome) == Enqueue(spool.cfg, old(spool.View()), event, disk)
      ensures stats == BookOne(old(stats), outcome)
    {
      outcome := spool.EnqueueEvent(event, disk);
      if outcome.Applied? {
        stats := stats.(spooled := stats.spooled + 1);
      } else if outcome.Duplicate? {
        stats := stats.(duplicates := stats.duplicates + 1);
      } else {
        stats := stats.(droppedDisk := stats.droppedDisk + 1);
      }
    }

    /** Store a batch durably. True when nothing of it was refused. */
    method SpoolBatch(batch: seq<Incoming>, disk: seq<int>) returns (ok: bool)
      requires Valid() && |disk| == |batch|
      modifies this`stats, spool
      ensures Valid()
      ensures spool == null ==> stats == old(stats) && (ok <==> batch == [])
      ensures spool != null ==>
                var (q, outcomes) := SpoolAll(spool.cfg, old(spool.View()), batch, disk);
                && spool.View() == q
                && ok == (forall i :: 0 <= i < |outcomes| ==> Kept(outcomes[i]))
                && stats == Book(old(stats), outcomes)
    {
      if spool == null {
        return batch == [];
      }
      ok := true;
      ghost var outcomes: seq<Outcome> := [];
      for i := 0 to |batch|
        invariant spool.Valid() && |queue| <= queueMax
        invariant (spool.View(), outcomes) == SpoolAll(spool.cfg, old(spool.View()), batch[..i], disk[..i])
        invariant ok == (forall i :: 0 <= i < |outcomes| ==> Kept(outcomes[i]))
        invariant stats == Book(old(stats), outcomes)
      {
        var outcome := SpoolOne(batch[i], disk[i]);
        SpoolAllStep(spool.cfg, old(spool.View()), batch, disk, i);
        BookStep(old(stats), outcomes, outcome);
        outcomes := outcomes + [outcome];
        ok := ok && Kept(outcome);
      }
      assert batch[..|batch|] == batch && disk[..|batch|] == disk;
    }

    /** Take an event. A mandatory one, or any under fail-closed, is never lost without an error:
        accepted is false when the call raises. */
    method Emit(event: Incoming, mandatory: bool, disk: int) returns (accepted: bool)
      requires Valid()
      modifies this`stats, this`queue, spool
      ensures Valid()
      ensures old(|queue|) < queueMax ==>
                accepted && queue == old(queue) + [event] && stats == old(stats) && (spool != null ==> spool.View() == old(spool.View()))
      ensures old(|queue|) == queueMax ==>
                var (q, outcome) := if spool == null then (EMPTY, RejectedDisk) else Enqueue(spool.cfg, old(spool.View()), event, disk);
                && queue == old(queue)
                && (spool != null ==> spool.View() == q)
                && (accepted <==> Kept(outcome) || !(mandatory || failClosed))
                && stats == old(stats).(
                              droppedQueue := old(stats).droppedQueue + 1,
                              spooled := old(stats).spooled + (if outcome.Applied? then 1 else 0),
                              duplicates := old(stats).duplicates + (if outcome.Duplicate? then 1 else 0),
                              droppedDisk := stats.droppedDisk)
                && stats.droppedDisk == old(stats).droppedDisk + (if Kept(outcome) then 0 else if spool == null then 1 else 2)
    {
      if |queue| < queueMax {
        queue := queue + [event];
        return true;
      }
      stats := stats.(droppedQueue := stats.droppedQueue + 1);
      var stored := SpoolBatch([event], [disk]);
      assert [event][..0] == [] && [disk][..0] == [];
      if spool != null {
        var one := Enqueue(spool.cfg, old(spool.View()), event, disk).1;
        assert SpoolAll(spool.cfg, old(spool.View()), [event], [disk]).1 == [one];
        assert [one][..0] == [];
        assert [one][0] == one;
      }
      if stored {
        return true;
      }
      stats := stats.(droppedDisk := stats.droppedDisk + 1);
      return !(mandatory || failClosed);
    }

    /** One round of redelivery: a batch is acknowledged only when its post succeeded, and given back
        otherwise. */
    method DrainRetryOnce(now: int, batchMax: int, posted: bool) returns (batch: seq<LeasedEvent>)
      requires Valid()
      modifies this`stats, spool
      ensures Valid()
      ensures spool == null ==> batch == [] && stats == old(stats)
      ensures spool != null ==>
                var (q, leased) := Lease(spool.cfg, old(spool.View()), now, batchMax);
                && batch == leased
                && spool.View() == (if leased == [] then q
                                    else if posted then Ack(q, RowIds(leased))
                                    else Nack(spool.cfg, q, RowIds(leased)))
                && spool.View().acked == old(spool.View()).acked
                                         + (if posted then Ids(q.pending) * (set i <- RowIds(leased) :: i) else {})
                && stats.delivered == old(stats).delivered + (if posted then |leased| else 0)
                && stats.retryBatches == old(stats).retryBatches + (if leased == [] then 0 else 1)
                && stats.workerErrors == old(stats).workerErrors + (if leased == [] || posted then 0 else 1)
                && stats == old(stats).(delivered := stats.delivered, retryBatches := stats.retryBatches, workerErrors := stats.workerErrors)
    {
      batch := [];
      if spool == null {
        return;
      }
      batch := spool.LeaseRows(now, batchMax);
      if batch == [] {
        return;
      }
      stats := stats.(retryBatches := stats.retryBatches + 1);
      if posted {
        stats := stats.(delivered := stats.delivered + |batch|);
        spool.AckRows(RowIds(batch));
      } else {
        stats := stats.(workerErrors := stats.workerErrors + 1);
        NackAcksNothing(spool.cfg, spool.View(), RowIds(batch));
        spool.NackRows(RowIds(batch));
      }
    }
  }

  /** A sink whose queue is full, and a database at its limit: one mandatory event is lost, and two are
      counted as dropped by the disk. */
  method LostEventCountsTwice(cfg: Config, queueMax: int, waiting: Incoming, event: Incoming)
    returns (before: SinkStats, after: SinkStats, accepted: bool)
    ensures before == SinkStats(0, 0, 0, 0, 0, 0, 0)
    ensures !accepted && after == before.(droppedQueue := 1, droppedDisk := 2)
  {
    var spool := new RetryQueue(cfg);
    var sink := new Sink(spool, queueMax, false);
    for i := 0 to sink.queueMax
      invariant sink.Valid() && |sink.queue| == i && sink.stats == SinkStats(0, 0, 0, 0, 0, 0, 0)
    {
      var taken := sink.Emit(waiting, true, cfg.maxDiskBytes);
    }
    before := sink.stats;
    ghost var refused := Enqueue(cfg, spool.View(), event, cfg.maxDiskBytes).1;
    assert !Kept(refused);
    accepted := sink.Emit(event, true, cfg.maxDiskBytes);
    after := sink.stats;
  }

  lemma {:induction false} NackAcksNothing(cfg: Config, q: Spool, ids: seq<nat>)
    ensures Nack(cfg, q, ids).acked == q.acked
    decreases |ids|
  {
    if ids != [] {
      NackAcksNothing(cfg, NackOne(cfg, q, ids[0]), ids[1..]);
    }
  }
}
