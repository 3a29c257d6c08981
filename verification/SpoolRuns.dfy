/** What every run of spool operations guarantees, from an empty database on. */
module SpoolRuns {
  import opened Wrappers
  import opened RetryQueue

  datatype Op =
    | EnqueueOp(event: Incoming, diskBytes: int)
    | LeaseOp(now: int, limit: int)
    | AckOp(ids: seq<nat>)
    | NackOp(ids: seq<nat>)

  function Next(cfg: Config, q: Spool, op: Op): Spool {
    match op
    case EnqueueOp(event, diskBytes) => Enqueue(cfg, q, event, diskBytes).0
    case LeaseOp(now, limit) => Lease(cfg, q, now, limit).0
    case AckOp(ids) => if ids == [] then q else Ack(q, ids)
    case NackOp(ids) => Nack(cfg, q, ids)
  }

  predicate Steps(cfg: Config, qs: seq<Spool>, ops: seq<Op>, i: nat)
    requires i < |ops| < |qs|
  {
    qs[i + 1] == Next(cfg, qs[i], ops[i])
  }

  predicate IsRun(cfg: Config, qs: seq<Spool>, ops: seq<Op>) {
    |qs| == |ops| + 1 && qs[0] == EMPTY && forall i :: 0 <= i < |ops| ==> Steps(cfg, qs, ops, i)
  }

  lemma NextConserves(cfg: Config, q: Spool, op: Op)
    requires Conserved(cfg, q)
    ensures Conserved(cfg, Next(cfg, q, op))
  {
    match op
    case EnqueueOp(event, diskBytes) => EnqueueConserves(cfg, q, event, diskBytes);
    case LeaseOp(now, limit) => LeaseConserves(cfg, q, now, limit);
    case AckOp(ids) => AckConserves(cfg, q, ids);
    case NackOp(ids) => NackConserves(cfg, q, ids);
  }

  /** Every state of every run conserves: each applied event is pending, dead or acknowledged and only
      one of them, event ids are unique, and pending rows stay within the cap. */
  lemma {:induction false} RunConserves(cfg: Config, qs: seq<Spool>, ops: seq<Op>, n: nat)
    requires IsRun(cfg, qs, ops) && n < |qs|
    ensures Conserved(cfg, qs[n])
  {
    if n > 0 {
      RunConserves(cfg, qs, ops, n - 1);
      assert Steps(cfg, qs, ops, n - 1);
      NextConserves(cfg, qs[n - 1], ops[n - 1]);
    }
  }

  // ------------------------------------------------------------------ nothing comes back

  predicate Extends(a: Spool, b: Spool) {
    && a.applied <= b.applied && a.buried <= b.buried && a.dead <= b.dead && a.acked <= b.acked
  }

  lemma {:induction false} NackExtends(cfg: Config, q: Spool, ids: seq<nat>)
    ensures Extends(q, Nack(cfg, q, ids))
    ensures Nack(cfg, q, ids).applied == q.applied && Nack(cfg, q, ids).acked == q.acked
    decreases |ids|
  {
    if ids != [] {
      NackExtends(cfg, NackOne(cfg, q, ids[0]), ids[1..]);
    }
  }

  /** What was applied, buried or acknowledged stays so. */
  lemma {:induction false} NothingComesBack(cfg: Config, qs: seq<Spool>, ops: seq<Op>, m: nat, n: nat)
    requires IsRun(cfg, qs, ops) && m <= n < |qs|
    ensures Extends(qs[m], qs[n])
  {
    if m < n {
      NothingComesBack(cfg, qs, ops, m, n - 1);
      assert Steps(cfg, qs, ops, n - 1);
      if ops[n - 1].NackOp? {
        NackExtends(cfg, qs[n - 1], ops[n - 1].ids);
      }
    }
  }

  // ------------------------------------------------------------------ every item is an event's

  /** The events the first n operations applied, in order. */
  function AppliedEvents(cfg: Config, qs: seq<Spool>, ops: seq<Op>, n: nat): seq<Incoming>
    requires n <= |ops| < |qs|
  {
    if n == 0 then []
    else
      AppliedEvents(cfg, qs, ops, n - 1)
      + if ops[n - 1].EnqueueOp? && Enqueue(cfg, qs[n - 1], ops[n - 1].event, ops[n - 1].diskBytes).1.Applied? then [ops[n - 1].event] else []
  }

  predicate CarriesAll(cfg: Config, items: seq<Item>, events: seq<Incoming>) {
    |items| == |events| && forall i :: 0 <= i < |items| ==> Carries(cfg, items[i], events[i]) && !ForeignTo(cfg, events[i])
  }

  lemma {:induction false} AppliedAreTheEvents(cfg: Config, qs: seq<Spool>, ops: seq<Op>, n: nat)
    requires IsRun(cfg, qs, ops) && n <= |ops|
    ensures CarriesAll(cfg, qs[n].applied, AppliedEvents(cfg, qs, ops, n))
  {
    if n > 0 {
      AppliedAreTheEvents(cfg, qs, ops, n - 1);
      assert Steps(cfg, qs, ops, n - 1);
      var q, op := qs[n - 1], ops[n - 1];
      match op
      case EnqueueOp(event, diskBytes) =>
        EnqueueCarriesTheEvent(cfg, q, event, diskBytes);
        hide Enqueue, Carries, ForeignTo;
      case NackOp(ids) => NackExtends(cfg, q, ids);
      case _ =>
    }
  }

  /** The id names one of the events, and the item is that event's. */
  predicate Stems(cfg: Config, id: nat, item: Item, events: seq<Incoming>) {
    1 <= id <= |events| && Carries(cfg, item, events[id - 1])
  }

  /** What is handed out by a lease is what the table holds under its id, one attempt on. */
  lemma LeasedIsARow(cfg: Config, q: Spool, now: int, limit: int, i: nat) returns (r: Row)
    requires Ordered(q.pending) && i < |Lease(cfg, q, now, limit).1|
    ensures r in q.pending && Lease(cfg, q, now, limit).1[i] == LeasedEvent(r.id, r.item, r.attempts + 1)
  {
    var rows := Selected(q.pending, now, limit);
    SelectedIsOldest(q.pending, now, limit);
    ParsedIsExact(rows);
    r := Parsed(rows)[i];
    assert r in Parsed(rows) && r in rows;
  }

  /** On every run: each row pending, dead or handed out by a lease, and each acknowledged one, is a different
      applied event, and has that event's id, org and text; and none belongs to a tenant other than the queue's. */
  lemma EveryItemIsAnEvent(cfg: Config, qs: seq<Spool>, ops: seq<Op>, n: nat)
    requires IsRun(cfg, qs, ops) && n <= |ops|
    ensures var q, events := qs[n], AppliedEvents(cfg, qs, ops, n);
            && (forall r <- q.pending :: Stems(cfg, r.id, r.item, events))
            && |q.buried| == |q.dead| && (forall k :: 0 <= k < |q.dead| ==> Stems(cfg, q.buried[k], q.dead[k].item, events))
            && (forall id <- q.acked :: 1 <= id <= |events| == |q.applied| && Carries(cfg, q.applied[id - 1], events[id - 1]))
            && (forall now, limit, i :: 0 <= i < |Lease(cfg, q, now, limit).1| ==>
                  var l := Lease(cfg, q, now, limit).1[i]; Stems(cfg, l.rowId, l.item, events))
    ensures cfg.orgId.Some? ==> forall item <- qs[n].applied :: item.orgId == cfg.orgId
  {
    AppliedAreTheEvents(cfg, qs, ops, n);
    RunConserves(cfg, qs, ops, n);
    var q, events := qs[n], AppliedEvents(cfg, qs, ops, n);
    forall now, limit, i | 0 <= i < |Lease(cfg, q, now, limit).1|
      ensures var l := Lease(cfg, q, now, limit).1[i]; Stems(cfg, l.rowId, l.item, events)
    {
      var r := LeasedIsARow(cfg, q, now, limit, i);
    }
  }

  // ------------------------------------------------------------------ leases

  predicate Leases(cfg: Config, q: Spool, op: Op, id: nat) {
    op.LeaseOp? && id in RowIds(Lease(cfg, q, op.now, op.limit).1)
  }

  predicate ClockForward(ops: seq<Op>) {
    forall i, j :: 0 <= i < j < |ops| && ops[i].LeaseOp? && ops[j].LeaseOp? ==> ops[i].now <= ops[j].now
  }

  predicate LeasedUntil(q: Spool, id: nat, t: int) {
    forall r <- q.pending :: r.id == id ==> r.leaseUntil >= t
  }

  lemma {:induction false} ParsedIsExact(rows: seq<Row>)
    ensures forall r :: r in Parsed(rows) <==> r in rows && r.item.payload.Json?
    ensures forall r :: r in Unparsed(rows) <==> r in rows && !r.item.payload.Json?
  {
    if rows != [] {
      ParsedIsExact(rows[1..]);
      assert rows == [rows[0]] + rows[1..];
    }
  }

  /** Which ids a lease hands out. */
  lemma LeasedIds(cfg: Config, q: Spool, now: int, limit: int, id: nat)
    requires Ordered(q.pending)
    ensures id in RowIds(Lease(cfg, q, now, limit).1) <==>
              exists r <- Selected(q.pending, now, limit) :: r.id == id && r.item.payload.Json?
    ensures id in RowIds(Lease(cfg, q, now, limit).1) ==>
              exists r <- q.pending :: r.id == id && r.leaseUntil <= now && r.item.payload.Json?
  {
    var rows := Selected(q.pending, now, limit);
    SelectedIsOldest(q.pending, now, limit);
    ParsedIsExact(rows);
    var leased := LeasedEvents(Parsed(rows));
    if id in RowIds(leased) {
      var i :| 0 <= i < |leased| && RowIds(leased)[i] == id;
      assert Parsed(rows)[i] in Parsed(rows);
      assert Parsed(rows)[i] in rows;
    }
    if exists r :: r in rows && r.id == id && r.item.payload.Json? {
      var r :| r in rows && r.id == id && r.item.payload.Json?;
      assert r in Parsed(rows);
      var i :| 0 <= i < |Parsed(rows)| && Parsed(rows)[i] == r;
      assert RowIds(leased)[i] == id;
    }
  }

  lemma {:induction false} MarkedFrom(rows: seq<Row>, ids: set<nat>, until: int, r: Row) returns (t: Row)
    requires r in Marked(rows, ids, until)
    ensures t in rows && r == (if t.id in ids then Take(t, until) else t)
    ensures t.id in ids ==> t.item.payload.Json?
  {
    if r in MarkedRow(rows[0], ids, until) {
      t := rows[0];
    } else {
      t := MarkedFrom(rows[1..], ids, until, r);
    }
  }

  /** A row after a lease: taken if it was handed out, untouched if not. */
  lemma RowAfterLease(cfg: Config, q: Spool, now: int, limit: int, r: Row) returns (t: Row)
    requires Ordered(q.pending) && r in Lease(cfg, q, now, limit).0.pending
    ensures t in q.pending
    ensures if r.id in RowIds(Lease(cfg, q, now, limit).1)
            then r == Take(t, now + cfg.leaseTtlMs) && t.item.payload.Json?
            else r == t
  {
    var rows := Selected(q.pending, now, limit);
    var until := now + cfg.leaseTtlMs;
    SelectedIsOldest(q.pending, now, limit);
    LeasedIds(cfg, q, now, limit, r.id);
    t := MarkedFrom(q.pending, Ids(rows), until, r);
    if t.id in Ids(rows) {
      var u :| u in rows && u.id == t.id;
      SameIdSameRow(q.pending, t, u);
    }
  }

  /** A dead letter a lease adds is a row that does not parse, and was not handed out. */
  lemma DeadAfterLease(cfg: Config, q: Spool, now: int, limit: int, k: nat) returns (u: Row)
    requires Ordered(q.pending) && |q.buried| == |q.dead|
    requires |q.dead| <= k < |Lease(cfg, q, now, limit).0.dead|
    ensures var (p, leased) := Lease(cfg, q, now, limit);
            && u in q.pending && u.item.payload.Corrupt? && u.id !in RowIds(leased)
            && |p.buried| == |p.dead| && p.buried[k] == u.id && p.dead[k] == Dead(u.item, u.attempts, JsonParse)
  {
    var rows := Selected(q.pending, now, limit);
    SelectedIsOldest(q.pending, now, limit);
    ParsedIsExact(rows);
    u := Unparsed(rows)[k - |q.dead|];
    assert u in Unparsed(rows) && u in rows;
    LeasedIds(cfg, q, now, limit, u.id);
    forall r | r in rows && r.id == u.id ensures r == u {
      SameIdSameRow(q.pending, r, u);
    }
  }

  lemma LeaseKeepsLeases(cfg: Config, q: Spool, now: int, limit: int, id: nat, t: int)
    requires Conserved(cfg, q)
    requires LeasedUntil(q, id, t) && now + cfg.leaseTtlMs >= t
    ensures LeasedUntil(Lease(cfg, q, now, limit).0, id, t)
  {
    var rows := Selected(q.pending, now, limit);
    MarkedKeeps(q.pending, Ids(rows), now + cfg.leaseTtlMs);
  }

  /** A row that is handed out is the one that was due, with one attempt more and the whole lease time ahead; every
      other row stays as it was. */
  lemma LeaseRunsItsTime(cfg: Config, q: Spool, now: int, limit: int, r: Row)
    requires Ordered(q.pending) && r in Lease(cfg, q, now, limit).0.pending
    ensures if r.id in RowIds(Lease(cfg, q, now, limit).1)
            then exists t <- q.pending :: t.id == r.id && t.item == r.item && r.attempts == t.attempts + 1
                                          && t.leaseUntil <= now && r.leaseUntil == now + cfg.leaseTtlMs
            else r in q.pending
  {
    var t := RowAfterLease(cfg, q, now, limit, r);
    if r.id in RowIds(Lease(cfg, q, now, limit).1) {
      var rows := Selected(q.pending, now, limit);
      LeasedIds(cfg, q, now, limit, r.id);
      SelectedIsOldest(q.pending, now, limit);
      var u :| u in rows && u.id == t.id;
      SameIdSameRow(q.pending, t, u);
      assert t in rows;
    }
  }

  lemma LeaseStartsLease(cfg: Config, q: Spool, now: int, limit: int, id: nat)
    requires Conserved(cfg, q) && id in RowIds(Lease(cfg, q, now, limit).1)
    ensures LeasedUntil(Lease(cfg, q, now, limit).0, id, now + cfg.leaseTtlMs)
    ensures 1 <= id <= |q.applied|
  {
    var rows := Selected(q.pending, now, limit);
    LeasedIds(cfg, q, now, limit, id);
    MarkedKeeps(q.pending, Ids(rows), now + cfg.leaseTtlMs);
    assert id in Ids(rows);
    assert id in Ids(q.pending);
  }

  lemma {:induction false} NackKeepsLeases(cfg: Config, q: Spool, ids: seq<nat>, id: nat, t: int)
    requires id !in ids && LeasedUntil(q, id, t)
    ensures LeasedUntil(Nack(cfg, q, ids), id, t)
    decreases |ids|
  {
    if ids != [] {
      LookupFinds(q.pending, ids[0]);
      WithoutKeeps(q.pending, {ids[0]});
      if Lookup(q.pending, ids[0]).Some? {
        UpdatedRows(q.pending, Lookup(q.pending, ids[0]).value.(leaseUntil := 0));
      }
      NackKeepsLeases(cfg, NackOne(cfg, q, ids[0]), ids[1..], id, t);
    }
  }

  lemma {:induction false} LeaseLasts(cfg: Config, qs: seq<Spool>, ops: seq<Op>, i: nat, m: nat, id: nat)
    requires IsRun(cfg, qs, ops) && ClockForward(ops) && i < m <= |ops| && Leases(cfg, qs[i], ops[i], id)
    requires forall k :: i < k < m && ops[k].NackOp? ==> id !in ops[k].ids
    ensures LeasedUntil(qs[m], id, ops[i].now + cfg.leaseTtlMs)
    ensures 1 <= id <= |qs[m].applied|
  {
    assert Steps(cfg, qs, ops, m - 1);
    RunConserves(cfg, qs, ops, m - 1);
    var q, op, t := qs[m - 1], ops[m - 1], ops[i].now + cfg.leaseTtlMs;
    if m == i + 1 {
      LeaseStartsLease(cfg, q, op.now, op.limit, id);
    } else {
      LeaseLasts(cfg, qs, ops, i, m - 1, id);
      match op
      case EnqueueOp(event, diskBytes) =>
      case LeaseOp(now, limit) => LeaseKeepsLeases(cfg, q, now, limit, id, t);
      case AckOp(ids) => WithoutKeeps(q.pending, set k <- ids :: k);
      case NackOp(ids) => NackKeepsLeases(cfg, q, ids, id, t); NackExtends(cfg, q, ids);
    }
  }

  /** Two leases of one row with no nack of it between are at least the lease time apart. */
  lemma LeasesAreApart(cfg: Config, qs: seq<Spool>, ops: seq<Op>, i: nat, j: nat, id: nat)
    requires IsRun(cfg, qs, ops) && ClockForward(ops) && i < j < |ops|
    requires Leases(cfg, qs[i], ops[i], id) && Leases(cfg, qs[j], ops[j], id)
    requires forall k :: i < k < j && ops[k].NackOp? ==> id !in ops[k].ids
    ensures ops[j].now >= ops[i].now + cfg.leaseTtlMs
  {
    LeaseLasts(cfg, qs, ops, i, j, id);
    RunConserves(cfg, qs, ops, j);
    LeasedIds(cfg, qs[j], ops[j].now, ops[j].limit, id);
  }

  // ------------------------------------------------------------------ attempts

  predicate AttemptsLeft(cfg: Config, q: Spool) {
    forall r <- q.pending :: r.leaseUntil == 0 ==> r.attempts < cfg.maxAttempts
  }

  lemma {:induction false} NackLeavesAttempts(cfg: Config, q: Spool, ids: seq<nat>)
    requires AttemptsLeft(cfg, q)
    ensures AttemptsLeft(cfg, Nack(cfg, q, ids))
    decreases |ids|
  {
    if ids != [] {
      LookupFinds(q.pending, ids[0]);
      WithoutKeeps(q.pending, {ids[0]});
      if Lookup(q.pending, ids[0]).Some? {
        UpdatedRows(q.pending, Lookup(q.pending, ids[0]).value.(leaseUntil := 0));
      }
      NackLeavesAttempts(cfg, NackOne(cfg, q, ids[0]), ids[1..]);
    }
  }

  lemma NextLeavesAttempts(cfg: Config, q: Spool, op: Op)
    requires cfg.maxAttempts >= 1 && Conserved(cfg, q) && AttemptsLeft(cfg, q)
    requires op.LeaseOp? ==> op.now + cfg.leaseTtlMs != 0
    ensures AttemptsLeft(cfg, Next(cfg, q, op))
  {
    match op
    case EnqueueOp(event, diskBytes) =>
    case LeaseOp(now, limit) => MarkedKeeps(q.pending, Ids(Selected(q.pending, now, limit)), now + cfg.leaseTtlMs);
    case AckOp(ids) => WithoutKeeps(q.pending, set i <- ids :: i);
    case NackOp(ids) => NackLeavesAttempts(cfg, q, ids);
  }

  lemma {:induction false} RunLeavesAttempts(cfg: Config, qs: seq<Spool>, ops: seq<Op>, n: nat)
    requires cfg.maxAttempts >= 1 && IsRun(cfg, qs, ops) && n < |qs|
    requires forall i :: 0 <= i < |ops| && ops[i].LeaseOp? ==> ops[i].now + cfg.leaseTtlMs != 0
    ensures AttemptsLeft(cfg, qs[n])
  {
    if n > 0 {
      RunLeavesAttempts(cfg, qs, ops, n - 1);
      RunConserves(cfg, qs, ops, n - 1);
      assert Steps(cfg, qs, ops, n - 1);
      NextLeavesAttempts(cfg, qs[n - 1], ops[n - 1]);
    }
  }

  predicate LeasesEndAwayFromZero(cfg: Config, ops: seq<Op>) {
    forall i :: 0 <= i < |ops| && ops[i].LeaseOp? ==> ops[i].now + cfg.leaseTtlMs != 0
  }

  /** On runs whose leases never end at instant zero, a row with no lease has attempts left in every
      state exactly when the queue allows at least one attempt (or never stores anything). */
  lemma ReleasedRowsHaveAttemptsLeft(cfg: Config)
    ensures (forall qs: seq<Spool>, ops: seq<Op>, n: nat ::
               IsRun(cfg, qs, ops) && LeasesEndAwayFromZero(cfg, ops) && n < |qs| ==> AttemptsLeft(cfg, qs[n]))
            <==> cfg.maxAttempts >= 1 || cfg.maxPending <= 0
  {
    if cfg.maxAttempts >= 1 {
      forall qs: seq<Spool>, ops: seq<Op>, n: nat | IsRun(cfg, qs, ops) && LeasesEndAwayFromZero(cfg, ops) && n < |qs|
        ensures AttemptsLeft(cfg, qs[n])
      {
        RunLeavesAttempts(cfg, qs, ops, n);
      }
    } else if cfg.maxPending <= 0 {
      forall qs: seq<Spool>, ops: seq<Op>, n: nat | IsRun(cfg, qs, ops) && n < |qs|
        ensures AttemptsLeft(cfg, qs[n])
      {
        RunConserves(cfg, qs, ops, n);
        assert |qs[n].pending| <= cfg.maxPending ==> qs[n].pending == [];
      }
    } else {
      var op := EnqueueOp(Incoming("", "", ""), cfg.maxDiskBytes - 1);
      var q := Next(cfg, EMPTY, op);
      assert q.pending == [Row(1, Item(None, OrElse(None, cfg.orgId), Json("")), 0, 0)];
      assert q.pending[0] in q.pending && !AttemptsLeft(cfg, q);
      var qs, ops := [EMPTY, q], [op];
      assert Steps(cfg, qs, ops, 0);
      assert IsRun(cfg, qs, ops) && LeasesEndAwayFromZero(cfg, ops);
      assert !AttemptsLeft(cfg, qs[1]);
    }
  }

  /** How often an id was leased in the first n operations. */
  function LeaseCount(cfg: Config, qs: seq<Spool>, ops: seq<Op>, id: nat, n: nat): nat
    requires n <= |ops| < |qs|
  {
    if n == 0 then 0
    else LeaseCount(cfg, qs, ops, id, n - 1) + if Leases(cfg, qs[n - 1], ops[n - 1], id) then 1 else 0
  }

  lemma {:induction false} NeverLeasedBeforeApplied(cfg: Config, qs: seq<Spool>, ops: seq<Op>, id: nat, n: nat)
    requires IsRun(cfg, qs, ops) && n <= |ops| && id > |qs[n].applied|
    ensures LeaseCount(cfg, qs, ops, id, n) == 0
  {
    if n > 0 {
      NothingComesBack(cfg, qs, ops, n - 1, n);
      NeverLeasedBeforeApplied(cfg, qs, ops, id, n - 1);
      RunConserves(cfg, qs, ops, n - 1);
      if Leases(cfg, qs[n - 1], ops[n - 1], id) {
        LeaseStartsLease(cfg, qs[n - 1], ops[n - 1].now, ops[n - 1].limit, id);
      }
    }
  }

  /** Every row's attempts are the leases it was handed out in. */
  predicate CountsMatch(q: Spool, count: nat -> nat) {
    && (forall r <- q.pending :: r.attempts == count(r.id))
    && |q.buried| == |q.dead|
    && forall k :: 0 <= k < |q.dead| ==> q.dead[k].attempts == count(q.buried[k])
  }

  lemma {:induction false} NackKeepsCounts(cfg: Config, q: Spool, ids: seq<nat>, count: nat -> nat)
    requires CountsMatch(q, count)
    ensures CountsMatch(Nack(cfg, q, ids), count)
    decreases |ids|
  {
    if ids != [] {
      LookupFinds(q.pending, ids[0]);
      WithoutKeeps(q.pending, {ids[0]});
      if Lookup(q.pending, ids[0]).Some? {
        UpdatedRows(q.pending, Lookup(q.pending, ids[0]).value.(leaseUntil := 0));
      }
      NackKeepsCounts(cfg, NackOne(cfg, q, ids[0]), ids[1..], count);
    }
  }

  lemma LeaseKeepsCounts(cfg: Config, q: Spool, now: int, limit: int, before: nat -> nat, after: nat -> nat)
    requires Conserved(cfg, q) && CountsMatch(q, before)
    requires forall id :: after(id) == before(id) + if id in RowIds(Lease(cfg, q, now, limit).1) then 1 else 0
    ensures CountsMatch(Lease(cfg, q, now, limit).0, after)
  {
    var (p, leased) := Lease(cfg, q, now, limit);
    forall r | r in p.pending ensures r.attempts == after(r.id) {
      var t := RowAfterLease(cfg, q, now, limit, r);
    }
    forall k | 0 <= k < |p.dead| ensures p.dead[k].attempts == after(p.buried[k]) {
      if k < |q.dead| {
        assert p.buried[k] == q.buried[k] && p.dead[k] == q.dead[k];
        assert q.buried[k] in q.buried;
        BuriedIsNotLeased(cfg, q, now, limit, q.buried[k]);
      } else {
        var u := DeadAfterLease(cfg, q, now, limit, k);
      }
    }
  }

  lemma BuriedIsNotLeased(cfg: Config, q: Spool, now: int, limit: int, id: nat)
    requires Conserved(cfg, q) && id in q.buried
    ensures id !in RowIds(Lease(cfg, q, now, limit).1)
  {
    LeasedIds(cfg, q, now, limit, id);
    assert forall r <- q.pending :: r.id in Ids(q.pending);
  }

  /** A dead letter's attempts say how often its event was leased, and so do a pending row's. */
  lemma {:induction false} AttemptsCountLeases(cfg: Config, qs: seq<Spool>, ops: seq<Op>, n: nat)
    requires IsRun(cfg, qs, ops) && n <= |ops|
    ensures CountsMatch(qs[n], id => LeaseCount(cfg, qs, ops, id, n))
  {
    if n > 0 {
      AttemptsCountLeases(cfg, qs, ops, n - 1);
      RunConserves(cfg, qs, ops, n - 1);
      assert Steps(cfg, qs, ops, n - 1);
      var q, op := qs[n - 1], ops[n - 1];
      var before: nat -> nat := id => LeaseCount(cfg, qs, ops, id, n - 1);
      var after: nat -> nat := id => LeaseCount(cfg, qs, ops, id, n);
      hide IsRun, Lease, Enqueue, Ack, Nack, Conserved, CountsMatch;
      if !op.LeaseOp? { CountsAgree(q, before, after); }
      match op
      case EnqueueOp(event, diskBytes) =>
        NeverLeasedBeforeApplied(cfg, qs, ops, |q.applied| + 1, n - 1);
        EnqueueKeepsCounts(cfg, q, event, diskBytes, after);
      case LeaseOp(now, limit) => LeaseKeepsCounts(cfg, q, now, limit, before, after);
      case AckOp(ids) => AckKeepsCounts(q, ids, after);
      case NackOp(ids) => NackKeepsCounts(cfg, q, ids, after);
    }
  }

  lemma CountsAgree(q: Spool, before: nat -> nat, after: nat -> nat)
    requires CountsMatch(q, before) && forall id :: after(id) == before(id)
    ensures CountsMatch(q, after)
  {
  }

  lemma EnqueueKeepsCounts(cfg: Config, q: Spool, event: Incoming, diskBytes: int, count: nat -> nat)
    requires CountsMatch(q, count) && count(|q.applied| + 1) == 0
    ensures CountsMatch(Enqueue(cfg, q, event, diskBytes).0, count)
  {
    hide HasEvent, HasDeadEvent;
  }

  lemma AckKeepsCounts(q: Spool, ids: seq<nat>, count: nat -> nat)
    requires CountsMatch(q, count)
    ensures CountsMatch(Ack(q, ids), count)
  {
    WithoutKeeps(q.pending, set i <- ids :: i);
  }

  /** What a lease tells the worker is how often that event has been handed out, this time included. */
  lemma WorkersAreToldTheCount(cfg: Config, qs: seq<Spool>, ops: seq<Op>, n: nat, i: nat)
    requires IsRun(cfg, qs, ops) && n < |ops| && ops[n].LeaseOp?
    requires i < |Lease(cfg, qs[n], ops[n].now, ops[n].limit).1|
    ensures var l := Lease(cfg, qs[n], ops[n].now, ops[n].limit).1[i]; l.attempts == LeaseCount(cfg, qs, ops, l.rowId, n + 1)
  {
    AttemptsCountLeases(cfg, qs, ops, n);
    RunConserves(cfg, qs, ops, n);
    var leased := Lease(cfg, qs[n], ops[n].now, ops[n].limit).1;
    var r := LeasedIsARow(cfg, qs[n], ops[n].now, ops[n].limit, i);
    assert RowIds(leased)[i] == r.id && Leases(cfg, qs[n], ops[n], r.id);
  }

  // ------------------------------------------------------------------ counters

  /** How many enqueues so far came out like this. */
  function CameOut(cfg: Config, qs: seq<Spool>, ops: seq<Op>, n: nat, o: Outcome): nat
    requires n <= |ops| < |qs|
  {
    if n == 0 then 0
    else
      CameOut(cfg, qs, ops, n - 1, o)
      + match ops[n - 1]
        case EnqueueOp(event, diskBytes) => if Enqueue(cfg, qs[n - 1], event, diskBytes).1 == o then 1 else 0
        case _ => 0
  }

  /** How many ids were named in acknowledgements so far, rows or not. */
  function NamedInAcks(ops: seq<Op>, n: nat): nat
    requires n <= |ops|
  {
    if n == 0 then 0 else NamedInAcks(ops, n - 1) + if ops[n - 1].AckOp? then |ops[n - 1].ids| else 0
  }

  /** How many of the named rows go back to the queue: those that are there with attempts left. */
  function GoBack(cfg: Config, q: Spool, ids: seq<nat>): nat
    decreases |ids|
  {
    if ids == [] then 0
    else (if exists r <- q.pending :: r.id == ids[0] && r.attempts < cfg.maxAttempts then 1 else 0)
         + GoBack(cfg, NackOne(cfg, q, ids[0]), ids[1..])
  }

  function WentBack(cfg: Config, qs: seq<Spool>, ops: seq<Op>, n: nat): nat
    requires n <= |ops| < |qs|
  {
    if n == 0 then 0
    else WentBack(cfg, qs, ops, n - 1) + match ops[n - 1] case NackOp(ids) => GoBack(cfg, qs[n - 1], ids) case _ => 0
  }

  lemma {:induction false} NackCounts(cfg: Config, q: Spool, ids: seq<nat>)
    requires Conserved(cfg, q) && q.stats.poison == |q.dead|
    ensures var t := Nack(cfg, q, ids);
            && t.stats == q.stats.(poison := |t.dead|, nacked := q.stats.nacked + GoBack(cfg, q, ids))
            && t.applied == q.applied
    decreases |ids|
  {
    if ids != [] {
      var id := ids[0];
      var p := NackOne(cfg, q, id);
      NackConserves(cfg, q, [id]);
      assert Nack(cfg, q, [id]) == Nack(cfg, p, []) == p;
      LookupFinds(q.pending, id);
      if Lookup(q.pending, id).Some? {
        forall r | r in q.pending && r.id == id ensures r == Lookup(q.pending, id).value {
          SameIdSameRow(q.pending, r, Lookup(q.pending, id).value);
        }
      }
      NackCounts(cfg, p, ids[1..]);
    }
  }

  /** On every run the counters tell it: each outcome of an enqueue, the dead letters, the ids acknowledged and the
      rows given back. */
  lemma {:induction false} CountersTellTheRun(cfg: Config, qs: seq<Spool>, ops: seq<Op>, n: nat)
    requires IsRun(cfg, qs, ops) && n <= |ops|
    ensures var s := qs[n].stats;
            && s.enqueued == CameOut(cfg, qs, ops, n, Applied) == |qs[n].applied| && s.deduped == CameOut(cfg, qs, ops, n, Duplicate)
            && s.diskFull == CameOut(cfg, qs, ops, n, RejectedDisk) && s.rejectedTenant == CameOut(cfg, qs, ops, n, RejectedTenant)
            && s.poison == |qs[n].dead| && s.acked == NamedInAcks(ops, n) && s.nacked == WentBack(cfg, qs, ops, n)
  {
    if n > 0 {
      CountersTellTheRun(cfg, qs, ops, n - 1);
      RunConserves(cfg, qs, ops, n - 1);
      assert Steps(cfg, qs, ops, n - 1);
      var q := qs[n - 1];
      hide IsRun, Conserved;
      match ops[n - 1]
      case EnqueueOp(event, diskBytes) =>
        EnqueueCarriesTheEvent(cfg, q, event, diskBytes);
        hide Enqueue;
      case LeaseOp(now, limit) =>
        BuriedCounts(Unparsed(Selected(q.pending, now, limit)));
      case AckOp(ids) =>
      case NackOp(ids) =>
        NackCounts(cfg, q, ids);
        hide Nack;
    }
  }

  /** An acknowledgement takes exactly the rows it names out of the queue, for good, and counts them acknowledged. */
  lemma AcknowledgedRowsAreGone(cfg: Config, qs: seq<Spool>, ops: seq<Op>, n: nat)
    requires IsRun(cfg, qs, ops) && n < |ops| && ops[n].AckOp?
    ensures var (q, t, ids) := (qs[n], qs[n + 1], ops[n].ids);
            && (forall r :: r in t.pending <==> r in q.pending && r.id !in ids)
            && (forall id :: id in t.acked <==> id in q.acked || (id in ids && exists r <- q.pending :: r.id == id))
            && t.dead == q.dead && t.applied == q.applied
  {
    assert Steps(cfg, qs, ops, n);
    WithoutKeeps(qs[n].pending, set i <- ops[n].ids :: i);
  }

  lemma BuriedCounts(rows: seq<Row>)
    ensures |Buried(rows, JsonParse)| == |rows|
  {
  }

  // ------------------------------------------------------------------ failing delivery

  /** One round of delivery that fails: lease a batch, post it in vain, give it all back. */
  function FailingRound(cfg: Config, q: Spool, now: int, limit: int): Spool {
    var (p, leased) := Lease(cfg, q, now, limit);
    Nack(cfg, p, RowIds(leased))
  }

  function Rounds(cfg: Config, q: Spool, times: seq<int>, limit: int): Spool
    decreases |times|
  {
    if times == [] then q else Rounds(cfg, FailingRound(cfg, q, times[0], limit), times[1..], limit)
  }

  /** The attempts a row ends with when every delivery fails. A lease does not look at the limit, so a row
      that reached it without being given back is leased once more. */
  function Goal(cfg: Config, r: Row): int {
    if !r.item.payload.Json? then r.attempts
    else if r.attempts < cfg.maxAttempts then cfg.maxAttempts
    else r.attempts + 1
  }

  /** Leases still to come for a row; for one in a worker's hands, after that worker has given it back. */
  function ToGo(cfg: Config, r: Row, held: bool): nat {
    if r.attempts < cfg.maxAttempts && (held || r.item.payload.Json?) then cfg.maxAttempts - r.attempts
    else if held then 0
    else 1
  }

  function Left(cfg: Config, rows: seq<Row>, held: seq<nat>): nat {
    if rows == [] then 0 else ToGo(cfg, rows[0], rows[0].id in held) + Left(cfg, rows[1..], held)
  }

  /** Leases still to come over all pending rows: what is missing to the limit, and at least one each. */
  function AttemptsToGo(cfg: Config, rows: seq<Row>): nat { Left(cfg, rows, []) }

  /** Between rounds every pending row may be leased. */
  predicate Idle(q: Spool, now: int) { forall r <- q.pending :: r.leaseUntil <= now }

  predicate Aimed(cfg: Config, q: Spool, goal: nat -> int) { forall r <- q.pending :: goal(r.id) == Goal(cfg, r) }

  /** During a round, the rows not yet given back may have made their last attempt. */
  predicate GivingBack(cfg: Config, q: Spool, now: int, ids: seq<nat>, goal: nat -> int) {
    forall r <- q.pending ::
      if r.id in ids then r.item.payload.Json? && goal(r.id) == (if r.attempts < cfg.maxAttempts then cfg.maxAttempts else r.attempts)
      else r.leaseUntil <= now && goal(r.id) == Goal(cfg, r)
  }

  /** Every dead letter from index k on died with its goal. */
  predicate DeadAsAimed(q: Spool, k: nat, goal: nat -> int) {
    && |q.buried| == |q.dead|
    && forall i :: k <= i < |q.dead| ==>
         q.dead[i].attempts == goal(q.buried[i])
         && q.dead[i].reason == if q.dead[i].item.payload.Json? then DeliveryFailed else JsonParse
  }

  lemma {:induction false} LeftMarked(cfg: Config, rows: seq<Row>, ids: set<nat>, until: int, held: seq<nat>)
    requires forall r <- rows :: r.id in held <==> r.id in ids && r.item.payload.Json?
    ensures Left(cfg, Marked(rows, ids, until), held) <= Left(cfg, rows, [])
    ensures (exists r <- rows :: r.id in ids) ==> Left(cfg, Marked(rows, ids, until), held) < Left(cfg, rows, [])
  {
    if rows != [] {
      LeftMarked(cfg, rows[1..], ids, until, held);
      var m := MarkedRow(rows[0], ids, until);
      if m == [] {
        assert Marked(rows, ids, until) == Marked(rows[1..], ids, until);
      } else {
        assert Marked(rows, ids, until)[1..] == Marked(rows[1..], ids, until);
      }
    }
  }

  lemma {:induction false} LeftMissing(cfg: Config, rows: seq<Row>, held: seq<nat>)
    requires held != [] && forall r <- rows :: r.id != held[0]
    ensures Left(cfg, rows, held[1..]) == Left(cfg, rows, held)
  {
    if rows != [] {
      assert held == [held[0]] + held[1..];
      LeftMissing(cfg, rows[1..], held);
    }
  }

  lemma {:induction false} LeftWithout(cfg: Config, rows: seq<Row>, held: seq<nat>)
    requires held != [] && forall r <- rows :: r.id == held[0] ==> r.attempts >= cfg.maxAttempts
    ensures Left(cfg, Without(rows, {held[0]}), held[1..]) == Left(cfg, rows, held)
  {
    if rows != [] {
      assert held == [held[0]] + held[1..];
      LeftWithout(cfg, rows[1..], held);
      if rows[0].id == held[0] {
        assert Without(rows, {held[0]}) == Without(rows[1..], {held[0]});
      } else {
        assert Without(rows, {held[0]})[1..] == Without(rows[1..], {held[0]});
      }
    }
  }

  lemma {:induction false} LeftUpdated(cfg: Config, rows: seq<Row>, row: Row, held: seq<nat>)
    requires held != [] && held[0] == row.id && row.attempts < cfg.maxAttempts && row.item.payload.Json?
    requires forall r <- rows :: r.id == row.id ==> r.attempts == row.attempts
    ensures Left(cfg, Updated(rows, row), held[1..]) == Left(cfg, rows, held)
  {
    if rows != [] {
      assert held == [held[0]] + held[1..];
      LeftUpdated(cfg, rows[1..], row, held);
    }
  }

  lemma {:induction false} LeftIsPositive(cfg: Config, rows: seq<Row>)
    ensures AttemptsToGo(cfg, rows) >= |rows|
  {
    if rows != [] {
      LeftIsPositive(cfg, rows[1..]);
    }
  }

  lemma NackOneInRound(cfg: Config, q: Spool, now: int, ids: seq<nat>, k: nat, goal: nat -> int)
    requires ids != [] && Ordered(q.pending) && GivingBack(cfg, q, now, ids, goal) && now >= 0
    requires DeadAsAimed(q, k, goal)
    ensures var p := NackOne(cfg, q, ids[0]);
            && Ordered(p.pending) && GivingBack(cfg, p, now, ids[1..], goal) && DeadAsAimed(p, k, goal)
            && Left(cfg, p.pending, ids[1..]) == Left(cfg, q.pending, ids)
  {
    var id := ids[0];
    LookupFinds(q.pending, id);
    WithoutKeeps(q.pending, {id});
    assert ids == [id] + ids[1..];
    match Lookup(q.pending, id)
    case None => LeftMissing(cfg, q.pending, ids);
    case Some(row) =>
      forall r | r in q.pending && r.id == id ensures r == row { SameIdSameRow(q.pending, r, row); }
      if row.attempts >= cfg.maxAttempts {
        LeftWithout(cfg, q.pending, ids);
      } else {
        var back := row.(leaseUntil := 0);
        LeftUpdated(cfg, q.pending, back, ids);
        UpdatedRows(q.pending, back);
        UpdatedOrdered(q.pending, back);
        UpdatedReplaces(q.pending, back);
      }
  }

  lemma {:induction false} UpdatedReplaces(rows: seq<Row>, row: Row)
    ensures forall r <- Updated(rows, row) :: r.id == row.id ==> r == row
  {
    if rows != [] {
      UpdatedReplaces(rows[1..], row);
    }
  }

  lemma {:induction false} NackInRound(cfg: Config, q: Spool, now: int, ids: seq<nat>, k: nat, goal: nat -> int)
    requires Ordered(q.pending) && GivingBack(cfg, q, now, ids, goal) && now >= 0 && DeadAsAimed(q, k, goal)
    ensures var p := Nack(cfg, q, ids);
            && GivingBack(cfg, p, now, [], goal) && DeadAsAimed(p, k, goal)
            && AttemptsToGo(cfg, p.pending) == Left(cfg, q.pending, ids)
    decreases |ids|
  {
    if ids != [] {
      NackOneInRound(cfg, q, now, ids, k, goal);
      NackInRound(cfg, NackOne(cfg, q, ids[0]), now, ids[1..], k, goal);
    }
  }

  lemma LeaseUsesAttempts(cfg: Config, q: Spool, now: int, limit: int)
    requires Ordered(q.pending) && Idle(q, now)
    ensures var (p, leased) := Lease(cfg, q, now, limit);
            && (limit != 0 && q.pending != [] ==> Left(cfg, p.pending, RowIds(leased)) < AttemptsToGo(cfg, q.pending))
            && Left(cfg, p.pending, RowIds(leased)) <= AttemptsToGo(cfg, q.pending)
  {
    hide Left, Marked;
    var rows := Selected(q.pending, now, limit);
    var leased := Lease(cfg, q, now, limit).1;
    SelectedIsOldest(q.pending, now, limit);
    forall r | r in q.pending ensures r.id in RowIds(leased) <==> r.id in Ids(rows) && r.item.payload.Json? {
      LeasedIds(cfg, q, now, limit, r.id);
      forall t | t in rows && t.id == r.id ensures t == r { SameIdSameRow(q.pending, t, r); }
    }
    LeftMarked(cfg, q.pending, Ids(rows), now + cfg.leaseTtlMs, RowIds(leased));
    if limit != 0 && q.pending != [] {
      assert q.pending[0] in q.pending;
      assert rows != [];
      assert rows[0] in rows && rows[0] in q.pending;
    }
  }

  lemma LeaseExtends(cfg: Config, q: Spool, now: int, limit: int)
    ensures var p := Lease(cfg, q, now, limit).0; Extends(q, p) && (|q.buried| == |q.dead| ==> |p.buried| == |p.dead|) && p.applied == q.applied && p.acked == q.acked
  {
  }

  lemma LeaseInRound(cfg: Config, q: Spool, now: int, limit: int, k: nat, goal: nat -> int)
    requires Conserved(cfg, q) && Idle(q, now) && Aimed(cfg, q, goal) && DeadAsAimed(q, k, goal)
    ensures var (p, leased) := Lease(cfg, q, now, limit);
            GivingBack(cfg, p, now, RowIds(leased), goal) && DeadAsAimed(p, k, goal)
  {
    var (p, leased) := Lease(cfg, q, now, limit);
    forall r | r in p.pending
      ensures r.id in RowIds(leased) ==>
                r.item.payload.Json? && goal(r.id) == if r.attempts < cfg.maxAttempts then cfg.maxAttempts else r.attempts
      ensures r.id !in RowIds(leased) ==> r.leaseUntil <= now && goal(r.id) == Goal(cfg, r)
    {
      var t := RowAfterLease(cfg, q, now, limit, r);
    }
    LeaseExtends(cfg, q, now, limit);
    forall i | k <= i < |p.dead|
      ensures |p.buried| == |p.dead| && p.dead[i].attempts == goal(p.buried[i])
      ensures p.dead[i].reason == if p.dead[i].item.payload.Json? then DeliveryFailed else JsonParse
    {
      if i >= |q.dead| {
        var u := DeadAfterLease(cfg, q, now, limit, i);
      } else {
        assert p.dead[i] == q.dead[i] && p.buried[i] == q.buried[i];
      }
    }
  }

  /** A failing round with anything to lease uses up an attempt, and only buries what has come to its goal. */
  lemma FailingRoundProgress(cfg: Config, q: Spool, now: int, limit: int, k: nat, goal: nat -> int)
    requires Conserved(cfg, q) && Idle(q, now) && now >= 0 && Aimed(cfg, q, goal) && DeadAsAimed(q, k, goal)
    ensures var p := FailingRound(cfg, q, now, limit);
            && Conserved(cfg, p) && Idle(p, now) && Aimed(cfg, p, goal) && DeadAsAimed(p, k, goal)
            && Extends(q, p) && p.applied == q.applied && p.acked == q.acked
            && (limit != 0 && q.pending != [] ==> AttemptsToGo(cfg, p.pending) < AttemptsToGo(cfg, q.pending))
            && AttemptsToGo(cfg, p.pending) <= AttemptsToGo(cfg, q.pending)
  {
    LeaseInRound(cfg, q, now, limit, k, goal);
    OrderedOf(cfg, q);
    LeaseUsesAttempts(cfg, q, now, limit);
    LeaseConserves(cfg, q, now, limit);
    LeaseExtends(cfg, q, now, limit);
    OrderedOf(cfg, Lease(cfg, q, now, limit).0);
    hide Lease, Nack, Conserved, AttemptsToGo, DeadAsAimed, Goal;
    var (p, leased) := Lease(cfg, q, now, limit);
    NackInRound(cfg, p, now, RowIds(leased), k, goal);
    NackConserves(cfg, p, RowIds(leased));
    NackExtends(cfg, p, RowIds(leased));
  }

  predicate RoundsInTime(q: Spool, times: seq<int>) {
    && (forall i :: 0 <= i < |times| ==> Idle(q, times[i]) && times[i] >= 0)
    && forall i, j :: 0 <= i < j < |times| ==> times[i] <= times[j]
  }

  lemma {:induction false} RoundsBuryThePending(cfg: Config, q: Spool, times: seq<int>, limit: int, k: nat, goal: nat -> int)
    requires Conserved(cfg, q) && limit != 0 && Aimed(cfg, q, goal) && DeadAsAimed(q, k, goal)
    requires RoundsInTime(q, times) && |times| >= AttemptsToGo(cfg, q.pending)
    ensures var end := Rounds(cfg, q, times, limit);
            && end.pending == [] && Conserved(cfg, end) && DeadAsAimed(end, k, goal)
            && Extends(q, end) && end.applied == q.applied && end.acked == q.acked
    decreases |times|
  {
    hide Conserved, Left, Goal, DeadAsAimed, FailingRound;
    LeftIsPositive(cfg, q.pending);
    if times != [] {
      var p := FailingRound(cfg, q, times[0], limit);
      FailingRoundProgress(cfg, q, times[0], limit, k, goal);
      forall i | 0 <= i < |times[1..]| ensures Idle(p, times[1..][i]) {
        assert times[1..][i] == times[i + 1];
      }
      if q.pending == [] {
        RoundOnEmpty(cfg, q, times[0], limit);
      }
      RoundsBuryThePending(cfg, p, times[1..], limit, k, goal);
    }
  }

  lemma RoundOnEmpty(cfg: Config, q: Spool, now: int, limit: int)
    requires q.pending == []
    ensures FailingRound(cfg, q, now, limit).pending == [] && AttemptsToGo(cfg, []) == 0
  {
  }

  /** The i-th dead letter is what became of this row. */
  predicate DiedAs(cfg: Config, q: Spool, i: nat, r: Row)
    requires i < |q.buried| == |q.dead|
  {
    q.buried[i] == r.id && q.dead[i] == Dead(r.item, Goal(cfg, r), if r.item.payload.Json? then DeliveryFailed else JsonParse)
  }

  lemma PendingEndsBuried(cfg: Config, q: Spool, end: Spool, goal: nat -> int)
    requires Conserved(cfg, q) && Conserved(cfg, end) && end.pending == [] && Extends(q, end) && Aimed(cfg, q, goal)
    requires end.applied == q.applied && end.acked == q.acked && DeadAsAimed(end, |q.dead|, goal)
    ensures forall r <- q.pending :: exists i :: |q.dead| <= i < |end.dead| == |end.buried| && DiedAs(cfg, end, i, r)
    ensures forall i :: |q.dead| <= i < |end.buried| ==> end.buried[i] in Ids(q.pending)
  {
    hide Conserved, Aimed, DeadAsAimed, DiedAs, Extends;
    DeadAreBuried(cfg, end);
    forall r | r in q.pending
      ensures exists i :: |q.dead| <= i < |end.dead| == |end.buried| && DiedAs(cfg, end, i, r)
    {
      PendingRowEndsBuried(cfg, q, end, goal, r);
    }
    forall i | |q.dead| <= i < |end.buried| ensures end.buried[i] in Ids(q.pending) {
      BuriedSinceWasPending(cfg, q, end, i);
    }
  }

  lemma DeadAreBuried(cfg: Config, q: Spool)
    requires Conserved(cfg, q)
    ensures |q.dead| == |q.buried|
  {
  }

  lemma PendingRowEndsBuried(cfg: Config, q: Spool, end: Spool, goal: nat -> int, r: Row)
    requires Conserved(cfg, q) && Conserved(cfg, end) && end.pending == [] && Extends(q, end) && Aimed(cfg, q, goal)
    requires end.applied == q.applied && end.acked == q.acked && DeadAsAimed(end, |q.dead|, goal) && r in q.pending
    ensures exists i :: |q.dead| <= i < |end.dead| == |end.buried| && DiedAs(cfg, end, i, r)
  {
    assert Ids(end.pending) == {};
    assert forall j :: 0 <= j < |q.buried| ==> end.buried[j] == q.buried[j] && q.buried[j] in q.buried;
    assert r.id in Ids(q.pending) && 1 <= r.id <= |q.applied|;
    assert r.id in end.buried;
    var i :| 0 <= i < |end.buried| && end.buried[i] == r.id;
    assert DiedAs(cfg, end, i, r);
  }

  lemma BuriedSinceWasPending(cfg: Config, q: Spool, end: Spool, i: nat)
    requires Conserved(cfg, q) && Conserved(cfg, end) && Extends(q, end) && end.applied == q.applied && end.acked == q.acked
    requires |q.dead| <= i < |end.buried|
    ensures end.buried[i] in Ids(q.pending)
  {
    var id := end.buried[i];
    assert id in end.buried && 1 <= id <= |q.applied|;
    assert forall j :: 0 <= j < |q.buried| ==> end.buried[j] == q.buried[j];
    assert forall j :: 0 <= j < |q.buried| ==> q.buried[j] != id;
  }

  function GoalOf(cfg: Config, rows: seq<Row>, id: nat): int {
    match Lookup(rows, id) case Some(r) => Goal(cfg, r) case None => 0
  }

  lemma GoalsAreAimed(cfg: Config, q: Spool)
    requires Ordered(q.pending)
    ensures Aimed(cfg, q, (id: nat) => GoalOf(cfg, q.pending, id))
  {
    forall r | r in q.pending ensures GoalOf(cfg, q.pending, r.id) == Goal(cfg, r) {
      LookupFinds(q.pending, r.id);
      SameIdSameRow(q.pending, r, Lookup(q.pending, r.id).value);
    }
  }

  /** Under delivery that keeps failing, after as many rounds as there are leases to come, the rows that
      were pending are the new dead letters, each once: one that parses with the attempts allowed, or one
      more than it had if it had them already; one that does not as unreadable. Nothing else has changed
      hands. */
  lemma FailingDeliveryEndsInDeadLetters(cfg: Config, q: Spool, times: seq<int>, limit: int)
    requires Conserved(cfg, q) && limit != 0 && RoundsInTime(q, times) && |times| >= AttemptsToGo(cfg, q.pending)
    ensures var end := Rounds(cfg, q, times, limit);
            && end.pending == [] && Conserved(cfg, end)
            && Extends(q, end) && end.applied == q.applied && end.acked == q.acked
            && (forall r <- q.pending :: exists i :: |q.dead| <= i < |end.dead| == |end.buried| && DiedAs(cfg, end, i, r))
            && forall i :: |q.dead| <= i < |end.buried| ==> end.buried[i] in Ids(q.pending)
  {
    var goal: nat -> int := (id: nat) => GoalOf(cfg, q.pending, id);
    assert DeadAsAimed(q, |q.dead|, goal);
    OrderedOf(cfg, q);
    GoalsAreAimed(cfg, q);
    hide Conserved, Rounds, Aimed, DeadAsAimed;
    RoundsBuryThePending(cfg, q, times, limit, |q.dead|, goal);
    PendingEndsBuried(cfg, q, Rounds(cfg, q, times, limit), goal);
  }

  /** A run carried on by failing rounds: a lease and a nack of what it handed out, each time. */
  function CarryOn(cfg: Config, qs: seq<Spool>, ops: seq<Op>, times: seq<int>, limit: int): (seq<Spool>, seq<Op>)
    requires qs != []
    decreases |times|
  {
    if times == [] then (qs, ops)
    else
      var (p, leased) := Lease(cfg, qs[|qs| - 1], times[0], limit);
      CarryOn(cfg, qs + [p, Nack(cfg, p, RowIds(leased))],
              ops + [LeaseOp(times[0], limit), NackOp(RowIds(leased))], times[1..], limit)
  }

  lemma OneMore(cfg: Config, qs: seq<Spool>, ops: seq<Op>, op: Op)
    requires IsRun(cfg, qs, ops)
    ensures IsRun(cfg, qs + [Next(cfg, qs[|ops|], op)], ops + [op])
  {
    hide Next;
    var qs1, ops1 := qs + [Next(cfg, qs[|ops|], op)], ops + [op];
    forall i | 0 <= i < |ops1| ensures Steps(cfg, qs1, ops1, i) {
      if i < |ops| { assert Steps(cfg, qs, ops, i); }
    }
  }

  lemma {:induction false} RoundsAreARun(cfg: Config, qs: seq<Spool>, ops: seq<Op>, times: seq<int>, limit: int)
    requires IsRun(cfg, qs, ops)
    ensures var (qs', ops') := CarryOn(cfg, qs, ops, times, limit);
            && IsRun(cfg, qs', ops') && qs <= qs' && ops <= ops' && |ops'| == |ops| + 2 * |times|
            && qs'[|ops'|] == Rounds(cfg, qs[|ops|], times, limit)
    decreases |times|
  {
    if times != [] {
      hide Lease, Nack, Steps;
      var (p, leased) := Lease(cfg, qs[|ops|], times[0], limit);
      var lease, nack := LeaseOp(times[0], limit), NackOp(RowIds(leased));
      var q := Nack(cfg, p, RowIds(leased));
      assert Next(cfg, qs[|ops|], lease) == p && Next(cfg, p, nack) == q;
      OneMore(cfg, qs, ops, lease);
      OneMore(cfg, qs + [p], ops + [lease], nack);
      assert qs + [p] + [q] == qs + [p, q] && ops + [lease] + [nack] == ops + [lease, nack];
      RoundsAreARun(cfg, qs + [p, q], ops + [lease, nack], times[1..], limit);
    }
  }

  /** On a run that is carried on by failing rounds, every row that was pending and parses has been leased,
      when it is dead, exactly the allowed number of times - or once more than before, if it had been
      leased that often already and its lease ran out. */
  lemma FailingRunsLeaseToTheLimit(cfg: Config, qs: seq<Spool>, ops: seq<Op>, times: seq<int>, limit: int)
    requires IsRun(cfg, qs, ops) && limit != 0 && RoundsInTime(qs[|ops|], times)
    requires |times| >= AttemptsToGo(cfg, qs[|ops|].pending)
    ensures var (qs', ops') := CarryOn(cfg, qs, ops, times, limit);
            && IsRun(cfg, qs', ops') && qs <= qs' && ops <= ops' && qs'[|ops'|].pending == []
            && forall r <- qs[|ops|].pending ::
                 && r.id in qs'[|ops'|].buried
                 && r.attempts == LeaseCount(cfg, qs, ops, r.id, |ops|)
                 && (r.item.payload.Json? ==>
                       var count := LeaseCount(cfg, qs', ops', r.id, |ops'|);
                       && count == Goal(cfg, r)
                       && (count == cfg.maxAttempts <==> r.attempts < cfg.maxAttempts))
  {
    hide Conserved, Rounds, CarryOn, Idle, LeaseCount;
    var q := qs[|ops|];
    var (qs', ops') := CarryOn(cfg, qs, ops, times, limit);
    RunConserves(cfg, qs, ops, |ops|);
    RoundsAreARun(cfg, qs, ops, times, limit);
    FailingDeliveryEndsInDeadLetters(cfg, q, times, limit);
    AttemptsCountLeases(cfg, qs, ops, |ops|);
    AttemptsCountLeases(cfg, qs', ops', |ops'|);
    var end := qs'[|ops'|];
    forall r | r in q.pending
      ensures r.id in end.buried
      ensures r.item.payload.Json? ==> LeaseCount(cfg, qs', ops', r.id, |ops'|) == Goal(cfg, r)
    {
      var i :| |q.dead| <= i < |end.dead| == |end.buried| && DiedAs(cfg, end, i, r);
      assert end.buried[i] in end.buried;
    }
  }

  /** So when every pending row has been given back, each is leased exactly the allowed number of times. */
  lemma ReleasedRowsLeaseToTheLimit(cfg: Config, qs: seq<Spool>, ops: seq<Op>, times: seq<int>, limit: int)
    requires IsRun(cfg, qs, ops) && limit != 0 && RoundsInTime(qs[|ops|], times)
    requires |times| >= AttemptsToGo(cfg, qs[|ops|].pending)
    requires cfg.maxAttempts >= 1 && LeasesEndAwayFromZero(cfg, ops) && forall r <- qs[|ops|].pending :: r.leaseUntil == 0
    ensures var (qs', ops') := CarryOn(cfg, qs, ops, times, limit);
            IsRun(cfg, qs', ops') && |ops'| < |qs'|
            && forall r <- qs[|ops|].pending :: r.item.payload.Json? ==> LeaseCount(cfg, qs', ops', r.id, |ops'|) == cfg.maxAttempts
  {
    hide CarryOn, LeaseCount;
    RunLeavesAttempts(cfg, qs, ops, |ops|);
    FailingRunsLeaseToTheLimit(cfg, qs, ops, times, limit);
  }

  /** A lease of the only row, when it parses and is due. */
  lemma LeaseOnly(cfg: Config, q: Spool, now: int)
    requires |q.pending| == 1 && q.pending[0].item.payload.Json? && q.pending[0].leaseUntil <= now
    ensures Lease(cfg, q, now, 1).0 == q.(pending := [Take(q.pending[0], now + cfg.leaseTtlMs)])
  {
    var row := q.pending[0];
    assert q.pending == [row] && [row][1..] == [];
    assert Selected([row], now, 1) == [row] && row in [row];
    assert Unparsed([row]) == [];
    assert q.dead + Buried(Unparsed([row]), JsonParse) == q.dead && q.buried + IdList(Unparsed([row])) == q.buried;
    assert Marked([row], Ids([row]), now + cfg.leaseTtlMs) == [Take(row, now + cfg.leaseTtlMs)] + Marked([], Ids([row]), now + cfg.leaseTtlMs);
  }

  /** Given back at the limit, the only row dies. */
  lemma NackOnly(cfg: Config, q: Spool)
    requires |q.pending| == 1 && q.pending[0].attempts >= cfg.maxAttempts
    ensures Nack(cfg, q, [q.pending[0].id]).dead == q.dead + [Dead(q.pending[0].item, q.pending[0].attempts, DeliveryFailed)]
  {
    var id := q.pending[0].id;
    assert [id][1..] == [];
    assert Nack(cfg, q, [id]) == Nack(cfg, NackOne(cfg, q, id), []);
  }

  lemma FirstEvent(cfg: Config)
    requires cfg.maxPending >= 1
    ensures var q := Next(cfg, EMPTY, EnqueueOp(Incoming("", "", ""), cfg.maxDiskBytes - 1));
            q.pending == [Row(1, Item(None, OrElse(None, cfg.orgId), Json("")), 0, 0)] && q.dead == []
  {
  }

  /** A worker that leases a row and dies: the lease runs out, the row is leased again, and dies with two
      attempts where one is allowed. */
  lemma ExpiredLeaseDiesLate(cfg: Config)
    requires cfg.maxAttempts == 1 && cfg.maxPending >= 1 && cfg.leaseTtlMs >= 0
    ensures exists qs: seq<Spool>, ops: seq<Op> ::
              && IsRun(cfg, qs, ops) && ClockForward(ops)
              && qs[|ops|].dead == [Dead(Item(None, OrElse(None, cfg.orgId), Json("")), 2, DeliveryFailed)]
  {
    hide Lease, Nack, Enqueue, Steps;
    var enqueue := EnqueueOp(Incoming("", "", ""), cfg.maxDiskBytes - 1);
    var first, again, back := LeaseOp(0, 1), LeaseOp(cfg.leaseTtlMs, 1), NackOp([1]);
    var q1 := Next(cfg, EMPTY, enqueue);
    FirstEvent(cfg);
    var q2 := Next(cfg, q1, first);
    LeaseOnly(cfg, q1, 0);
    var q3 := Next(cfg, q2, again);
    LeaseOnly(cfg, q2, cfg.leaseTtlMs);
    NackOnly(cfg, q3);
    OneMore(cfg, [EMPTY], [], enqueue);
    OneMore(cfg, [EMPTY] + [q1], [] + [enqueue], first);
    OneMore(cfg, [EMPTY] + [q1] + [q2], [] + [enqueue] + [first], again);
    OneMore(cfg, [EMPTY] + [q1] + [q2] + [q3], [] + [enqueue] + [first] + [again], back);
  }
}
