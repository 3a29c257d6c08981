/** The durable event spool of kazenai/retry_queue.py.

    Spool holds the two tables of the queue's database plus what a reader needs to account for its
    events: every item ever applied (the item with row id i is applied[i - 1]), the row ids behind the
    dead letters, and the row ids acknowledged so far. The class carries the operations out on its
    tables in place; the theorems range over every run of operations from an empty database. */
module RetryQueue {
  import opened Text
  import opened Wrappers

  /** A stored payload: JSON text that parses, or text that does not. */
  datatype Payload = Json(text: string) | Corrupt(text: string)

  datatype Item = Item(eventId: Option<string>, orgId: Option<string>, payload: Payload)

  datatype Row = Row(id: nat, item: Item, attempts: nat, leaseUntil: int)

  datatype Reason = JsonParse | DeliveryFailed

  datatype Dead = Dead(item: Item, attempts: nat, reason: Reason)

  datatype Stats = Stats(
    enqueued: nat, deduped: nat, acked: nat, nacked: nat, poison: nat, diskFull: nat, rejectedTenant: nat)

  datatype Config = Config(orgId: Option<string>, maxPending: int, maxDiskBytes: int, maxAttempts: int, leaseTtlMs: int)

  datatype Spool = Spool(
    pending: seq<Row>, dead: seq<Dead>, stats: Stats,
    applied: seq<Item>, buried: seq<nat>, acked: set<nat>)

  datatype Outcome = Applied | Duplicate | RejectedDisk | RejectedTenant

  /** An event as the producer hands it over; a missing id is the empty string. */
  datatype Incoming = Incoming(eventId: string, orgId: string, text: string)

  datatype LeasedEvent = LeasedEvent(rowId: nat, item: Item, attempts: nat)

  const EMPTY := Spool([], [], Stats(0, 0, 0, 0, 0, 0, 0), [], [], {})

  // ------------------------------------------------------------------ table operations

  function NonEmpty(s: string): Option<string> { if s == "" then None else Some(s) }

  function OrElse(a: Option<string>, b: Option<string>): Option<string> { if a.Some? then a else b }

  predicate HasEvent(rows: seq<Row>, eventId: string) {
    exists r <- rows :: r.item.eventId == Some(eventId)
  }

  predicate HasDeadEvent(dead: seq<Dead>, eventId: string) {
    exists d <- dead :: d.item.eventId == Some(eventId)
  }

  function Ids(rows: seq<Row>): set<nat> { set r <- rows :: r.id }

  function IdList(rows: seq<Row>): seq<nat> {
    seq(|rows|, i requires 0 <= i < |rows| => rows[i].id)
  }

  /** SELECT ... WHERE lease_until_ms <= now, in id order. */
  function Eligible(rows: seq<Row>, now: int): seq<Row> {
    if rows == [] then []
    else (if rows[0].leaseUntil <= now then [rows[0]] else []) + Eligible(rows[1..], now)
  }

  /** LIMIT n; a negative limit is no limit. */
  function Limited(rows: seq<Row>, limit: int): seq<Row> {
    if limit < 0 || |rows| <= limit then rows else rows[..limit]
  }

  function Selected(rows: seq<Row>, now: int, limit: int): seq<Row> {
    Limited(Eligible(rows, now), limit)
  }

  /** DELETE ... WHERE id IN ids. */
  function Without(rows: seq<Row>, ids: set<nat>): seq<Row> {
    if rows == [] then []
    else (if rows[0].id in ids then [] else [rows[0]]) + Without(rows[1..], ids)
  }

  /** UPDATE ... WHERE id = row.id. */
  function Updated(rows: seq<Row>, row: Row): seq<Row> {
    if rows == [] then []
    else [if rows[0].id == row.id then row else rows[0]] + Updated(rows[1..], row)
  }

  function Parsed(rows: seq<Row>): seq<Row> {
    if rows == [] then []
    else (if rows[0].item.payload.Json? then [rows[0]] else []) + Parsed(rows[1..])
  }

  function Unparsed(rows: seq<Row>): seq<Row> {
    if rows == [] then []
    else (if rows[0].item.payload.Json? then [] else [rows[0]]) + Unparsed(rows[1..])
  }

  function Buried(rows: seq<Row>, reason: Reason): seq<Dead> {
    seq(|rows|, i requires 0 <= i < |rows| => Dead(rows[i].item, rows[i].attempts, reason))
  }

  function Take(r: Row, until: int): Row { r.(attempts := r.attempts + 1, leaseUntil := until) }

  /** The table after the rows named by ids were leased: those that do not parse are gone. */
  function Marked(rows: seq<Row>, ids: set<nat>, until: int): seq<Row> {
    if rows == [] then [] else MarkedRow(rows[0], ids, until) + Marked(rows[1..], ids, until)
  }

  function MarkedRow(r: Row, ids: set<nat>, until: int): seq<Row> {
    if r.id !in ids then [r] else if r.item.payload.Json? then [Take(r, until)] else []
  }

  function LeasedEvents(rows: seq<Row>): seq<LeasedEvent> {
    seq(|rows|, i requires 0 <= i < |rows| => LeasedEvent(rows[i].id, rows[i].item, rows[i].attempts + 1))
  }

  function Lookup(rows: seq<Row>, id: nat): Option<Row> {
    if rows == [] then None else if rows[0].id == id then Some(rows[0]) else Lookup(rows[1..], id)
  }

  // ------------------------------------------------------------------ operations on the spool

  function Enqueue(cfg: Config, q: Spool, event: Incoming, diskBytes: int): (Spool, Outcome) {
    var eventId := NonEmpty(Strip(event.eventId));
    var orgId := NonEmpty(Strip(event.orgId));
    if cfg.orgId.Some? && orgId.Some? && orgId != cfg.orgId then
      (q.(stats := q.stats.(rejectedTenant := q.stats.rejectedTenant + 1)), RejectedTenant)
    else if diskBytes >= cfg.maxDiskBytes || |q.pending| >= cfg.maxPending then
      (q.(stats := q.stats.(diskFull := q.stats.diskFull + 1)), RejectedDisk)
    else if eventId.Some? && (HasEvent(q.pending, eventId.value) || HasDeadEvent(q.dead, eventId.value)) then
      (q.(stats := q.stats.(deduped := q.stats.deduped + 1)), Duplicate)
    else
      var item := Item(eventId, OrElse(orgId, cfg.orgId), Json(event.text));
      (q.(pending := q.pending + [Row(|q.applied| + 1, item, 0, 0)], applied := q.applied + [item],
          stats := q.stats.(enqueued := q.stats.enqueued + 1)), Applied)
  }

  /** The spool once the given selected rows were leased. */
  function LeasePart(cfg: Config, q: Spool, now: int, rows: seq<Row>): Spool {
    q.(pending := Marked(q.pending, Ids(rows), now + cfg.leaseTtlMs),
       dead := q.dead + Buried(Unparsed(rows), JsonParse),
       buried := q.buried + IdList(Unparsed(rows)),
       stats := q.stats.(poison := q.stats.poison + |Unparsed(rows)|))
  }

  function Lease(cfg: Config, q: Spool, now: int, limit: int): (Spool, seq<LeasedEvent>) {
    var rows := Selected(q.pending, now, limit);
    (LeasePart(cfg, q, now, rows), LeasedEvents(Parsed(rows)))
  }

  /** Move a row to the dead letters. */
  function Bury(q: Spool, row: Row, reason: Reason): Spool {
    q.(pending := Without(q.pending, {row.id}), dead := q.dead + [Dead(row.item, row.attempts, reason)],
       buried := q.buried + [row.id], stats := q.stats.(poison := q.stats.poison + 1))
  }

  function LeaseOne(cfg: Config, q: Spool, now: int, row: Row): Spool {
    if row.item.payload.Json? then q.(pending := Updated(q.pending, Take(row, now + cfg.leaseTtlMs)))
    else Bury(q, row, JsonParse)
  }

  function Ack(q: Spool, ids: seq<nat>): Spool {
    var named := set i <- ids :: i;
    q.(pending := Without(q.pending, named), acked := q.acked + (Ids(q.pending) * named),
       stats := q.stats.(acked := q.stats.acked + |ids|))
  }

  function NackOne(cfg: Config, q: Spool, id: nat): Spool {
    match Lookup(q.pending, id)
    case None => q
    case Some(row) =>
      if row.attempts >= cfg.maxAttempts then
        Bury(q, row, DeliveryFailed)
      else
        q.(pending := Updated(q.pending, row.(leaseUntil := 0)), stats := q.stats.(nacked := q.stats.nacked + 1))
  }

  function Nack(cfg: Config, q: Spool, ids: seq<nat>): Spool
    decreases |ids|
  {
    if ids == [] then q else Nack(cfg, NackOne(cfg, q, ids[0]), ids[1..])
  }

  // ------------------------------------------------------------------ what an item carries

  /** The item is this event's: its stripped id, its own org or the queue's when it names none, and its text. */
  predicate Carries(cfg: Config, item: Item, event: Incoming) {
    && (if Strip(event.eventId) == "" then item.eventId == None else item.eventId == Some(Strip(event.eventId)))
    && (if Strip(event.orgId) == "" then item.orgId == cfg.orgId else item.orgId == Some(Strip(event.orgId)))
    && item.payload == Json(event.text)
  }

  /** The event names another tenant than the queue's. */
  predicate ForeignTo(cfg: Config, event: Incoming) {
    cfg.orgId.Some? && Strip(event.orgId) != "" && Strip(event.orgId) != cfg.orgId.value
  }

  predicate Full(cfg: Config, q: Spool, diskBytes: int) { diskBytes >= cfg.maxDiskBytes || |q.pending| >= cfg.maxPending }

  predicate Known(q: Spool, event: Incoming) {
    && Strip(event.eventId) != ""
    && ((exists r <- q.pending :: r.item.eventId == Some(Strip(event.eventId)))
        || (exists d <- q.dead :: d.item.eventId == Some(Strip(event.eventId))))
  }

  /** An applied event becomes the last row, fresh and due, and carries the event; any other outcome leaves the
      tables as they are. Which of the four it is, is decided in this order, and only its counter moves. */
  ghost predicate Enqueued(cfg: Config, q: Spool, event: Incoming, diskBytes: int, t: Spool, outcome: Outcome) {
    && (outcome.RejectedTenant? <==> ForeignTo(cfg, event))
    && (outcome.RejectedDisk? <==> !ForeignTo(cfg, event) && Full(cfg, q, diskBytes))
    && (outcome.Duplicate? <==> !ForeignTo(cfg, event) && !Full(cfg, q, diskBytes) && Known(q, event))
    && t.dead == q.dead && t.buried == q.buried && t.acked == q.acked
    && (var (before, after) := (q.stats, t.stats);
        && after.enqueued == before.enqueued + (if outcome.Applied? then 1 else 0)
        && after.deduped == before.deduped + (if outcome.Duplicate? then 1 else 0)
        && after.diskFull == before.diskFull + (if outcome.RejectedDisk? then 1 else 0)
        && after.rejectedTenant == before.rejectedTenant + (if outcome.RejectedTenant? then 1 else 0)
        && after.acked == before.acked && after.nacked == before.nacked && after.poison == before.poison)
    && (if outcome.Applied? then
          && |t.pending| == |q.pending| + 1 && q.pending <= t.pending
          && |t.applied| == |q.applied| + 1 && q.applied <= t.applied
          && var row := t.pending[|q.pending|];
             && Carries(cfg, row.item, event) && row.attempts == 0 && row.leaseUntil == 0
             && row.id == |t.applied| && t.applied[|q.applied|] == row.item
        else t.pending == q.pending && t.applied == q.applied)
  }

  lemma EnqueueCarriesTheEvent(cfg: Config, q: Spool, event: Incoming, diskBytes: int)
    ensures var (t, outcome) := Enqueue(cfg, q, event, diskBytes); Enqueued(cfg, q, event, diskBytes, t, outcome)
  {
    hide Strip;
  }

  // ------------------------------------------------------------------ the object

  class RetryQueue {
    const cfg: Config
    var pending: seq<Row>
    var deadLetter: seq<Dead>
    var nextId: nat
    var stats: Stats
    ghost var applied: seq<Item>
    ghost var buried: seq<nat>
    ghost var acked: set<nat>

    ghost function View(): Spool
      reads this
    {
      Spool(pending, deadLetter, stats, applied, buried, acked)
    }

    ghost predicate Valid()
      reads this
    {
      nextId == |applied| + 1 && Conserved(cfg, View())
    }

    constructor (cfg: Config)
      ensures Valid() && View() == EMPTY && this.cfg == cfg
    {
      this.cfg := cfg;
      pending, deadLetter, nextId := [], [], 1;
      stats := Stats(0, 0, 0, 0, 0, 0, 0);
      applied, buried, acked := [], [], {};
    }

    method EnqueueEvent(event: Incoming, diskBytes: int) returns (outcome: Outcome)
      requires Valid()
      modifies this
      ensures Valid() && (View(), outcome) == Enqueue(cfg, old(View()), event, diskBytes)
      ensures Enqueued(cfg, old(View()), event, diskBytes, View(), outcome)
    {
      EnqueueCarriesTheEvent(cfg, View(), event, diskBytes);
      hide Conserved, Strip, HasEvent, HasDeadEvent, Enqueued;
      EnqueueConserves(cfg, View(), event, diskBytes);
      var eventId := NonEmpty(Strip(event.eventId));
      var orgId := NonEmpty(Strip(event.orgId));
      if cfg.orgId.Some? && orgId.Some? && orgId != cfg.orgId {
        stats := stats.(rejectedTenant := stats.rejectedTenant + 1);
        return RejectedTenant;
      }
      if diskBytes >= cfg.maxDiskBytes {
        stats := stats.(diskFull := stats.diskFull + 1);
        return RejectedDisk;
      }
      if |pending| >= cfg.maxPending {
        stats := stats.(diskFull := stats.diskFull + 1);
        return RejectedDisk;
      }
      if eventId.Some? {
        if HasEvent(pending, eventId.value) || HasDeadEvent(deadLetter, eventId.value) {
          stats := stats.(deduped := stats.deduped + 1);
          return Duplicate;
        }
      }
      var item := Item(eventId, OrElse(orgId, cfg.orgId), Json(event.text));
      pending := pending + [Row(nextId, item, 0, 0)];
      nextId := nextId + 1;
      applied := applied + [item];
      stats := stats.(enqueued := stats.enqueued + 1);
      return Applied;
    }

    /** Lease one selected row, or set it aside when its payload does not parse. */
    method LeaseRow(row: Row, now: int) returns (leased: seq<LeasedEvent>)
      modifies this
      ensures View() == LeaseOne(cfg, old(View()), now, row) && nextId == old(nextId)
      ensures leased == if row.item.payload.Json? then LeasedEvents([row]) else []
    {
      if row.item.payload.Corrupt? {
        deadLetter := deadLetter + [Dead(row.item, row.attempts, JsonParse)];
        buried := buried + [row.id];
        pending := Without(pending, {row.id});
        stats := stats.(poison := stats.poison + 1);
        return [];
      }
      pending := Updated(pending, Take(row, now + cfg.leaseTtlMs));
      return [LeasedEvent(row.id, row.item, row.attempts + 1)];
    }

    method LeaseSelected(rows: seq<Row>, now: int) returns (out: seq<LeasedEvent>)
      requires Ordered(pending) && Ordered(rows) && forall r <- rows :: r in pending
      modifies this
      ensures View() == LeasePart(cfg, old(View()), now, rows) && nextId == old(nextId)
      ensures out == LeasedEvents(Parsed(rows))
    {
      hide LeasePart, LeasedEvents, LeaseOne;
      ghost var start := View();
      LeasePartNone(cfg, start, now);
      assert LeasedEvents(Parsed([])) == [] by { LeasedNone(); }
      out := [];
      for i := 0 to |rows|
        invariant View() == LeasePart(cfg, start, now, rows[..i]) && nextId == old(nextId)
        invariant out == LeasedEvents(Parsed(rows[..i]))
      {
        LeasePartStep(cfg, start, now, rows, i);
        LeasedAppends(rows[..i], rows[i]);
        var leased := LeaseRow(rows[i], now);
        out := out + leased;
        assert rows[..i + 1] == rows[..i] + [rows[i]];
      }
      assert rows[..|rows|] == rows;
    }

    method LeaseRows(now: int, limit: int) returns (out: seq<LeasedEvent>)
      requires Valid()
      modifies this
      ensures Valid() && (View(), out) == Lease(cfg, old(View()), now, limit)
    {
      LeaseConserves(cfg, View(), now, limit);
      out := LeaseSelected(Selected(pending, now, limit), now);
    }

    method AckRows(ids: seq<nat>)
      requires Valid()
      modifies this
      ensures Valid() && View() == if ids == [] then old(View()) else Ack(old(View()), ids)
    {
      if ids == [] {
        return;
      }
      AckConserves(cfg, View(), ids);
      acked := acked + (Ids(pending) * set i <- ids :: i);
      pending := Without(pending, set i <- ids :: i);
      stats := stats.(acked := stats.acked + |ids|);
    }

    /** Give one row back, or bury it once its attempts are used up. */
    method NackRow(id: nat)
      modifies this
      ensures View() == NackOne(cfg, old(View()), id) && nextId == old(nextId)
    {
      LookupFinds(pending, id);
      var row := Lookup(pending, id);
      if row.Some? {
        if row.value.attempts >= cfg.maxAttempts {
          deadLetter := deadLetter + [Dead(row.value.item, row.value.attempts, DeliveryFailed)];
          buried := buried + [id];
          pending := Without(pending, {id});
          stats := stats.(poison := stats.poison + 1);
        } else {
          pending := Updated(pending, row.value.(leaseUntil := 0));
          stats := stats.(nacked := stats.nacked + 1);
        }
      }
    }

    method NackRows(ids: seq<nat>)
      requires Valid()
      modifies this
      ensures Valid() && View() == Nack(cfg, old(View()), ids)
    {
      for i := 0 to |ids|
        invariant Valid()
        invariant Nack(cfg, View(), ids[i..]) == Nack(cfg, old(View()), ids)
      {
        assert ids[i..][1..] == ids[i + 1..];
        NackOneConserves(cfg, View(), ids[i]);
        NackRow(ids[i]);
      }
    }

    /** Lease and acknowledge at once. */
    method Drain(now: int, limit: int) returns (out: seq<LeasedEvent>)
      requires Valid()
      modifies this
      ensures Valid() && out == Lease(cfg, old(View()), now, limit).1
      ensures var q := Lease(cfg, old(View()), now, limit).0;
              View() == if out == [] then q else Ack(q, RowIds(out))
    {
      out := LeaseRows(now, limit);
      if out != [] {
        AckRows(RowIds(out));
      }
    }
  }

  function RowIds(leased: seq<LeasedEvent>): seq<nat> {
    seq(|leased|, i requires 0 <= i < |leased| => leased[i].rowId)
  }

  // ------------------------------------------------------------------ conservation

  predicate Ordered(rows: seq<Row>) {
    forall i, j :: 0 <= i < j < |rows| ==> rows[i].id < rows[j].id
  }

  /** Every applied row id is pending, buried or acknowledged, and only one of them. */
  ghost predicate Placed(pending: set<nat>, buried: seq<nat>, acked: set<nat>, n: nat) {
    && (forall i, j :: 0 <= i < j < |buried| ==> buried[i] != buried[j])
    && pending !! acked
    && (forall id <- buried :: id !in pending && id !in acked)
    && forall id :: 1 <= id <= n <==> id in pending || id in acked || id in buried
  }

  /** Rows still hold the items that were applied under their ids. */
  predicate FaithfulRows(rows: seq<Row>, applied: seq<Item>) {
    forall r <- rows :: 1 <= r.id <= |applied| && r.item == applied[r.id - 1]
  }

  predicate FaithfulDead(dead: seq<Dead>, buried: seq<nat>, applied: seq<Item>) {
    && |buried| == |dead|
    && forall k :: 0 <= k < |buried| ==> 1 <= buried[k] <= |applied| && dead[k].item == applied[buried[k] - 1]
  }

  /** No two of the given applied items share a non-empty event id. */
  ghost predicate DistinctEvents(live: set<nat>, applied: seq<Item>) {
    forall a <- live, b <- live :: 1 <= a <= |applied| && 1 <= b <= |applied| && a != b && applied[a - 1].eventId.Some? ==>
                                     applied[a - 1].eventId != applied[b - 1].eventId
  }

  function Live(q: Spool): set<nat> { Ids(q.pending) + set id <- q.buried :: id }

  ghost predicate Conserved(cfg: Config, q: Spool) {
    && Ordered(q.pending)
    && Placed(Ids(q.pending), q.buried, q.acked, |q.applied|)
    && FaithfulRows(q.pending, q.applied) && FaithfulDead(q.dead, q.buried, q.applied)
    && DistinctEvents(Live(q), q.applied)
    && (|q.pending| <= cfg.maxPending || q.pending == [])
    && q.stats.enqueued == |q.applied|
  }

  /** A non-empty event id occurs at most once in pending and dead letters together. */
  lemma EventIdsAreUnique(cfg: Config, q: Spool, eventId: string)
    requires Conserved(cfg, q)
    ensures forall r <- q.pending, t <- q.pending ::
              r.item.eventId == t.item.eventId == Some(eventId) ==> r == t
    ensures forall r <- q.pending, d <- q.dead :: !(r.item.eventId == d.item.eventId == Some(eventId))
    ensures forall i, j :: 0 <= i < j < |q.dead| ==> !(q.dead[i].item.eventId == q.dead[j].item.eventId == Some(eventId))
  {
    forall r, t | r in q.pending && t in q.pending && r.item.eventId == t.item.eventId == Some(eventId)
      ensures r == t
    {
      assert r.id in Live(q) && t.id in Live(q);
    }
    forall r, d | r in q.pending && d in q.dead
      ensures !(r.item.eventId == d.item.eventId == Some(eventId))
    {
      var k :| 0 <= k < |q.dead| && q.dead[k] == d;
      assert r.id in Live(q) && q.buried[k] in Live(q);
      assert q.buried[k] in q.buried && r.id in Ids(q.pending);
    }
    forall i, j | 0 <= i < j < |q.dead|
      ensures !(q.dead[i].item.eventId == q.dead[j].item.eventId == Some(eventId))
    {
      assert q.buried[i] in Live(q) && q.buried[j] in Live(q);
    }
  }

  lemma {:induction false} WithoutHas(rows: seq<Row>, ids: set<nat>)
    ensures forall r :: r in Without(rows, ids) <==> r in rows && r.id !in ids
    ensures |Without(rows, ids)| <= |rows|
  {
    if rows != [] {
      WithoutHas(rows[1..], ids);
      assert rows == [rows[0]] + rows[1..];
    }
  }

  /** Putting a smaller row in front keeps the order. */
  lemma OrderedCons(r: Row, rest: seq<Row>)
    requires Ordered(rest) && forall t <- rest :: r.id < t.id
    ensures Ordered([r] + rest)
  {
    forall k | 0 <= k < |rest| ensures r.id < rest[k].id { assert rest[k] in rest; }
  }

  lemma {:induction false} WithoutOrdered(rows: seq<Row>, ids: set<nat>)
    requires Ordered(rows)
    ensures Ordered(Without(rows, ids))
  {
    if rows != [] {
      WithoutOrdered(rows[1..], ids);
      WithoutHas(rows[1..], ids);
      if rows[0].id !in ids { OrderedCons(rows[0], Without(rows[1..], ids)); }
    }
  }

  lemma WithoutKeeps(rows: seq<Row>, ids: set<nat>)
    ensures forall r :: r in Without(rows, ids) <==> r in rows && r.id !in ids
    ensures Ordered(rows) ==> Ordered(Without(rows, ids))
    ensures |Without(rows, ids)| <= |rows|
    ensures Ids(Without(rows, ids)) == Ids(rows) - ids
  {
    hide Without, Ordered;
    WithoutHas(rows, ids);
    if Ordered(rows) { WithoutOrdered(rows, ids); }
    forall id | id in Ids(rows) - ids ensures id in Ids(Without(rows, ids)) {
      var r :| r in rows && r.id == id;
      assert r in Without(rows, ids);
    }
  }

  /** t as the lease leaves it, if it does. */
  predicate IsMarked(r: Row, t: Row, ids: set<nat>, until: int) {
    r == (if t.id in ids then Take(t, until) else t) && (t.id in ids ==> t.item.payload.Json?)
  }

  lemma {:induction false} MarkedHasOnly(rows: seq<Row>, ids: set<nat>, until: int)
    ensures forall r :: r in Marked(rows, ids, until) <==> exists t <- rows :: IsMarked(r, t, ids, until)
    ensures |Marked(rows, ids, until)| <= |rows|
  {
    if rows != [] {
      MarkedHasOnly(rows[1..], ids, until);
      assert rows == [rows[0]] + rows[1..];
      assert forall r :: r in MarkedRow(rows[0], ids, until) <==> IsMarked(r, rows[0], ids, until);
    }
  }

  lemma {:induction false} MarkedKeeps(rows: seq<Row>, ids: set<nat>, until: int)
    requires Ordered(rows)
    ensures Ordered(Marked(rows, ids, until))
    ensures forall r :: r in Marked(rows, ids, until) <==> exists t <- rows :: IsMarked(r, t, ids, until)
    ensures |Marked(rows, ids, until)| <= |rows|
  {
    MarkedHasOnly(rows, ids, until);
    if rows != [] {
      MarkedKeeps(rows[1..], ids, until);
      var head, rest := MarkedRow(rows[0], ids, until), Marked(rows[1..], ids, until);
      if head == [] {
        assert Marked(rows, ids, until) == rest;
      } else {
        OrderedCons(head[0], rest);
        assert Marked(rows, ids, until) == [head[0]] + rest;
      }
    }
  }

  lemma {:induction false} MarkedNone(rows: seq<Row>, until: int)
    ensures Marked(rows, {}, until) == rows
  {
    if rows != [] {
      MarkedNone(rows[1..], until);
    }
  }

  lemma LeasePartNone(cfg: Config, q: Spool, now: int)
    ensures LeasePart(cfg, q, now, []) == q
  {
    MarkedNone(q.pending, now + cfg.leaseTtlMs);
    assert Ids([]) == {};
    assert q.dead + [] == q.dead && q.buried + [] == q.buried;
  }

  lemma SplitOne(r: Row, rest: seq<Row>)
    ensures Parsed([r] + rest) == (if r.item.payload.Json? then [r] else []) + Parsed(rest)
    ensures Unparsed([r] + rest) == (if r.item.payload.Json? then [] else [r]) + Unparsed(rest)
  {
    assert ([r] + rest)[1..] == rest;
  }

  lemma {:induction false} SplitAppends(rows: seq<Row>, r: Row)
    ensures Parsed(rows + [r]) == Parsed(rows) + if r.item.payload.Json? then [r] else []
    ensures Unparsed(rows + [r]) == Unparsed(rows) + if r.item.payload.Json? then [] else [r]
  {
    if rows == [] {
      assert rows + [r] == [r];
      SplitOne(r, []);
    } else {
      hide Parsed, Unparsed;
      var first, rest := rows[0], rows[1..];
      SplitAppends(rest, r);
      SplitOne(first, rest);
      SplitOne(first, rest + [r]);
      assert rows == [first] + rest && rows + [r] == [first] + (rest + [r]);
    }
  }

  lemma WithoutOne(r: Row, rest: seq<Row>, ids: set<nat>)
    ensures Without([r] + rest, ids) == (if r.id in ids then [] else [r]) + Without(rest, ids)
  {
    assert ([r] + rest)[1..] == rest;
  }

  lemma {:induction false} WithoutConcat(a: seq<Row>, b: seq<Row>, ids: set<nat>)
    ensures Without(a + b, ids) == Without(a, ids) + Without(b, ids)
  {
    if a == [] {
      assert a + b == b;
    } else {
      hide Without;
      var first, rest := a[0], a[1..];
      WithoutConcat(rest, b, ids);
      WithoutOne(first, rest, ids);
      WithoutOne(first, rest + b, ids);
      assert a == [first] + rest && a + b == [first] + (rest + b);
    }
  }

  lemma {:induction false} UpdatedConcat(a: seq<Row>, b: seq<Row>, row: Row)
    ensures Updated(a + b, row) == Updated(a, row) + Updated(b, row)
  {
    if a == [] {
      assert a + b == b;
    } else {
      UpdatedConcat(a[1..], b, row);
      assert (a + b)[1..] == a[1..] + b;
    }
  }

  /** What DELETE or UPDATE makes of the table when a selected row is leased. */
  function Processed(rows: seq<Row>, row: Row, until: int): seq<Row> {
    if row.item.payload.Json? then Updated(rows, Take(row, until)) else Without(rows, {row.id})
  }

  lemma ProcessedConcat(a: seq<Row>, b: seq<Row>, row: Row, until: int)
    ensures Processed(a + b, row, until) == Processed(a, row, until) + Processed(b, row, until)
  {
    WithoutConcat(a, b, {row.id});
    UpdatedConcat(a, b, Take(row, until));
  }

  lemma ProcessedRow(r: Row, ids: set<nat>, row: Row, until: int)
    requires row.id !in ids && (r.id == row.id ==> r == row)
    ensures Processed(MarkedRow(r, ids, until), row, until) == MarkedRow(r, ids + {row.id}, until)
  {
    var m := MarkedRow(r, ids, until);
    if m != [] {
      assert m == [m[0]] && m[1..] == [];
      assert Updated(m[1..], Take(row, until)) == [] && Without(m[1..], {row.id}) == [];
    }
  }

  lemma {:induction false} MarkedOneMore(rows: seq<Row>, ids: set<nat>, row: Row, until: int)
    requires row.id !in ids && forall r <- rows :: r.id == row.id ==> r == row
    ensures Marked(rows, ids + {row.id}, until) == Processed(Marked(rows, ids, until), row, until)
  {
    if rows != [] {
      MarkedOneMore(rows[1..], ids, row, until);
      ProcessedRow(rows[0], ids, row, until);
      ProcessedConcat(MarkedRow(rows[0], ids, until), Marked(rows[1..], ids, until), row, until);
    }
  }

  /** What a lease selects: rows that may be leased, oldest first, no row passed over. */
  lemma {:induction false} EligibleIsExact(rows: seq<Row>, now: int)
    requires Ordered(rows)
    ensures Ordered(Eligible(rows, now))
    ensures forall r :: r in Eligible(rows, now) <==> r in rows && r.leaseUntil <= now
  {
    if rows != [] {
      EligibleIsExact(rows[1..], now);
      var rest := Eligible(rows[1..], now);
      forall k | 0 <= k < |rest| ensures rows[0].id < rest[k].id {
        assert rest[k] in rest;
      }
      assert rows == [rows[0]] + rows[1..];
    }
  }

  lemma SelectedIsOldest(rows: seq<Row>, now: int, limit: int)
    requires Ordered(rows)
    ensures Ordered(Selected(rows, now, limit))
    ensures forall r <- Selected(rows, now, limit) :: r in rows && r.leaseUntil <= now
    ensures limit >= 0 ==> |Selected(rows, now, limit)| <= limit
    ensures forall r <- rows :: r.leaseUntil <= now && r !in Selected(rows, now, limit) ==>
              0 <= limit == |Selected(rows, now, limit)| && forall t <- Selected(rows, now, limit) :: t.id < r.id
  {
    EligibleIsExact(rows, now);
    var all := Eligible(rows, now);
    var some := Selected(rows, now, limit);
    assert forall i :: 0 <= i < |some| ==> some[i] == all[i];
    forall r | r in rows && r.leaseUntil <= now && r !in some
      ensures 0 <= limit == |some| && forall t <- some :: t.id < r.id
    {
      var k :| 0 <= k < |all| && all[k] == r;
      if k < |some| { assert some[k] == r; }
    }
  }

  lemma LeasedNone()
    ensures LeasedEvents(Parsed([])) == []
  {
  }

  lemma LeasedAppends(rows: seq<Row>, r: Row)
    ensures LeasedEvents(Parsed(rows + [r]))
            == LeasedEvents(Parsed(rows)) + if r.item.payload.Json? then LeasedEvents([r]) else []
  {
    SplitAppends(rows, r);
  }

  lemma BuriedAppends(rows: seq<Row>, row: Row)
    ensures Buried(rows + [row], JsonParse) == Buried(rows, JsonParse) + [Dead(row.item, row.attempts, JsonParse)]
    ensures IdList(rows + [row]) == IdList(rows) + [row.id]
  {
  }

  lemma SameIdSameRow(rows: seq<Row>, a: Row, b: Row)
    requires Ordered(rows) && a in rows && b in rows && a.id == b.id
    ensures a == b
  {
    var i :| 0 <= i < |rows| && rows[i] == a;
    var j :| 0 <= j < |rows| && rows[j] == b;
  }

  lemma LeasePartStep(cfg: Config, q: Spool, now: int, rows: seq<Row>, i: nat)
    requires Ordered(q.pending) && Ordered(rows) && (forall r <- rows :: r in q.pending) && i < |rows|
    ensures LeasePart(cfg, q, now, rows[..i + 1]) == LeaseOne(cfg, LeasePart(cfg, q, now, rows[..i]), now, rows[i])
    ensures rows[i] in LeasePart(cfg, q, now, rows[..i]).pending
  {
    hide Marked, Parsed, Unparsed, Without, Updated;
    var done, row, until := rows[..i], rows[i], now + cfg.leaseTtlMs;
    assert rows[..i + 1] == done + [row];
    assert Ids(done + [row]) == Ids(done) + {row.id};
    assert row.id !in Ids(done);
    SplitAppends(done, row);
    forall r | r in q.pending && r.id == row.id ensures r == row {
      SameIdSameRow(q.pending, r, row);
    }
    MarkedOneMore(q.pending, Ids(done), row, until);
    MarkedHas(q.pending, Ids(done), row, until);
    BuriedAppends(Unparsed(done), row);
  }

  lemma {:induction false} MarkedHas(rows: seq<Row>, ids: set<nat>, row: Row, until: int)
    requires row in rows && row.id !in ids
    ensures row in Marked(rows, ids, until)
  {
    if rows[0] != row {
      MarkedHas(rows[1..], ids, row, until);
    }
  }

  lemma PlacedBury(pending: set<nat>, buried: seq<nat>, acked: set<nat>, n: nat, id: nat)
    requires Placed(pending, buried, acked, n) && id in pending
    ensures Placed(pending - {id}, buried + [id], acked, n)
  {
    var after := buried + [id];
    forall i, j | 0 <= i < j < |after| ensures after[i] != after[j] {
      assert after[i] in buried;
    }
    assert forall x :: x in after <==> x in buried || x == id;
  }

  lemma BuryConserves(cfg: Config, q: Spool, row: Row, reason: Reason)
    requires Conserved(cfg, q) && row in q.pending
    ensures Conserved(cfg, Bury(q, row, reason))
  {
    var t := Bury(q, row, reason);
    WithoutKeeps(q.pending, {row.id});
    assert row.id in Ids(q.pending);
    PlacedBury(Ids(q.pending), q.buried, q.acked, |q.applied|, row.id);
    assert Live(t) == Live(q);
  }

  lemma {:induction false} UpdatedKeeps(rows: seq<Row>, row: Row)
    ensures |Updated(rows, row)| == |rows|
    ensures forall i :: 0 <= i < |rows| ==> Updated(rows, row)[i] == if rows[i].id == row.id then row else rows[i]
  {
    if rows != [] {
      UpdatedKeeps(rows[1..], row);
    }
  }

  lemma UpdatedOrdered(rows: seq<Row>, row: Row)
    requires Ordered(rows)
    ensures Ordered(Updated(rows, row))
  {
    UpdatedKeeps(rows, row);
  }

  lemma {:induction false} UpdatedRows(rows: seq<Row>, row: Row)
    ensures Ids(Updated(rows, row)) == Ids(rows)
    ensures forall r <- Updated(rows, row) :: r in rows || r == row
    ensures row.id in Ids(rows) ==> row in Updated(rows, row)
  {
    if rows != [] {
      UpdatedRows(rows[1..], row);
      assert Ids(rows) == Ids(rows[1..]) + {rows[0].id} by { assert rows == [rows[0]] + rows[1..]; }
      var head := if rows[0].id == row.id then row else rows[0];
      var rest := Updated(rows[1..], row);
      assert Ids([head] + rest) == Ids(rest) + {head.id};
    }
  }

  lemma UpdateConserves(cfg: Config, q: Spool, before: Row, row: Row)
    requires Conserved(cfg, q) && before in q.pending && row.id == before.id && row.item == before.item
    ensures Conserved(cfg, q.(pending := Updated(q.pending, row)))
  {
    UpdatedKeeps(q.pending, row);
    UpdatedOrdered(q.pending, row);
    UpdatedRows(q.pending, row);
    var t := q.(pending := Updated(q.pending, row));
    assert Live(t) == Live(q);
  }

  lemma LeaseOneConserves(cfg: Config, q: Spool, now: int, row: Row)
    requires Conserved(cfg, q) && row in q.pending
    ensures Conserved(cfg, LeaseOne(cfg, q, now, row))
  {
    if row.item.payload.Json? {
      UpdateConserves(cfg, q, row, Take(row, now + cfg.leaseTtlMs));
    } else {
      BuryConserves(cfg, q, row, JsonParse);
    }
  }

  lemma OrderedOf(cfg: Config, q: Spool)
    requires Conserved(cfg, q)
    ensures Ordered(q.pending)
  {
  }

  lemma {:induction false} LeasePartConserves(cfg: Config, q: Spool, now: int, rows: seq<Row>, i: nat)
    requires Conserved(cfg, q) && Ordered(rows) && (forall r <- rows :: r in q.pending) && i <= |rows|
    ensures Conserved(cfg, LeasePart(cfg, q, now, rows[..i]))
  {
    hide Conserved, LeasePart, LeaseOne, Ordered;
    if i == 0 {
      assert rows[..i] == [];
      LeasePartNone(cfg, q, now);
    } else {
      OrderedOf(cfg, q);
      LeasePartConserves(cfg, q, now, rows, i - 1);
      LeasePartStep(cfg, q, now, rows, i - 1);
      LeaseOneConserves(cfg, LeasePart(cfg, q, now, rows[..i - 1]), now, rows[i - 1]);
    }
  }

  lemma LeaseConserves(cfg: Config, q: Spool, now: int, limit: int)
    requires Conserved(cfg, q)
    ensures Conserved(cfg, Lease(cfg, q, now, limit).0)
    ensures Ordered(Selected(q.pending, now, limit)) && forall r <- Selected(q.pending, now, limit) :: r in q.pending
  {
    var rows := Selected(q.pending, now, limit);
    SelectedIsOldest(q.pending, now, limit);
    LeasePartConserves(cfg, q, now, rows, |rows|);
    assert rows[..|rows|] == rows;
  }

  lemma FreshEvent(q: Spool, item: Item, eventId: Option<string>)
    requires FaithfulRows(q.pending, q.applied) && FaithfulDead(q.dead, q.buried, q.applied)
    requires item.eventId == eventId
    requires eventId.Some? ==> !HasEvent(q.pending, eventId.value) && !HasDeadEvent(q.dead, eventId.value)
    requires DistinctEvents(Live(q), q.applied)
    ensures DistinctEvents(Live(q) + {|q.applied| + 1}, q.applied + [item])
  {
    forall a | a in Live(q)
      ensures eventId.Some? ==> 1 <= a <= |q.applied| && q.applied[a - 1].eventId != eventId
    {
      if a in Ids(q.pending) {
        var r :| r in q.pending && r.id == a;
      } else {
        var k :| 0 <= k < |q.buried| && q.buried[k] == a;
        assert q.dead[k] in q.dead;
      }
    }
  }

  lemma EnqueueConserves(cfg: Config, q: Spool, event: Incoming, diskBytes: int)
    requires Conserved(cfg, q)
    ensures Conserved(cfg, Enqueue(cfg, q, event, diskBytes).0)
  {
    hide HasEvent, HasDeadEvent, Strip;
    var (t, outcome) := Enqueue(cfg, q, event, diskBytes);
    if outcome.Applied? {
      var row := t.pending[|q.pending|];
      assert t.pending == q.pending + [row];
      assert Ids(t.pending) == Ids(q.pending) + {row.id};
      assert Live(t) == Live(q) + {row.id};
      FreshEvent(q, row.item, NonEmpty(Strip(event.eventId)));
    }
  }

  lemma AckConserves(cfg: Config, q: Spool, ids: seq<nat>)
    requires Conserved(cfg, q)
    ensures Conserved(cfg, Ack(q, ids))
  {
    var named := set i <- ids :: i;
    var t := Ack(q, ids);
    WithoutKeeps(q.pending, named);
    assert Live(t) <= Live(q);
  }

  lemma {:induction false} LookupFinds(rows: seq<Row>, id: nat)
    ensures match Lookup(rows, id) case None => id !in Ids(rows) case Some(r) => r in rows && r.id == id
  {
    if rows != [] && rows[0].id != id {
      LookupFinds(rows[1..], id);
      assert rows == [rows[0]] + rows[1..];
    }
  }

  lemma NackOneConserves(cfg: Config, q: Spool, id: nat)
    requires Conserved(cfg, q)
    ensures Conserved(cfg, NackOne(cfg, q, id))
  {
    LookupFinds(q.pending, id);
    match Lookup(q.pending, id)
    case None =>
    case Some(row) =>
      if row.attempts >= cfg.maxAttempts {
        BuryConserves(cfg, q, row, DeliveryFailed);
      } else {
        UpdateConserves(cfg, q, row, row.(leaseUntil := 0));
      }
  }

  lemma {:induction false} NackConserves(cfg: Config, q: Spool, ids: seq<nat>)
    requires Conserved(cfg, q)
    ensures Conserved(cfg, Nack(cfg, q, ids))
    decreases |ids|
  {
    if ids != [] {
      NackOneConserves(cfg, q, ids[0]);
      NackConserves(cfg, NackOne(cfg, q, ids[0]), ids[1..]);
    }
  }
}
