/** Runs of the gateway client: settlements, cancellations and flushes in threads that interleave effect
    by effect, with lost messages, crashes and restarts anywhere; and, as a second reading, one job at a
    time, where no settlement is in two places unless one is settled again. */
module GatewayRuns {
  import opened Wrappers
  import opened GatewaySettlement

  /** todo is what the current job still has to do, listed what a flush found and has not come to. */
  datatype Thread = Thread(todo: seq<Effect>, listed: seq<PendingFile>)

  datatype System = System(world: World, threads: map<nat, Thread>)

  datatype Step =
    | Reserve(r: Reservation)
    | Rehydrate(attemptId: string)
    | Settle(id: nat, r: Reservation, now: int, send: Send)
    | CancelOrPending(id: nat, r: Reservation, dispatched: bool, now: int, send: Send)
    | Flush(id: nat, files: seq<PendingFile>)
    | NextEntry(id: nat, now: int, send: Send)
    | Do(id: nat)
    | Crash

  const Empty := World(Disk(map[], map[], []), map[], Server({}, []), {}, {}, [])

  predicate Listed(w: World, files: seq<PendingFile>) {
    forall f <- files :: f.body.key in w.disk.pending && w.disk.pending[f.body.key] == f
  }

  predicate Enabled(s: System, step: Step) {
    match step
    case Reserve(_) => true
    case Rehydrate(a) => a in s.world.disk.open
    case Settle(id, _, _, _) => id !in s.threads
    case CancelOrPending(id, _, _, _, _) => id !in s.threads
    case Flush(id, files) => id !in s.threads && Listed(s.world, files)
    case NextEntry(id, _, _) => id in s.threads && s.threads[id].todo == [] && s.threads[id].listed != []
    case Do(id) =>
      id in s.threads && s.threads[id].todo != []
      && var e := s.threads[id].todo[0]; (e.Post? ==> Honest(s.world.server, e.body, e.send))
    case Crash => true
  }

  function Begin(file: PendingFile, rest: seq<PendingFile>, now: int, send: Send): Thread {
    Thread(FlushEffects(file, now, send), if FlushOutcome(file, now, send).Unreachable? then [] else rest)
  }

  function Next(price: string -> nat, s: System, step: Step): System
    requires Enabled(s, step)
  {
    match step
    case Reserve(r) =>
      s.(world := s.world.(cache := s.world.cache[r.attemptId := r],
                           disk := s.world.disk.(open := s.world.disk.open[r.attemptId := r])))
    case Rehydrate(a) =>
      if a in s.world.cache then s
      else s.(world := s.world.(cache := s.world.cache[a := s.world.disk.open[a]]))
    case Settle(id, r, now, send) =>
      s.(threads := s.threads[id := Thread(SettleEffects(r, price(r.idempotencyKey), now, send), [])])
    case CancelOrPending(id, r, dispatched, now, send) =>
      s.(threads := s.threads[id := Thread(CancelEffects(r, dispatched, now, send), [])])
    case Flush(id, files) => s.(threads := s.threads[id := Thread([], files)])
    case NextEntry(id, now, send) =>
      var t := s.threads[id];
      s.(threads := s.threads[id := Begin(t.listed[0], t.listed[1..], now, send)])
    case Do(id) =>
      var t := s.threads[id];
      System(Apply(s.world, t.todo[0]), s.threads[id := t.(todo := t.todo[1..])])
    case Crash => System(Restart(s.world), map[])
  }

  // ------------------------------------------------------------------ what a thread has to come

  /** The effects come in the protocol's order: a known settlement is written down (announced) before it
      is sent, and acknowledged only after a send that was. */
  predicate Ordered(price: string -> nat, todo: seq<Effect>, announced: set<Key>, delivered: set<Key>) {
    todo == []
    || match todo[0]
       case Enqueue(b, _) =>
         WellPriced(price, b) && Ordered(price, todo[1..], announced + {b.key}, delivered)
       case Post(b, send) =>
         && WellPriced(price, b)
         && (b.key.kind.UsageKnown? ==> b.key in announced)
         && Ordered(price, todo[1..], announced,
              if b.key.kind.UsageKnown? && Acknowledged(UsageKnown, send) then delivered + {b.key} else delivered)
       case Ack(k) => (k.kind.UsageKnown? ==> k in delivered) && Ordered(price, todo[1..], announced, delivered)
       case _ => Ordered(price, todo[1..], announced, delivered)
  }

  lemma {:induction false} OrderedWidens(price: string -> nat, todo: seq<Effect>, a: set<Key>, d: set<Key>, a': set<Key>, d': set<Key>)
    requires Ordered(price, todo, a, d) && a <= a' && d <= d'
    ensures Ordered(price, todo, a', d')
  {
    if todo != [] {
      match todo[0]
      case Enqueue(b, _) => OrderedWidens(price, todo[1..], a + {b.key}, d, a' + {b.key}, d');
      case Post(b, send) =>
        var more := if b.key.kind.UsageKnown? && Acknowledged(UsageKnown, send) then {b.key} else {};
        assert d + {} == d && d' + {} == d';
        OrderedWidens(price, todo[1..], a, d + more, a', d' + more);
      case _ => OrderedWidens(price, todo[1..], a, d, a', d');
    }
  }

  ghost predicate ThreadReady(price: string -> nat, w: World, t: Thread) {
    && Ordered(price, t.todo, w.intents, w.server.seen)
    && forall f <- t.listed :: WellPriced(price, f.body) && (f.body.key.kind.UsageKnown? ==> f.body.key in w.intents)
  }

  lemma ReadyPersists(price: string -> nat, w: World, w': World, t: Thread)
    requires ThreadReady(price, w, t) && w.intents <= w'.intents && w.server.seen <= w'.server.seen
    ensures ThreadReady(price, w', t)
  {
    OrderedWidens(price, t.todo, w.intents, w.server.seen, w'.intents, w'.server.seen);
  }

  lemma SettleIsOrdered(price: string -> nat, r: Reservation, now: int, send: Send, a: set<Key>, d: set<Key>)
    ensures Ordered(price, SettleEffects(r, price(r.idempotencyKey), now, send), a, d)
  {
    var es := SettleEffects(r, price(r.idempotencyKey), now, send);
    var key := UsageBody(r, price(r.idempotencyKey)).key;
    Unfold4(price, es, a, d);
    var tail := es[4..];
    var d' := if Acknowledged(UsageKnown, send) then d + {key} else d;
    if Acknowledged(UsageKnown, send) {
      assert tail[1..][1..][1..][1..] == [];
      assert tail[1..][1..][0] == Ack(key);
      assert Ordered(price, tail[1..][1..], a + {key}, d');
    } else {
      assert tail[1..][1..] == [];
    }
    assert Ordered(price, tail, a + {key}, d');
  }

  lemma CancelIsOrdered(price: string -> nat, r: Reservation, dispatched: bool, now: int, send: Send, a: set<Key>, d: set<Key>)
    ensures Ordered(price, CancelEffects(r, dispatched, now, send), a, d)
  {
    var es := CancelEffects(r, dispatched, now, send);
    var key := UnknownBody(r, dispatched).key;
    Unfold4(price, es, a, d);
    var tail := es[4..];
    if !Acknowledged(key.kind, send) {
      assert tail[1..][1..] == [];
      assert Ordered(price, tail[1..], a + {key}, d);
    } else if dispatched {
      assert tail[1..] == [];
    } else {
      assert tail[1..][1..][1..] == [];
      assert Ordered(price, tail[1..][1..], a + {key}, d);
    }
    assert Ordered(price, tail, a + {key}, d);
  }

  /** Both jobs open alike: note the reservation, write it and the body down, send the body. */
  lemma Unfold4(price: string -> nat, es: seq<Effect>, a: set<Key>, d: set<Key>)
    requires |es| >= 4 && es[0].Track? && es[1].PutOpen? && es[2].Enqueue? && es[3].Post?
    requires es[2].body == es[3].body && WellPriced(price, es[2].body)
    ensures var key := es[2].body.key;
            Ordered(price, es, a, d) ==
            Ordered(price, es[4..], a + {key}, if key.kind.UsageKnown? && Acknowledged(UsageKnown, es[3].send) then d + {key} else d)
  {
    assert es[1..][1..] == es[2..] && es[2..][1..] == es[3..] && es[3..][1..] == es[4..];
    assert es[1..][0] == es[1] && es[2..][0] == es[2] && es[3..][0] == es[3];
    assert Ordered(price, es, a, d) == Ordered(price, es[1..], a, d);
    assert Ordered(price, es[1..], a, d) == Ordered(price, es[2..], a, d);
    assert Ordered(price, es[2..], a, d) == Ordered(price, es[3..], a + {es[2].body.key}, d);
  }

  lemma FlushIsOrdered(price: string -> nat, file: PendingFile, now: int, send: Send, a: set<Key>, d: set<Key>)
    requires WellPriced(price, file.body) && (file.body.key.kind.UsageKnown? ==> file.body.key in a)
    ensures Ordered(price, FlushEffects(file, now, send), a, d)
  {
    var es := FlushEffects(file, now, send);
    if now - file.enqueuedAt > MAX_AGE_S {
      assert es[1..] == [];
    } else {
      var tail := es[1..];
      var d' := if file.body.key.kind.UsageKnown? && Acknowledged(UsageKnown, send) then d + {file.body.key} else d;
      assert tail == [] || tail[1..] == [] || tail[1..][1..] == [];
      assert Ordered(price, tail, a, d');
    }
  }

  // ------------------------------------------------------------------ every run

  ghost predicate Ready(price: string -> nat, s: System) {
    forall id <- s.threads :: ThreadReady(price, s.world, s.threads[id])
  }

  ghost predicate Safe(price: string -> nat, s: System) {
    Kept(price, s.world) && Charged(price, s.world) && Ready(price, s)
  }

  lemma DoKeepsReady(price: string -> nat, s: System, id: nat)
    requires Safe(price, s) && Enabled(s, Do(id))
    ensures Prepared(price, s.world, s.threads[id].todo[0])
    ensures Ready(price, Next(price, s, Do(id)))
  {
    var t, w := s.threads[id], s.world;
    var e := t.todo[0];
    var w' := Apply(w, e);
    assert ThreadReady(price, w, t);
    forall j | j in s.threads && j != id ensures ThreadReady(price, w', s.threads[j]) {
      ReadyPersists(price, w, w', s.threads[j]);
    }
    var t' := t.(todo := t.todo[1..]);
    match e
    case Enqueue(b, _) => OrderedWidens(price, t.todo[1..], w.intents + {b.key}, w.server.seen, w.intents + {b.key}, w.server.seen);
      if !b.key.kind.UsageKnown? { Irrelevant(price, t.todo[1..], w.intents, b.key, w.server.seen); }
    case Post(b, send) =>
      var more := if b.key.kind.UsageKnown? && Acknowledged(UsageKnown, send) then {b.key} else {};
      assert w.server.seen + {} == w.server.seen;
      OrderedWidens(price, t.todo[1..], w.intents, w.server.seen + more, w'.intents, w'.server.seen);
    case _ => OrderedWidens(price, t.todo[1..], w.intents, w.server.seen, w'.intents, w'.server.seen);
    assert ThreadReady(price, w', t');
  }

  /** Only known settlements need to be announced. */
  lemma {:induction false} Irrelevant(price: string -> nat, todo: seq<Effect>, a: set<Key>, k: Key, d: set<Key>)
    requires !k.kind.UsageKnown? && Ordered(price, todo, a + {k}, d)
    ensures Ordered(price, todo, a, d)
  {
    if todo != [] {
      match todo[0]
      case Enqueue(b, _) =>
        assert a + {k} + {b.key} == a + {b.key} + {k};
        Irrelevant(price, todo[1..], a + {b.key}, k, d);
      case Post(b, send) =>
        Irrelevant(price, todo[1..], a, k, if b.key.kind.UsageKnown? && Acknowledged(UsageKnown, send) then d + {b.key} else d);
      case _ => Irrelevant(price, todo[1..], a, k, d);
    }
  }

  lemma SafeInductive(price: string -> nat, s: System, step: Step)
    requires Safe(price, s) && Enabled(s, step)
    ensures Safe(price, Next(price, s, step))
  {
    var w, w' := s.world, Next(price, s, step).world;
    match step
    case Settle(id, r, now, send) => SettleIsOrdered(price, r, now, send, w.intents, w.server.seen);
    case CancelOrPending(id, r, dispatched, now, send) => CancelIsOrdered(price, r, dispatched, now, send, w.intents, w.server.seen);
    case NextEntry(id, now, send) =>
      var t := s.threads[id];
      assert ThreadReady(price, w, t) && t.listed[0] in t.listed;
      FlushIsOrdered(price, t.listed[0], now, send, w.intents, w.server.seen);
      assert forall f <- t.listed[1..] :: f in t.listed;
    case Do(id) =>
      DoKeepsReady(price, s, id);
      KeptByEffect(price, w, s.threads[id].todo[0]);
      ChargedByEffect(price, w, s.threads[id].todo[0]);
    case _ =>
      forall id | id in s.threads ensures ThreadReady(price, w', s.threads[id]) {
        ReadyPersists(price, w, w', s.threads[id]);
      }
  }

  predicate Moves(price: string -> nat, states: seq<System>, steps: seq<Step>, i: nat)
    requires i < |steps| < |states|
  {
    Enabled(states[i], steps[i]) && states[i + 1] == Next(price, states[i], steps[i])
  }

  predicate IsRun(price: string -> nat, states: seq<System>, steps: seq<Step>) {
    && |states| == |steps| + 1
    && states[0] == System(Empty, map[])
    && forall i :: 0 <= i < |steps| ==> Moves(price, states, steps, i)
  }

  /** However threads interleave and wherever the process dies, no settlement written down is lost or
      altered, and the service charges each at most once. */
  lemma {:induction false} NoSettlementIsLost(price: string -> nat, states: seq<System>, steps: seq<Step>, n: nat)
    requires IsRun(price, states, steps) && n < |states|
    ensures Safe(price, states[n])
  {
    if n > 0 {
      NoSettlementIsLost(price, states, steps, n - 1);
      assert Moves(price, states, steps, n - 1);
      SafeInductive(price, states[n - 1], steps[n - 1]);
    }
  }

  lemma {:induction false} IntentsAndChargesStay(price: string -> nat, states: seq<System>, steps: seq<Step>, n: nat, m: nat)
    requires IsRun(price, states, steps) && n <= m < |states|
    ensures states[n].world.intents <= states[m].world.intents
    ensures states[n].world.server.charges <= states[m].world.server.charges
  {
    if n < m {
      IntentsAndChargesStay(price, states, steps, n, m - 1);
      assert Moves(price, states, steps, m - 1);
    }
  }

  /** Once a settlement's file has been written, every later state still has it somewhere, and a file that
      has it says what it costs. */
  lemma SettlementStaysFound(price: string -> nat, states: seq<System>, steps: seq<Step>, n: nat, m: nat, k: Key)
    requires IsRun(price, states, steps) && n <= m < |states| && k in states[n].world.intents
    ensures Found(states[m].world, k)
    ensures k in states[m].world.disk.pending ==>
              states[m].world.disk.pending[k].body.amount == Some(price(k.idempotencyKey))
    ensures k in states[m].world.acked ==> exists b <- states[m].world.server.charges :: b.key == k && b.amount == Some(price(k.idempotencyKey))
  {
    NoSettlementIsLost(price, states, steps, m);
    IntentsAndChargesStay(price, states, steps, n, m);
  }

  // ------------------------------------------------------------------ one job at a time

  function JobBody(w: World, job: Job): Body
    requires job.FlushJob? ==> job.key in w.disk.pending
  {
    match job
    case SettleJob(r, micros, _, _) => UsageBody(r, micros)
    case CancelJob(r, dispatched, _, _) => UnknownBody(r, dispatched)
    case FlushJob(key, _, _) => w.disk.pending[key].body
  }

  /** The attempt's one amount, an honest service, and an entry that is there to be flushed. */
  ghost predicate Due(price: string -> nat, w: World, job: Job) {
    && (job.FlushJob? ==> job.key in w.disk.pending)
    && (job.SettleJob? ==> job.micros == price(job.r.idempotencyKey))
    && Honest(w.server, JobBody(w, job), job.send)
  }

  /** A settlement that already left the queue is settled again. */
  predicate Resettles(w: World, job: Job) {
    job.SettleJob? && var k := UsageBody(job.r, job.micros).key;
                      k in w.acked || k in QuarantinedKeys(w.disk.quarantine)
  }

  ghost predicate Good(price: string -> nat, w: World) { Kept(price, w) && Charged(price, w) && ExactlyOne(w) }

  ghost predicate Calm(price: string -> nat, w: World, es: seq<Effect>)
    decreases |es|
  {
    es == [] || (Prepared(price, w, es[0]) && !Disturbs(w, es[0]) && Calm(price, Apply(w, es[0]), es[1..]))
  }

  lemma {:induction false} CalmKeepsGood(price: string -> nat, w: World, es: seq<Effect>, k: nat)
    requires Good(price, w) && Calm(price, w, es) && k <= |es|
    ensures Good(price, ApplyAll(w, es[..k]))
    decreases k
  {
    if k > 0 {
      KeptByEffect(price, w, es[0]);
      ChargedByEffect(price, w, es[0]);
      OnePlaceUnlessDisturbed(price, w, es[0]);
      CalmKeepsGood(price, Apply(w, es[0]), es[1..], k - 1);
      assert es[..k][1..] == es[1..][..k - 1];
    }
  }

  lemma CalmCons(price: string -> nat, w: World, e: Effect, rest: seq<Effect>)
    requires Prepared(price, w, e) && !Disturbs(w, e) && Calm(price, Apply(w, e), rest)
    ensures Calm(price, w, [e] + rest)
  {
    assert ([e] + rest)[1..] == rest;
  }

  /** Effects on the reservation's own file and cache entry need nothing. */
  predicate Local(e: Effect) { e.Track? || e.PutOpen? || e.DropOpen? || e.Forget? || e.Finalize? }

  lemma {:induction false} LocalIsCalm(price: string -> nat, w: World, es: seq<Effect>)
    requires forall e <- es :: Local(e)
    ensures Calm(price, w, es)
    decreases |es|
  {
    if es != [] {
      assert Local(es[0]);
      LocalIsCalm(price, Apply(w, es[0]), es[1..]);
    }
  }

  /** The end of a settlement: the file is there, the send was made. */
  lemma SettleTailIsCalm(price: string -> nat, w: World, r: Reservation, now: int, send: Send)
    requires var k := UsageBody(r, price(r.idempotencyKey)).key;
             k !in w.acked && k !in QuarantinedKeys(w.disk.quarantine) && (Acknowledged(UsageKnown, send) ==> k in w.server.seen)
    ensures Calm(price, w, SettleEffects(r, price(r.idempotencyKey), now, send)[4..])
  {
    var es := SettleEffects(r, price(r.idempotencyKey), now, send)[4..];
    var w1 := Apply(w, es[0]);
    var w2 := Apply(w1, es[1]);
    if Acknowledged(UsageKnown, send) {
      LocalIsCalm(price, Apply(w2, es[2]), [es[3]]);
      CalmCons(price, w2, es[2], [es[3]]);
      CalmCons(price, w1, es[1], [es[2], es[3]]);
      CalmCons(price, w, es[0], [es[1], es[2], es[3]]);
      assert es == [es[0]] + [es[1], es[2], es[3]];
      assert [es[1]] + [es[2], es[3]] == [es[1], es[2], es[3]] && [es[2]] + [es[3]] == [es[2], es[3]];
    } else {
      CalmCons(price, w1, es[1], []);
      CalmCons(price, w, es[0], [es[1]]);
      assert es == [es[0]] + [es[1]] && [es[1]] + [] == [es[1]];
    }
  }

  lemma FourThenTail(price: string -> nat, w: World, es: seq<Effect>)
    requires |es| >= 4 && es[0].Track? && es[1].PutOpen? && es[2].Enqueue? && es[3].Post?
    requires es[2].body == es[3].body && WellPriced(price, es[2].body) && Honest(w.server, es[3].body, es[3].send)
    requires var k := es[2].body.key; k.kind.UsageKnown? ==> k !in w.acked && k !in QuarantinedKeys(w.disk.quarantine)
    requires Calm(price, ApplyAll(w, es[..4]), es[4..])
    ensures Calm(price, w, es)
  {
    var w1 := Apply(w, es[0]);
    var w2 := Apply(w1, es[1]);
    var w3 := Apply(w2, es[2]);
    var w4 := Apply(w3, es[3]);
    assert es[..4] == [es[0], es[1], es[2], es[3]];
    FourSteps(w, es[0], es[1], es[2], es[3]);
    CalmCons(price, w3, es[3], es[4..]);
    CalmCons(price, w2, es[2], [es[3]] + es[4..]);
    CalmCons(price, w1, es[1], [es[2]] + ([es[3]] + es[4..]));
    CalmCons(price, w, es[0], [es[1]] + ([es[2]] + ([es[3]] + es[4..])));
    assert es == [es[0]] + ([es[1]] + ([es[2]] + ([es[3]] + es[4..])));
  }

  lemma FourSteps(w: World, a: Effect, b: Effect, c: Effect, d: Effect)
    ensures ApplyAll(w, [a, b, c, d]) == Apply(Apply(Apply(Apply(w, a), b), c), d)
  {
    assert [a, b, c, d][1..] == [b, c, d] && [b, c, d][1..] == [c, d] && [c, d][1..] == [d] && [d][1..] == [];
    assert ApplyAll(w, [a, b, c, d]) == ApplyAll(Apply(w, a), [b, c, d]);
    assert ApplyAll(Apply(w, a), [b, c, d]) == ApplyAll(Apply(Apply(w, a), b), [c, d]);
    var v := Apply(Apply(w, a), b);
    assert ApplyAll(v, [c, d]) == ApplyAll(Apply(v, c), [d]);
    assert ApplyAll(Apply(v, c), [d]) == ApplyAll(Apply(Apply(v, c), d), []);
  }

  lemma SettleIsCalm(price: string -> nat, w: World, job: Job)
    requires Good(price, w) && job.SettleJob? && Due(price, w, job) && !Resettles(w, job)
    ensures Calm(price, w, Effects(w, job))
  {
    var es := Effects(w, job);
    assert es[..4] == [es[0], es[1], es[2], es[3]];
    FourSteps(w, es[0], es[1], es[2], es[3]);
    SettleTailIsCalm(price, ApplyAll(w, es[..4]), job.r, job.now, job.send);
    FourThenTail(price, w, es);
  }

  lemma CancelIsCalm(price: string -> nat, w: World, job: Job)
    requires Good(price, w) && job.CancelJob? && Due(price, w, job)
    ensures Calm(price, w, Effects(w, job))
  {
    var es := Effects(w, job);
    assert es[..4] == [es[0], es[1], es[2], es[3]];
    FourSteps(w, es[0], es[1], es[2], es[3]);
    var v := ApplyAll(w, es[..4]);
    var tail := es[4..];
    if !Acknowledged(es[3].body.key.kind, job.send) {
      CalmCons(price, Apply(v, tail[0]), tail[1], []);
      CalmCons(price, v, tail[0], [tail[1]]);
      assert tail == [tail[0]] + [tail[1]] && [tail[1]] + [] == [tail[1]];
    } else {
      LocalIsCalm(price, Apply(v, tail[0]), tail[1..]);
      CalmCons(price, v, tail[0], tail[1..]);
      assert tail == [tail[0]] + tail[1..];
    }
    FourThenTail(price, w, es);
  }

  lemma FlushIsCalm(price: string -> nat, w: World, job: Job)
    requires Good(price, w) && job.FlushJob? && Due(price, w, job)
    ensures Calm(price, w, Effects(w, job))
  {
    var file := w.disk.pending[job.key];
    var es := Effects(w, job);
    assert job.key.kind.UsageKnown? ==> OnePlace(w, job.key);
    if es[0].Quarantine? {
      CalmCons(price, w, es[0], []);
      assert es == [es[0]] + [];
    } else {
      var w1 := Apply(w, es[0]);
      var tail := es[1..];
      if tail != [] {
        LocalIsCalm(price, Apply(w1, tail[0]), tail[1..]);
        CalmCons(price, w1, tail[0], tail[1..]);
        assert tail == [tail[0]] + tail[1..];
      }
      CalmCons(price, w, es[0], tail);
      assert es == [es[0]] + tail;
    }
  }

  lemma JobIsCalm(price: string -> nat, w: World, job: Job)
    requires Good(price, w) && Due(price, w, job) && !Resettles(w, job)
    ensures Calm(price, w, Effects(w, job))
  {
    if job.SettleJob? { SettleIsCalm(price, w, job); }
    else if job.CancelJob? { CancelIsCalm(price, w, job); }
    else { FlushIsCalm(price, w, job); }
  }

  /** The state k effects into the job, and what a restart there finds. */
  ghost predicate GoodAt(price: string -> nat, w: World, es: seq<Effect>, k: nat)
    requires k <= |es|
  {
    Good(price, ApplyAll(w, es[..k])) && Good(price, Restart(ApplyAll(w, es[..k])))
  }

  lemma RestartIsHarmless(price: string -> nat, w: World)
    ensures Good(price, Restart(w)) <==> Good(price, w)
  {
    if Good(price, w) { assert forall k <- w.intents :: OnePlace(w, k) ==> OnePlace(Restart(w), k); }
    if Good(price, Restart(w)) { assert forall k <- w.intents :: OnePlace(Restart(w), k) ==> OnePlace(w, k); }
  }

  lemma ResettlingDisturbs(price: string -> nat, w: World, job: Job)
    requires Resettles(w, job)
    ensures !GoodAt(price, w, Effects(w, job), 3)
  {
    var es := Effects(w, job);
    var key := UsageBody(job.r, job.micros).key;
    assert es[..3] == [es[0], es[1], es[2]];
    assert es[..3][1..] == [es[1], es[2]] && [es[1], es[2]][1..] == [es[2]] && [es[2]][1..] == [];
    var w1 := Apply(w, es[0]);
    var w2 := Apply(w1, es[1]);
    assert ApplyAll(w, es[..3]) == ApplyAll(w1, [es[1], es[2]]);
    assert ApplyAll(w1, [es[1], es[2]]) == ApplyAll(w2, [es[2]]);
    assert ApplyAll(w2, [es[2]]) == Apply(w2, es[2]);
    var v := Apply(w2, es[2]);
    assert key in v.intents && !OnePlace(v, key);
  }

  /** One job at a time: at every point of a job, and after dying there, every settlement is in exactly one
      of acknowledged, pending and quarantined - if and only if no settlement is settled again after it has
      left the queue. */
  lemma OnePlaceThroughout(price: string -> nat, w: World, job: Job)
    requires Good(price, w) && Due(price, w, job)
    ensures (forall k :: 0 <= k <= |Effects(w, job)| ==> GoodAt(price, w, Effects(w, job), k)) <==> !Resettles(w, job)
  {
    var es := Effects(w, job);
    if Resettles(w, job) {
      ResettlingDisturbs(price, w, job);
    } else {
      JobIsCalm(price, w, job);
      forall k | 0 <= k <= |es| ensures GoodAt(price, w, es, k) {
        CalmKeepsGood(price, w, es, k);
        RestartIsHarmless(price, ApplyAll(w, es[..k]));
      }
    }
  }

  /** A job that dies after some of its effects (died) or comes to its end. */
  datatype Turn = Turn(job: Job, died: Option<nat>)

  function After(w: World, turn: Turn): World {
    var es := Effects(w, turn.job);
    if turn.died.None? || turn.died.value >= |es| then ApplyAll(w, es) else Restart(ApplyAll(w, es[..turn.died.value]))
  }

  ghost predicate Turns(price: string -> nat, worlds: seq<World>, turns: seq<Turn>, i: nat)
    requires i < |turns| < |worlds|
  {
    Due(price, worlds[i], turns[i].job) && !Resettles(worlds[i], turns[i].job) && worlds[i + 1] == After(worlds[i], turns[i])
  }

  lemma {:induction false} OnePlaceAlways(price: string -> nat, worlds: seq<World>, turns: seq<Turn>, n: nat)
    requires |worlds| == |turns| + 1 && worlds[0] == Empty && n < |worlds|
    requires forall i :: 0 <= i < |turns| ==> Turns(price, worlds, turns, i)
    ensures Good(price, worlds[n])
  {
    if n > 0 {
      OnePlaceAlways(price, worlds, turns, n - 1);
      assert Turns(price, worlds, turns, n - 1);
      var w, turn := worlds[n - 1], turns[n - 1];
      OnePlaceThroughout(price, w, turn.job);
      var es := Effects(w, turn.job);
      assert es[..|es|] == es;
      assert GoodAt(price, w, es, |es|);
      if turn.died.Some? && turn.died.value < |es| { assert GoodAt(price, w, es, turn.died.value); }
    }
  }

  lemma SettlingAcknowledges(w: World, job: Job)
    requires job.SettleJob? && Acknowledged(UsageKnown, job.send)
    ensures UsageBody(job.r, job.micros).key in ApplyAll(w, Effects(w, job)).acked
  {
    var es := Effects(w, job);
    assert es[..4] == [es[0], es[1], es[2], es[3]] && es == es[..4] + es[4..] && es[4..] == [es[4], es[5], es[6], es[7]];
    ApplyAppend(w, es[..4], es[4..]);
    var v := ApplyAll(w, es[..4]);
    FourSteps(v, es[4], es[5], es[6], es[7]);
  }

  /** A settlement that went through, settled a second time: its file is written again, and it lies in the
      queue although it has been acknowledged. */
  lemma SettlingTwiceDisturbs(price: string -> nat, r: Reservation)
    ensures var job := SettleJob(r, price(r.idempotencyKey), 0, Send(true, true, Some(Reply(200, AppliedCode))));
            var w := After(Empty, Turn(job, None));
            && Due(price, Empty, job) && !Resettles(Empty, job)
            && Good(price, w) && Due(price, w, job) && Resettles(w, job) && !GoodAt(price, w, Effects(w, job), 3)
  {
    hide ApplyAll, SettleEffects, Good, GoodAt;
    var job := SettleJob(r, price(r.idempotencyKey), 0, Send(true, true, Some(Reply(200, AppliedCode))));
    var w := After(Empty, Turn(job, None));
    OnePlaceAlways(price, [Empty, w], [Turn(job, None)], 1);
    SettlingAcknowledges(Empty, job);
    ResettlingDisturbs(price, w, job);
  }

  lemma {:induction false} ApplyAppend(w: World, xs: seq<Effect>, ys: seq<Effect>)
    ensures ApplyAll(w, xs + ys) == ApplyAll(ApplyAll(w, xs), ys)
    decreases |xs|
  {
    if xs == [] { assert xs + ys == ys; }
    else { assert (xs + ys)[1..] == xs[1..] + ys; ApplyAppend(Apply(w, xs[0]), xs[1..], ys); }
  }
}
