/** The exactly-one-place half of the gateway's promise on interleaved runs. A flush runs in a worker
    thread (litellm_gateway.py:108) while settlements are in flight, so a settlement may be found by a
    flush before its own job has come to an end. */
module GatewayRaces {
  import opened Wrappers
  import opened GatewaySettlement
  import opened GatewayRuns

  // ------------------------------------------------------------------ the exact condition on runs

  /** Step m carries out an effect that puts a settlement in a second place. */
  predicate DisturbingStep(states: seq<System>, steps: seq<Step>, m: nat)
    requires m < |steps| <= |states|
  {
    && steps[m].Do? && steps[m].id in states[m].threads
    && var todo := states[m].threads[steps[m].id].todo; todo != [] && Disturbs(states[m].world, todo[0])
  }

  lemma StepKeepsOnePlace(price: string -> nat, s: System, step: Step)
    requires Safe(price, s) && Enabled(s, step) && ExactlyOne(s.world)
    ensures ExactlyOne(Next(price, s, step).world) <==> !(step.Do? && Disturbs(s.world, s.threads[step.id].todo[0]))
  {
    var w, w' := s.world, Next(price, s, step).world;
    if step.Do? {
      DoKeepsReady(price, s, step.id);
      OnePlaceUnlessDisturbed(price, w, s.threads[step.id].todo[0]);
    } else {
      assert forall k <- w.intents :: OnePlace(w, k) ==> OnePlace(w', k);
    }
  }

  /** On every interleaving, with lost messages and crashes anywhere: every settlement is in exactly one
      place all along if and only if no effect wrote again one that had left the queue, or acknowledged
      one that had been set aside. */
  lemma {:induction false} OnePlaceUnlessADisturbingStep(price: string -> nat, states: seq<System>, steps: seq<Step>, n: nat)
    requires IsRun(price, states, steps) && n < |states|
    ensures (forall m :: 0 <= m <= n ==> ExactlyOne(states[m].world))
            <==> (forall m :: 0 <= m < n ==> !DisturbingStep(states, steps, m))
  {
    if n == 0 {
      assert states[0].world == Empty;
    } else {
      OnePlaceUnlessADisturbingStep(price, states, steps, n - 1);
      NoSettlementIsLost(price, states, steps, n - 1);
      assert Moves(price, states, steps, n - 1);
      if ExactlyOne(states[n - 1].world) {
        StepKeepsOnePlace(price, states[n - 1], steps[n - 1]);
        assert ExactlyOne(states[n].world) <==> !DisturbingStep(states, steps, n - 1);
      }
      assert (forall m :: 0 <= m <= n ==> ExactlyOne(states[m].world))
        <==> (forall m :: 0 <= m <= n - 1 ==> ExactlyOne(states[m].world)) && ExactlyOne(states[n].world);
    }
  }

  // ------------------------------------------------------------------ a condition for callers

  /** The key whose file the effect writes, acknowledges or sets aside. */
  predicate Handles(e: Effect, k: Key) {
    match e
    case Enqueue(b, _) => b.key == k
    case Ack(key) => key == k
    case Quarantine(key) => key == k
    case _ => false
  }

  predicate AtWork(todo: seq<Effect>, k: Key) { exists e <- todo :: Handles(e, k) }

  predicate Busy(s: System, k: Key) { exists id <- s.threads :: AtWork(s.threads[id].todo, k) }

  /** What callers have to see to: a settlement starts only while it is neither acknowledged nor set aside,
      a flush comes to an entry only while it is not set aside, and neither while another job still has to
      write, acknowledge or set aside the same settlement. */
  predicate Considerate(s: System, step: Step) {
    match step
    case Settle(_, r, _, _) =>
      var k := Key(r.idempotencyKey, UsageKnown);
      k !in s.world.acked && k !in QuarantinedKeys(s.world.disk.quarantine) && !Busy(s, k)
    case NextEntry(id, _, _) =>
      id in s.threads && s.threads[id].listed != []
      && var k := s.threads[id].listed[0].body.key;
         k.kind.UsageKnown? ==> k !in QuarantinedKeys(s.world.disk.quarantine) && !Busy(s, k)
    case _ => true
  }

  predicate Undisturbed(todo: seq<Effect>, acked: set<Key>, aside: set<Key>) {
    todo == []
    || match todo[0]
       case Enqueue(b, _) =>
         (b.key.kind.UsageKnown? ==> b.key !in acked && b.key !in aside) && Undisturbed(todo[1..], acked, aside)
       case Ack(k) => (k.kind.UsageKnown? ==> k !in aside) && Undisturbed(todo[1..], acked + {k}, aside)
       case Quarantine(k) => Undisturbed(todo[1..], acked, aside + {k})
       case _ => Undisturbed(todo[1..], acked, aside)
  }

  /** Only the settlements a job handles matter to it. */
  lemma {:induction false} UndisturbedElsewhere(todo: seq<Effect>, acked: set<Key>, aside: set<Key>, acked': set<Key>, aside': set<Key>)
    requires Undisturbed(todo, acked, aside)
    requires forall k <- acked' + aside' | k.kind.UsageKnown? && AtWork(todo, k) ::
               (k in acked' ==> k in acked) && (k in aside' ==> k in aside)
    ensures Undisturbed(todo, acked', aside')
  {
    if todo != [] {
      assert forall k :: AtWork(todo[1..], k) ==> AtWork(todo, k);
      match todo[0]
      case Enqueue(b, _) =>
        assert Handles(todo[0], b.key) && AtWork(todo, b.key);
        UndisturbedElsewhere(todo[1..], acked, aside, acked', aside');
      case Ack(k) =>
        assert Handles(todo[0], k) && AtWork(todo, k);
        UndisturbedElsewhere(todo[1..], acked + {k}, aside, acked' + {k}, aside');
      case Quarantine(k) => UndisturbedElsewhere(todo[1..], acked, aside + {k}, acked', aside' + {k});
      case _ => UndisturbedElsewhere(todo[1..], acked, aside, acked', aside');
    }
  }

  ghost predicate Calmly(s: System, id: nat)
    requires id in s.threads
  {
    Undisturbed(s.threads[id].todo, s.world.acked, QuarantinedKeys(s.world.disk.quarantine))
  }

  ghost predicate Apart(s: System, i: nat, j: nat)
    requires i in s.threads && j in s.threads
  {
    forall k: Key :: k.kind.UsageKnown? && AtWork(s.threads[i].todo, k) ==> !AtWork(s.threads[j].todo, k)
  }

  /** No job has a disturbing effect ahead, and no two jobs handle the same settlement. */
  ghost predicate Orderly(s: System) {
    && (forall id <- s.threads :: Calmly(s, id))
    && (forall i <- s.threads, j <- s.threads | i != j :: Apart(s, i, j))
  }

  /** Both jobs open alike: note the reservation, write it and the body down, send the body. */
  lemma OpeningIsUndisturbed(es: seq<Effect>, acked: set<Key>, aside: set<Key>)
    requires |es| >= 4 && es[0].Track? && es[1].PutOpen? && es[2].Enqueue? && es[3].Post?
    requires es[2].body.key !in acked + aside && Undisturbed(es[4..], acked, aside)
    ensures Undisturbed(es, acked, aside)
  {
    assert es[1..][1..] == es[2..] && es[2..][1..] == es[3..] && es[3..][1..] == es[4..];
    assert es[1..][0] == es[1] && es[2..][0] == es[2] && es[3..][0] == es[3];
    assert Undisturbed(es[3..], acked, aside);
    assert Undisturbed(es[2..], acked, aside);
    assert Undisturbed(es[1..], acked, aside);
  }

  lemma SettleIsUndisturbed(r: Reservation, micros: nat, now: int, send: Send, acked: set<Key>, aside: set<Key>)
    requires Key(r.idempotencyKey, UsageKnown) !in acked + aside
    ensures Undisturbed(SettleEffects(r, micros, now, send), acked, aside)
    ensures forall k: Key :: AtWork(SettleEffects(r, micros, now, send), k) ==> k == Key(r.idempotencyKey, UsageKnown)
  {
    var es := SettleEffects(r, micros, now, send);
    if Acknowledged(UsageKnown, send) {
      assert es[4..][1..] == es[5..] && es[5..][1..] == es[6..] && es[6..][1..] == [es[7]] && [es[7]][1..] == [];
      assert Undisturbed([es[7]], acked + {Key(r.idempotencyKey, UsageKnown)}, aside);
      assert Undisturbed(es[6..], acked, aside);
    } else {
      assert es[4..][1..] == [es[5]] && [es[5]][1..] == [];
    }
    OpeningIsUndisturbed(es, acked, aside);
  }

  lemma CancelIsUndisturbed(r: Reservation, dispatched: bool, now: int, send: Send, acked: set<Key>, aside: set<Key>)
    ensures Undisturbed(CancelEffects(r, dispatched, now, send), acked, aside)
    ensures forall k: Key :: k.kind.UsageKnown? ==> !AtWork(CancelEffects(r, dispatched, now, send), k)
  {
    var es := CancelEffects(r, dispatched, now, send);
    NoUsageNoDisturbance(es, acked, aside);
  }

  lemma {:induction false} NoUsageNoDisturbance(es: seq<Effect>, acked: set<Key>, aside: set<Key>)
    requires forall k: Key :: k.kind.UsageKnown? ==> !AtWork(es, k)
    ensures Undisturbed(es, acked, aside)
  {
    if es != [] {
      var e := es[0];
      assert forall k :: Handles(e, k) ==> AtWork(es, k);
      assert forall k :: AtWork(es[1..], k) ==> AtWork(es, k);
      NoUsageNoDisturbance(es[1..], if e.Ack? then acked + {e.key} else acked, if e.Quarantine? then aside + {e.key} else aside);
      if e.Enqueue? { assert Handles(e, e.body.key); }
      if e.Ack? { assert Handles(e, e.key); }
    }
  }

  lemma FlushIsUndisturbed(file: PendingFile, now: int, send: Send, acked: set<Key>, aside: set<Key>)
    requires file.body.key.kind.UsageKnown? ==> file.body.key !in aside
    ensures Undisturbed(FlushEffects(file, now, send), acked, aside)
    ensures forall k: Key :: AtWork(FlushEffects(file, now, send), k) ==> k == file.body.key
  {
    var es := FlushEffects(file, now, send);
    if 2 < |es| { assert es[1..][1..] == [es[2]] && [es[2]][1..] == []; assert Undisturbed([es[2]], acked + {es[1].key}, aside); }
    else if 1 < |es| { assert es[1..] == [es[1]] && [es[1]][1..] == []; }
    else { assert es[1..] == []; }
  }

  /** A thread that starts a job on a settlement nobody is at work on. */
  lemma StartKeepsOrderly(s: System, s': System, id: nat, key: Key)
    requires Orderly(s) && s'.world == s.world && id in s'.threads && s'.threads == s.threads[id := s'.threads[id]]
    requires Calmly(s', id)
    requires forall k: Key :: k.kind.UsageKnown? && AtWork(s'.threads[id].todo, k) ==> k == key && !Busy(s, key)
    ensures Orderly(s')
  {
    forall j | j in s'.threads && j != id ensures Calmly(s', j) && Apart(s', id, j) && Apart(s', j, id) {
      assert j in s.threads && s'.threads[j] == s.threads[j] && Calmly(s, j);
      assert forall k :: AtWork(s.threads[j].todo, k) ==> Busy(s, k);
    }
    forall i, j | i in s'.threads && j in s'.threads && i != j && i != id && j != id ensures Apart(s', i, j) {
      assert Apart(s, i, j);
    }
  }

  lemma DoKeepsOrderly(price: string -> nat, s: System, id: nat)
    requires Orderly(s) && Kept(price, s.world) && Enabled(s, Do(id))
    ensures !Disturbs(s.world, s.threads[id].todo[0])
    ensures Orderly(Next(price, s, Do(id)))
  {
    var t, w := s.threads[id], s.world;
    var s' := Next(price, s, Do(id));
    var e, w' := t.todo[0], s'.world;
    var acked, aside := w.acked, QuarantinedKeys(w.disk.quarantine);
    var acked', aside' := w'.acked, QuarantinedKeys(w'.disk.quarantine);
    assert Calmly(s, id);
    if e.Quarantine? && e.key in w.disk.pending { QuarantineGrows(w.disk.quarantine, w.disk.pending[e.key].body); }
    assert forall k :: k in acked' && k !in acked ==> Handles(e, k);
    assert forall k :: k in aside' && k !in aside ==> Handles(e, k);
    assert forall k :: AtWork(s'.threads[id].todo, k) ==> AtWork(t.todo, k);
    forall j | j in s'.threads && j != id ensures Calmly(s', j) && Apart(s', id, j) && Apart(s', j, id) {
      assert Calmly(s, j) && Apart(s, id, j) && Apart(s, j, id);
      assert forall k :: Handles(e, k) ==> AtWork(t.todo, k);
      UndisturbedElsewhere(s.threads[j].todo, acked, aside, acked', aside');
    }
    UndisturbedElsewhere(t.todo[1..], if e.Ack? then acked + {e.key} else acked, if e.Quarantine? then aside + {e.key} else aside, acked', aside');
    forall i, j | i in s'.threads && j in s'.threads && i != j && i != id && j != id ensures Apart(s', i, j) {
      assert Apart(s, i, j);
    }
  }

  lemma NothingToHandle()
    ensures forall k: Key :: !AtWork([], k)
  {
  }

  lemma ConsiderateKeepsOrderly(price: string -> nat, s: System, step: Step)
    requires Orderly(s) && Kept(price, s.world) && Enabled(s, step) && Considerate(s, step)
    ensures Orderly(Next(price, s, step))
    ensures !(step.Do? && Disturbs(s.world, s.threads[step.id].todo[0]))
  {
    hide SettleEffects, CancelEffects, FlushEffects, Undisturbed, AtWork;
    var w, s' := s.world, Next(price, s, step);
    var acked, aside := w.acked, QuarantinedKeys(w.disk.quarantine);
    match step
    case Settle(id, r, now, send) =>
      SettleIsUndisturbed(r, price(r.idempotencyKey), now, send, acked, aside);
      StartKeepsOrderly(s, s', id, Key(r.idempotencyKey, UsageKnown));
    case CancelOrPending(id, r, dispatched, now, send) =>
      CancelIsUndisturbed(r, dispatched, now, send, acked, aside);
      StartKeepsOrderly(s, s', id, UnknownBody(r, dispatched).key);
    case Flush(id, files) =>
      NothingToHandle();
      NoUsageNoDisturbance([], acked, aside);
      StartKeepsOrderly(s, s', id, Key("", UsageKnown));
    case NextEntry(id, now, send) =>
      FlushIsUndisturbed(s.threads[id].listed[0], now, send, acked, aside);
      StartKeepsOrderly(s, s', id, s.threads[id].listed[0].body.key);
    case Do(id) => DoKeepsOrderly(price, s, id);
    case Crash =>
    case _ =>
      forall id | id in s'.threads ensures Calmly(s', id) { assert Calmly(s, id); }
      forall i, j | i in s'.threads && j in s'.threads && i != j ensures Apart(s', i, j) { assert Apart(s, i, j); }
  }

  lemma {:induction false} ConsiderateRunsStayOrderly(price: string -> nat, states: seq<System>, steps: seq<Step>, n: nat)
    requires IsRun(price, states, steps) && n < |states|
    requires forall m :: 0 <= m < n ==> Considerate(states[m], steps[m])
    ensures Orderly(states[n])
    ensures forall m :: 0 <= m < n ==> !DisturbingStep(states, steps, m)
  {
    if n > 0 {
      ConsiderateRunsStayOrderly(price, states, steps, n - 1);
      NoSettlementIsLost(price, states, steps, n - 1);
      assert Moves(price, states, steps, n - 1) && Considerate(states[n - 1], steps[n - 1]);
      ConsiderateKeepsOrderly(price, states[n - 1], steps[n - 1]);
    }
  }

  /** Callers that are considerate at every step never see a settlement in two places, whatever the
      interleaving, the network and the crashes do. */
  lemma OnePlaceOnConsiderateRuns(price: string -> nat, states: seq<System>, steps: seq<Step>, n: nat)
    requires IsRun(price, states, steps) && n < |states|
    requires forall m :: 0 <= m < n ==> Considerate(states[m], steps[m])
    ensures ExactlyOne(states[n].world)
  {
    ConsiderateRunsStayOrderly(price, states, steps, n);
    OnePlaceUnlessADisturbingStep(price, states, steps, n);
  }

  // ------------------------------------------------------------------ what goes wrong otherwise

  /** One settlement, whose reply is lost, and a flush that finds its file meanwhile. */
  function RaceStep(body: Body, r: Reservation, k: nat): Step
    requires k < 11
  {
    var lost, again := Send(true, true, None), Send(true, true, Some(Reply(200, DuplicateCode)));
    if k == 0 then Settle(0, r, 0, lost)
    else if k == 5 then Flush(1, [PendingFile(body, 0)])
    else if k == 6 then NextEntry(1, 0, again)
    else if k == 7 || k == 8 then Do(1)
    else Do(0)
  }

  /** What the k-th step of that run starts from: the world, the settlement's thread and the flush's. */
  function RaceState(body: Body, r: Reservation, es: seq<Effect>, k: nat): System
    requires |es| == 6 && k <= 11
  {
    var file, p := PendingFile(body, 0), r.(status := Pending, settledMicros := body.amount);
    var world := World(
      Disk(if k < 3 then map[] else map[r.attemptId := p],
           if k < 4 || k == 9 || k == 10 then map[] else map[body.key := file], []),
      map[],
      if k < 5 then Server({}, []) else Server({body.key}, [body]),
      if k < 4 then {} else {body.key},
      if k < 9 then {} else {body.key},
      if k < 5 then [] else if k < 8 then [body] else [body, body]);
    var settling := Thread(if k <= 5 then es[(if k == 0 then 0 else k - 1)..] else if k <= 9 then es[4..] else es[k - 5..], []);
    var flush := FlushEffects(file, 0, Send(true, true, Some(Reply(200, DuplicateCode))));
    System(world,
      if k == 0 then map[]
      else if k < 6 then map[0 := settling]
      else map[0 := settling,
               1 := if k == 6 then Thread([], [file]) else if k == 7 then Thread(flush, [])
                    else if k == 8 then Thread(flush[1..], []) else Thread(flush[2..], [])])
  }

  predicate RaceMoves(price: string -> nat, r: Reservation, k: nat)
    requires k < 11
  {
    var body := UsageBody(r, price(r.idempotencyKey));
    var es := SettleEffects(r, price(r.idempotencyKey), 0, Send(true, true, None));
    var s, step := RaceState(body, r, es, k), RaceStep(body, r, k);
    Enabled(s, step) && Next(price, s, step) == RaceState(body, r, es, k + 1)
  }

  lemma TheSettlementOpens(price: string -> nat, r: Reservation, k: nat)
    requires k < 5
    ensures RaceMoves(price, r, k)
  {
    hide FlushEffects;
    var body := UsageBody(r, price(r.idempotencyKey));
    var es := SettleEffects(r, price(r.idempotencyKey), 0, Send(true, true, None));
    if k > 0 { assert es[k - 1..][1..] == es[k..]; }
    assert Next(price, RaceState(body, r, es, k), RaceStep(body, r, k)).threads == RaceState(body, r, es, k + 1).threads;
  }

  lemma TheFlushBegins(price: string -> nat, r: Reservation)
    ensures RaceMoves(price, r, 5) && RaceMoves(price, r, 6)
  {
  }

  lemma TheFlushAcknowledges(price: string -> nat, r: Reservation)
    ensures RaceMoves(price, r, 7) && RaceMoves(price, r, 8)
  {
  }

  lemma TheSettlementEnds(price: string -> nat, r: Reservation, k: nat)
    requires 9 <= k < 11
    ensures RaceMoves(price, r, k)
  {
    hide FlushEffects;
    var es := SettleEffects(r, price(r.idempotencyKey), 0, Send(true, true, None));
    var body := UsageBody(r, price(r.idempotencyKey));
    var s, t := RaceState(body, r, es, k), RaceState(body, r, es, k + 1);
    assert es[k - 5..][1..] == es[k - 4..];
    assert Next(price, s, Do(0)).threads == t.threads;
    assert Next(price, s, Do(0)).world.disk == t.world.disk && s.world.intents + {body.key} == t.world.intents;
  }

  /** The flush acknowledges the settlement, and then its own job, which got no reply, writes the file
      again: the settlement is both acknowledged and pending, and nothing was settled twice. */
  lemma FlushDuringASettlement(price: string -> nat, r: Reservation)
    ensures exists states: seq<System>, steps: seq<Step> ::
              && IsRun(price, states, steps)
              && (forall i :: 0 < i < |steps| ==> !steps[i].Settle?)
              && !ExactlyOne(states[|steps|].world)
  {
    var body := UsageBody(r, price(r.idempotencyKey));
    var es := SettleEffects(r, price(r.idempotencyKey), 0, Send(true, true, None));
    var states := seq(12, k requires 0 <= k < 12 => RaceState(body, r, es, k));
    var steps := seq(11, k requires 0 <= k < 11 => RaceStep(body, r, k));
    forall i | 0 <= i < |steps| ensures Moves(price, states, steps, i) {
      if i < 5 { TheSettlementOpens(price, r, i); }
      else if i < 9 { TheFlushBegins(price, r); TheFlushAcknowledges(price, r); }
      else { TheSettlementEnds(price, r, i); }
      assert RaceMoves(price, r, i);
    }
    var last := states[|steps|].world;
    assert body.key in last.intents && !OnePlace(last, body.key);
    assert IsRun(price, states, steps);
  }
}
