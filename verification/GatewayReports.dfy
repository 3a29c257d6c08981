/** What the gateway's bodies say, over every run: whichever of pending file, quarantine, wire or charge a body is
    found in, some job was begun for exactly the attempt it names. */
module GatewayReports {
  import opened Wrappers
  import opened GatewaySettlement
  import opened GatewayRuns

  /** The step begins a job that reports this. */
  predicate Begins(price: string -> nat, step: Step, b: Body) {
    match step
    case Settle(_, r, _, _) => Describes(b, r, UsageKnown, Some(price(r.idempotencyKey)))
    case CancelOrPending(_, r, dispatched, _, _) => Describes(b, r, if dispatched then OutcomeUnknown else CancelBeforeCall, None)
    case _ => false
  }

  predicate Begun(price: string -> nat, steps: seq<Step>, n: nat, b: Body)
    requires n <= |steps|
  {
    exists i :: 0 <= i < n && Begins(price, steps[i], b)
  }

  predicate ThreadSays(t: Thread, says: Body -> bool) {
    && (forall e <- t.todo :: (e.Enqueue? || e.Post?) ==> says(e.body))
    && forall f <- t.listed :: says(f.body)
  }

  predicate WorldSays(w: World, says: Body -> bool) {
    && (forall k <- w.disk.pending :: says(w.disk.pending[k].body))
    && (forall b <- w.disk.quarantine :: says(b))
    && (forall b <- w.server.charges :: says(b))
    && forall b <- w.sent :: says(b)
  }

  /** Every body there is, and every body some thread still has to write or send. */
  predicate AllSay(s: System, says: Body -> bool) {
    WorldSays(s.world, says) && forall id <- s.threads :: ThreadSays(s.threads[id], says)
  }

  lemma EffectSays(w: World, e: Effect, says: Body -> bool)
    requires WorldSays(w, says) && ((e.Enqueue? || e.Post?) ==> says(e.body))
    ensures WorldSays(Apply(w, e), says)
  {
  }

  lemma FlushSays(file: PendingFile, rest: seq<PendingFile>, now: int, send: Send, says: Body -> bool)
    requires says(file.body) && forall f <- rest :: says(f.body)
    ensures ThreadSays(Begin(file, rest, now, send), says)
  {
  }

  lemma StepSays(price: string -> nat, s: System, step: Step, says: Body -> bool)
    requires AllSay(s, says) && Enabled(s, step) && forall b: Body :: Begins(price, step, b) ==> says(b)
    ensures AllSay(Next(price, s, step), says)
  {
    match step
    case Settle(id, r, now, send) =>
      assert forall e <- SettleEffects(r, price(r.idempotencyKey), now, send) :: (e.Enqueue? || e.Post?) ==> Begins(price, step, e.body);
    case CancelOrPending(id, r, dispatched, now, send) =>
      assert forall e <- CancelEffects(r, dispatched, now, send) :: (e.Enqueue? || e.Post?) ==> Begins(price, step, e.body);
    case NextEntry(id, now, send) =>
      var t := s.threads[id];
      assert ThreadSays(t, says) && t.listed[0] in t.listed && forall f <- t.listed[1..] :: f in t.listed;
      FlushSays(t.listed[0], t.listed[1..], now, send, says);
    case Do(id) =>
      var t := s.threads[id];
      assert ThreadSays(t, says) && t.todo[0] in t.todo && forall e <- t.todo[1..] :: e in t.todo;
      EffectSays(s.world, t.todo[0], says);
    case _ =>
  }

  /** However jobs interleave, and whatever is lost: every body that is pending, set aside, sent or charged names
      the reservation, the call, the key, the kind of event and the amount of one job that was begun. */
  lemma {:induction false} BodiesAreTrue(price: string -> nat, states: seq<System>, steps: seq<Step>, n: nat)
    requires IsRun(price, states, steps) && n < |states|
    ensures AllSay(states[n], b => Begun(price, steps, n, b))
  {
    if n > 0 {
      hide Begins, Next, Enabled;
      BodiesAreTrue(price, states, steps, n - 1);
      assert Moves(price, states, steps, n - 1);
      Widens(states[n - 1], b => Begun(price, steps, n - 1, b), b => Begun(price, steps, n, b));
      StepSays(price, states[n - 1], steps[n - 1], b => Begun(price, steps, n, b));
    }
  }

  lemma Widens(s: System, says: Body -> bool, more: Body -> bool)
    requires AllSay(s, says) && forall b: Body :: says(b) ==> more(b)
    ensures AllSay(s, more)
  {
  }

  /** So when each key belongs to one attempt, a settlement found anywhere names that attempt's own ids. */
  lemma FoundUnderItsOwnIds(price: string -> nat, states: seq<System>, steps: seq<Step>, n: nat, r: Reservation)
    requires IsRun(price, states, steps) && n < |states|
    requires forall i :: 0 <= i < n && steps[i].Settle? && steps[i].r.idempotencyKey == r.idempotencyKey ==>
               steps[i].r.reservationId == r.reservationId && steps[i].r.callId == r.callId
    ensures var (w, k, amount) := (states[n].world, Key(r.idempotencyKey, UsageKnown), Some(price(r.idempotencyKey)));
            && (k in w.disk.pending ==> Describes(w.disk.pending[k].body, r, UsageKnown, amount))
            && (forall b <- w.disk.quarantine + w.server.charges + w.sent :: b.key == k ==> Describes(b, r, UsageKnown, amount))
  {
    NoSettlementIsLost(price, states, steps, n);
    BodiesAreTrue(price, states, steps, n);
    forall b: Body | Begun(price, steps, n, b) && b.key == Key(r.idempotencyKey, UsageKnown)
      ensures Describes(b, r, UsageKnown, Some(price(r.idempotencyKey)))
    {
      var i :| 0 <= i < n && Begins(price, steps[i], b);
    }
  }
}
