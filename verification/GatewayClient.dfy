/** DurableGatewayStore and GatewayFinOpsClient (kazenai/integrations/litellm_control.py) as classes: their
    methods are proved to have exactly the effects GatewaySettlement lists, and a flush to shrink the queue
    by exactly what it applied and set aside. */
module GatewayClient {
  import opened Wrappers
  import opened GatewaySettlement
  import Money

  // ------------------------------------------------------------------ a whole flush

  datatype Tally = Tally(applied: nat, failed: nat, quarantined: nat)

  /** What the clock read and the network did for one entry. */
  datatype Answer = Answer(now: int, send: Send)

  function Count(t: Tally, o: Outcome): Tally {
    match o
    case AppliedOne => t.(applied := t.applied + 1)
    case QuarantinedOne => t.(quarantined := t.quarantined + 1)
    case _ => t.(failed := t.failed + 1)
  }

  /** The entries in listing order, up to the first the service could not be reached for. */
  function FlushAll(w: World, files: seq<PendingFile>, answers: seq<Answer>, t: Tally): (World, Tally)
    requires |files| == |answers|
    decreases |files|
  {
    if files == [] then (w, t)
    else
      var o := FlushOutcome(files[0], answers[0].now, answers[0].send);
      var w' := ApplyAll(w, FlushEffects(files[0], answers[0].now, answers[0].send));
      if o.Unreachable? then (w', Count(t, o)) else FlushAll(w', files[1..], answers[1..], Count(t, o))
  }

  /** A directory listing of some of the pending files: each file once. */
  ghost predicate IsListing(w: World, files: seq<PendingFile>) {
    && (forall i :: 0 <= i < |files| ==> files[i].body.key in w.disk.pending && w.disk.pending[files[i].body.key] == files[i])
    && forall i, j :: 0 <= i < j < |files| ==> files[i].body.key != files[j].body.key
  }

  lemma EntryLeavesQueue(w: World, file: PendingFile, a: Answer)
    ensures var w' := ApplyAll(w, FlushEffects(file, a.now, a.send));
            var o := FlushOutcome(file, a.now, a.send);
            var done := if o.AppliedOne? && file.body.key.kind.UsageKnown?
                        then Matching(w.cache, file.body.reservationId, file.body.callId) else {};
            && w'.disk.pending == (if o.AppliedOne? || o.QuarantinedOne? then w.disk.pending - {file.body.key} else w.disk.pending)
            && w'.disk.open == w.disk.open - done && w'.cache == w.cache - done
  {
    var es := FlushEffects(file, a.now, a.send);
    AppliedOneByOne(w, es);
    hide ApplyAll, Delivered;
  }

  lemma AppliedOneByOne(w: World, es: seq<Effect>)
    ensures |es| == 1 ==> ApplyAll(w, es) == Apply(w, es[0])
    ensures |es| == 2 ==> ApplyAll(w, es) == Apply(Apply(w, es[0]), es[1])
    ensures |es| == 3 ==> ApplyAll(w, es) == Apply(Apply(Apply(w, es[0]), es[1]), es[2])
  {
    hide Apply;
    if 1 <= |es| <= 3 {
      var w1 := Apply(w, es[0]);
      assert ApplyAll(w, es) == ApplyAll(w1, es[1..]);
      if |es| > 1 {
        var w2 := Apply(w1, es[1]);
        assert es[1..][1..] == es[2..];
        assert ApplyAll(w1, es[1..]) == ApplyAll(w2, es[2..]);
        if |es| > 2 {
          assert es[2..][1..] == [];
          assert ApplyAll(w2, es[2..]) == Apply(w2, es[2]);
        }
      }
    }
  }

  ghost predicate ShrinksBy(before: World, after: World, gone: int) {
    && after.disk.pending.Keys <= before.disk.pending.Keys
    && (forall k <- after.disk.pending :: after.disk.pending[k] == before.disk.pending[k])
    && |after.disk.pending| == |before.disk.pending| - gone
  }

  /** A flush shrinks the queue by exactly what it applied and set aside, and leaves the rest untouched. */
  lemma {:induction false} FlushShrinksTheQueue(w: World, files: seq<PendingFile>, answers: seq<Answer>, t: Tally)
    requires |files| == |answers| && IsListing(w, files)
    ensures var (w', t') := FlushAll(w, files, answers, t);
            ShrinksBy(w, w', t'.applied - t.applied + t'.quarantined - t.quarantined)
    decreases |files|
  {
    if files != [] {
      var o := FlushOutcome(files[0], answers[0].now, answers[0].send);
      var w1 := ApplyAll(w, FlushEffects(files[0], answers[0].now, answers[0].send));
      EntryLeavesQueue(w, files[0], answers[0]);
      assert o.AppliedOne? || o.QuarantinedOne? ==> |w1.disk.pending| == |w.disk.pending| - 1 by {
        assert (w.disk.pending - {files[0].body.key}).Keys == w.disk.pending.Keys - {files[0].body.key};
      }
      if !o.Unreachable? {
        assert IsListing(w1, files[1..]);
        FlushShrinksTheQueue(w1, files[1..], answers[1..], Count(t, o));
      }
    }
  }

  /** How many entries a flush comes to: all, or those up to the first the service could not be reached for. */
  function Reached(files: seq<PendingFile>, answers: seq<Answer>): nat
    requires |files| == |answers|
  {
    if files == [] then 0
    else 1 + if FlushOutcome(files[0], answers[0].now, answers[0].send).Unreachable? then 0 else Reached(files[1..], answers[1..])
  }

  /** Every entry a flush comes to is counted once, as applied, set aside or failed. */
  lemma {:induction false} FlushCountsEachOnce(w: World, files: seq<PendingFile>, answers: seq<Answer>, t: Tally)
    requires |files| == |answers|
    ensures var t' := FlushAll(w, files, answers, t).1;
            && t'.applied + t'.quarantined + t'.failed == t.applied + t.quarantined + t.failed + Reached(files, answers)
            && t'.applied >= t.applied && t'.quarantined >= t.quarantined && t'.failed >= t.failed
    decreases |files|
  {
    if files != [] {
      var o := FlushOutcome(files[0], answers[0].now, answers[0].send);
      var w1 := ApplyAll(w, FlushEffects(files[0], answers[0].now, answers[0].send));
      if !o.Unreachable? { FlushCountsEachOnce(w1, files[1..], answers[1..], Count(t, o)); }
    }
  }

  function KeysOf(files: seq<PendingFile>): set<Key> {
    if files == [] then {} else {files[0].body.key} + KeysOf(files[1..])
  }

  /** Every answer is a delivery. */
  predicate AllDelivered(files: seq<PendingFile>, answers: seq<Answer>)
    requires |files| == |answers|
  {
    forall i :: 0 <= i < |files| ==> FlushOutcome(files[i], answers[i].now, answers[i].send).AppliedOne?
  }

  /** When the service answers every entry and accepts it, exactly the listed entries leave the queue; a flush
      of the whole queue empties it. */
  lemma {:induction false} DeliveredFlushTakesAll(w: World, files: seq<PendingFile>, answers: seq<Answer>, t: Tally)
    requires |files| == |answers| && IsListing(w, files) && AllDelivered(files, answers)
    ensures var (w', t') := FlushAll(w, files, answers, t);
            w'.disk.pending == w.disk.pending - KeysOf(files) && t' == t.(applied := t.applied + |files|)
    decreases |files|
  {
    if files == [] {
      assert w.disk.pending - {} == w.disk.pending;
    } else {
      var w1 := ApplyAll(w, FlushEffects(files[0], answers[0].now, answers[0].send));
      EntryLeavesQueue(w, files[0], answers[0]);
      assert IsListing(w1, files[1..]);
      assert AllDelivered(files[1..], answers[1..]);
      DeliveredFlushTakesAll(w1, files[1..], answers[1..], Count(t, AppliedOne));
      assert w.disk.pending - KeysOf(files) == w1.disk.pending - KeysOf(files[1..]);
    }
  }

  /** The i-th entry is come to, delivered, and settles the known amount of this reservation. */
  predicate Finishes(files: seq<PendingFile>, answers: seq<Answer>, i: nat, r: Reservation)
    requires i < |files| == |answers|
  {
    && (forall j :: 0 <= j < i ==> !FlushOutcome(files[j], answers[j].now, answers[j].send).Unreachable?)
    && FlushOutcome(files[i], answers[i].now, answers[i].send).AppliedOne?
    && files[i].body.key.kind.UsageKnown?
    && files[i].body.reservationId == r.reservationId && files[i].body.callId == r.callId
  }

  predicate Finished(files: seq<PendingFile>, answers: seq<Answer>, cache: map<string, Reservation>, a: string)
    requires |files| == |answers|
  {
    a in cache && exists i :: 0 <= i < |files| && Finishes(files, answers, i, cache[a])
  }

  lemma FinishedCons(files: seq<PendingFile>, answers: seq<Answer>, r: Reservation)
    requires |files| == |answers| > 0
    ensures (exists i :: 0 <= i < |files| && Finishes(files, answers, i, r))
            <==> Finishes(files, answers, 0, r)
                 || (!FlushOutcome(files[0], answers[0].now, answers[0].send).Unreachable?
                     && exists i :: 0 <= i < |files[1..]| && Finishes(files[1..], answers[1..], i, r))
  {
    hide FlushOutcome;
    if i :| 1 <= i < |files| && Finishes(files, answers, i, r) {
      assert forall j :: 0 <= j < i - 1 ==> files[1..][j] == files[j + 1] && answers[1..][j] == answers[j + 1];
      assert Finishes(files[1..], answers[1..], i - 1, r);
    }
    if !FlushOutcome(files[0], answers[0].now, answers[0].send).Unreachable? {
      if i :| 0 <= i < |files[1..]| && Finishes(files[1..], answers[1..], i, r) {
        forall j | 0 <= j < i + 1 ensures !FlushOutcome(files[j], answers[j].now, answers[j].send).Unreachable? {
          if j > 0 { assert files[1..][j - 1] == files[j] && answers[1..][j - 1] == answers[j]; }
        }
        assert Finishes(files, answers, i + 1, r);
      }
    }
  }

  /** A flush drops the open file, and the cache entry, of exactly those cached attempts whose settlement it
      came to and delivered. */
  lemma {:induction false} FlushDropsTheFinished(w: World, files: seq<PendingFile>, answers: seq<Answer>, t: Tally)
    requires |files| == |answers|
    ensures var w' := FlushAll(w, files, answers, t).0;
            var done := set a | a in w.cache && Finished(files, answers, w.cache, a) :: a;
            w'.disk.open == w.disk.open - done && w'.cache == w.cache - done
    decreases |files|
  {
    hide FlushEffects, ApplyAll, Finishes;
    var done := set a | a in w.cache && Finished(files, answers, w.cache, a) :: a;
    if files != [] {
      var o := FlushOutcome(files[0], answers[0].now, answers[0].send);
      var w1 := ApplyAll(w, FlushEffects(files[0], answers[0].now, answers[0].send));
      EntryLeavesQueue(w, files[0], answers[0]);
      var first := set a | a in w.cache && Finishes(files, answers, 0, w.cache[a]) :: a;
      assert w1.disk.open == w.disk.open - first && w1.cache == w.cache - first by { FirstFinishes(w, files, answers); }
      forall a | a in w.cache
        ensures a in done <==> a in first || (!o.Unreachable? && exists i :: 0 <= i < |files[1..]| && Finishes(files[1..], answers[1..], i, w.cache[a]))
      {
        FinishedCons(files, answers, w.cache[a]);
      }
      if o.Unreachable? {
        assert done == first;
      } else {
        FlushDropsTheFinished(w1, files[1..], answers[1..], Count(t, o));
        var later := set a | a in w1.cache && Finished(files[1..], answers[1..], w1.cache, a) :: a;
        forall a ensures a in done <==> a in first + later {
          if a in w.cache && a !in first { assert a in w1.cache && w1.cache[a] == w.cache[a]; }
        }
        assert w.disk.open - done == w1.disk.open - later && w.cache - done == w1.cache - later;
      }
    }
  }

  lemma FirstFinishes(w: World, files: seq<PendingFile>, answers: seq<Answer>)
    requires |files| == |answers| > 0
    ensures (set a | a in w.cache && Finishes(files, answers, 0, w.cache[a]) :: a)
            == if FlushOutcome(files[0], answers[0].now, answers[0].send).AppliedOne? && files[0].body.key.kind.UsageKnown?
               then Matching(w.cache, files[0].body.reservationId, files[0].body.callId) else {}
  {
  }

  /** A flush leaves every open file exactly when none belongs to a cached attempt it finished: so after a
      restart, which empties the cache, the files of settled attempts stay. */
  lemma OpenFilesSurviveARestart(w: World, files: seq<PendingFile>, answers: seq<Answer>, t: Tally)
    requires |files| == |answers|
    ensures FlushAll(w, files, answers, t).0.disk.open == w.disk.open
            <==> forall a <- w.disk.open :: !Finished(files, answers, w.cache, a)
    ensures w.cache == map[] ==> FlushAll(w, files, answers, t).0.disk.open == w.disk.open
    ensures Restart(w).cache == map[] && Restart(w).disk == w.disk && Restart(w).server == w.server
    ensures FlushAll(Restart(w), files, answers, t).0.disk.open == w.disk.open
  {
    FlushDropsTheFinished(w, files, answers, t);
    FlushDropsTheFinished(Restart(w), files, answers, t);
    var done := set a | a in w.cache && Finished(files, answers, w.cache, a) :: a;
    assert forall a <- w.disk.open :: a in done <==> Finished(files, answers, w.cache, a);
    if a :| a in w.disk.open && a in done { assert a !in w.disk.open - done; }
  }

  // ------------------------------------------------------------------ the classes

  class DurableStore {
    var open: map<string, Reservation>
    var pending: map<Key, PendingFile>
    var quarantine: seq<Body>

    constructor ()
      ensures open == map[] && pending == map[] && quarantine == []
    {
      open, pending, quarantine := map[], map[], [];
    }

    function Contents(): Disk
      reads this
    {
      Disk(open, pending, quarantine)
    }

    method PutOpen(r: Reservation)
      modifies this`open
      ensures open == old(open)[r.attemptId := r]
    {
      open := open[r.attemptId := r];
    }

    method DropOpen(attemptId: string)
      modifies this`open
      ensures open == old(open) - {attemptId}
    {
      open := open - {attemptId};
    }

    method EnqueuePending(body: Body, now: int)
      modifies this`pending
      ensures pending == old(pending)[body.key := PendingFile(body, now)]
    {
      pending := pending[body.key := PendingFile(body, now)];
    }

    method AckBody(key: Key)
      modifies this`pending
      ensures pending == old(pending) - {key}
    {
      pending := pending - {key};
    }

    method QuarantinePending(key: Key)
      modifies this`pending, this`quarantine
      ensures pending == old(pending) - {key}
      ensures quarantine == if key in old(pending) then old(quarantine) + [old(pending)[key].body] else old(quarantine)
    {
      if key in pending {
        quarantine := quarantine + [pending[key].body];
        pending := pending - {key};
      } else {
        assert pending == pending - {key};
      }
    }
  }

  /** What the caller of a settlement is told. */
  datatype Verdict = Acked | StillPending

  class Client {
    const store: DurableStore
    var cache: map<string, Reservation>
    ghost var server: Server
    ghost var intents: set<Key>
    ghost var acked: set<Key>
    ghost var sent: seq<Body>

    constructor (store: DurableStore)
      ensures this.store == store && cache == map[] && server == Server({}, []) && intents == {} && acked == {} && sent == []
    {
      this.store, cache, server, intents, acked, sent := store, map[], Server({}, []), {}, {}, [];
    }

    ghost function Now(): World
      reads this, store
    {
      World(store.Contents(), cache, server, intents, acked, sent)
    }

    /** Changes the shared reservation object, which the cache may hold. */
    method Track(r: Reservation)
      modifies this`cache
      ensures Now() == Apply(old(Now()), Effect.Track(r))
    {
      if r.attemptId in cache { cache := cache[r.attemptId := r]; }
    }

    method Persist(r: Reservation, body: Body, now: int)
      modifies this`intents, store`open, store`pending
      ensures Now() == Apply(Apply(old(Now()), PutOpen(r)), Enqueue(body, now))
    {
      store.PutOpen(r);
      store.EnqueuePending(body, now);
      if body.key.kind.UsageKnown? { intents := intents + {body.key}; }
    }

    /** The request and what comes back of it. */
    method Post(body: Body, send: Send) returns (reply: Option<Reply>)
      modifies this`server, this`sent
      ensures reply == send.reply
      ensures Now() == Apply(old(Now()), Effect.Post(body, send))
    {
      server, sent := Serve(server, body, send), sent + [body];
      reply := send.reply;
    }

    method AckBody(key: Key)
      modifies this`acked, store`pending
      ensures Now() == Apply(old(Now()), Ack(key))
    {
      store.AckBody(key);
      acked := acked + {key};
    }

    /** Both settlements open alike: note the status, write reservation and body down, send the body. */
    method Announce(p: Reservation, body: Body, now: int, send: Send) returns (reply: Option<Reply>)
      modifies this, store
      ensures reply == send.reply
      ensures Now() == ApplyAll(old(Now()), [Effect.Track(p), PutOpen(p), Enqueue(body, now), Effect.Post(body, send)])
    {
      hide Apply;
      ghost var w0 := Now();
      Track(p);
      Persist(p, body, now);
      reply := Post(body, send);
      Unroll4(w0, [Effect.Track(p), PutOpen(p), Enqueue(body, now), Effect.Post(body, send)]);
    }

    method SettleKnown(r: Reservation, micros: nat, now: int, send: Send) returns (v: Verdict)
      modifies this, store
      ensures Now() == ApplyAll(old(Now()), SettleEffects(r, micros, now, send))
      ensures v == if Acknowledged(UsageKnown, send) then Acked else StillPending
      ensures Reported(old(Now()), Now(), r, UsageKnown, Some(micros), now, v.Acked?)
      ensures if v.Acked? then Closed(Now(), r) else StillOpen(old(Now()), Now(), r, Pending, Some(micros))
    {
      SettlementLeaves(Now(), r, micros, now, send);
      hide Reported, StillOpen, Closed;
      ghost var es := SettleEffects(r, micros, now, send);
      ghost var w0 := Now();
      var body := UsageBody(r, micros);
      var p := r.(status := Pending, settledMicros := Some(micros));
      var reply := Announce(p, body, now, send);
      hide Apply;
      AppliedInParts(w0, es, 4);
      assert es[..4] == [Effect.Track(p), PutOpen(p), Enqueue(body, now), Effect.Post(body, send)];
      ghost var w4 := Now();
      if reply.None? || !Delivered(UsageKnown, reply.value) {
        Persist(p, body, now);
        v := StillPending;
        Unroll2(w4, es[4..]);
        return;
      }
      Track(p.(status := Settled));
      Close(r.attemptId, body.key);
      v := Acked;
      Unroll4(w4, es[4..]);
      assert es[4..][4..] == [];
    }

    /** Drops the open file, acknowledges the body, forgets the attempt. */
    method Close(attemptId: string, key: Key)
      modifies this, store
      ensures Now() == Apply(Apply(Apply(old(Now()), DropOpen(attemptId)), Ack(key)), Forget(attemptId))
    {
      store.DropOpen(attemptId);
      AckBody(key);
      cache := cache - {attemptId};
    }

    /** An unknown price is never invented: it becomes a pending unknown outcome. */
    method SettleSuccess(r: Reservation, actualUsd: Option<real>, now: int, send: Send) returns (v: Verdict)
      modifies this, store
      ensures Now() == ApplyAll(old(Now()),
                if actualUsd.Some? then SettleEffects(r, Money.UsdToMicrosCeil(actualUsd.value), now, send)
                else CancelEffects(r, true, now, send))
      ensures v.Acked? <==> Acknowledged(if actualUsd.Some? then UsageKnown else OutcomeUnknown, send)
      ensures actualUsd.None? ==> Reported(old(Now()), Now(), r, OutcomeUnknown, None, now, v.Acked?)
      ensures actualUsd.None? ==> StillOpen(old(Now()), Now(), r, Pending, r.settledMicros)
      ensures actualUsd.Some? ==> Reported(old(Now()), Now(), r, UsageKnown, Some(Money.UsdToMicrosCeil(actualUsd.value)), now, v.Acked?)
      ensures actualUsd.Some? && v.StillPending? ==> StillOpen(old(Now()), Now(), r, Pending, Some(Money.UsdToMicrosCeil(actualUsd.value)))
      ensures actualUsd.Some? && v.Acked? ==> Closed(Now(), r)
    {
      hide Reported, StillOpen, Closed, ApplyAll;
      if actualUsd.None? {
        v := SettleCancelOrPending(r, true, now, send);
      } else {
        var micros := Money.UsdToMicrosCeil(actualUsd.value);
        v := SettleKnown(r, micros, now, send);
      }
    }

    method SettleCancelOrPending(r: Reservation, dispatched: bool, now: int, send: Send) returns (v: Verdict)
      modifies this, store
      ensures Now() == ApplyAll(old(Now()), CancelEffects(r, dispatched, now, send))
      ensures v == if Acknowledged(if dispatched then OutcomeUnknown else CancelBeforeCall, send) then Acked else StillPending
      ensures Reported(old(Now()), Now(), r, if dispatched then OutcomeUnknown else CancelBeforeCall, None, now, v.Acked?)
      ensures if v.Acked? && !dispatched then Closed(Now(), r)
              else StillOpen(old(Now()), Now(), r, if dispatched then Pending else Cancelled, r.settledMicros)
    {
      UnknownPriceInventsNothing(Now(), r, dispatched, now, send);
      hide Reported, StillOpen, Closed;
      ghost var es := CancelEffects(r, dispatched, now, send);
      ghost var w0 := Now();
      var body := UnknownBody(r, dispatched);
      var p := r.(status := if dispatched then Pending else Cancelled);
      var reply := Announce(p, body, now, send);
      hide Apply;
      AppliedInParts(w0, es, 4);
      assert es[..4] == [Effect.Track(p), PutOpen(p), Enqueue(body, now), Effect.Post(body, send)];
      ghost var w4 := Now();
      if reply.None? || !Delivered(body.key.kind, reply.value) {
        Persist(p, body, now);
        v := StillPending;
        Unroll2(w4, es[4..]);
        return;
      }
      AckBody(body.key);
      v := Acked;
      assert ApplyAll(w4, es[4..]) == ApplyAll(Apply(w4, es[4]), es[4..][1..]);
      if !dispatched {
        Leave(r.attemptId);
        Unroll2(Apply(w4, es[4]), es[4..][1..]);
      }
    }

    /** A call that never began leaves nothing open. */
    method Leave(attemptId: string)
      modifies this`cache, store`open
      ensures Now() == Apply(Apply(old(Now()), DropOpen(attemptId)), Forget(attemptId))
    {
      store.DropOpen(attemptId);
      cache := cache - {attemptId};
    }

    /** Marks every cached reservation of the call settled: drops their files and forgets them. */
    method FinalizeMatching(reservationId: string, callId: string)
      modifies this`cache, store`open
      ensures Now() == Apply(old(Now()), Finalize(reservationId, callId))
    {
      var items := Matching(cache, reservationId, callId);
      var todo := items;
      while todo != {}
        invariant todo <= items && items == Matching(old(cache), reservationId, callId)
        invariant cache == old(cache) - (items - todo) && store.open == old(store.open) - (items - todo)
        invariant store.pending == old(store.pending) && store.quarantine == old(store.quarantine)
        decreases |todo|
      {
        var a :| a in todo;
        store.DropOpen(a);
        cache := cache - {a};
        todo := todo - {a};
      }
      assert items - todo == items;
    }

    /** One entry of a flush. */
    method FlushOne(file: PendingFile, a: Answer) returns (o: Outcome)
      modifies this, store
      ensures o == FlushOutcome(file, a.now, a.send)
      ensures Now() == ApplyAll(old(Now()), FlushEffects(file, a.now, a.send))
    {
      ghost var es := FlushEffects(file, a.now, a.send);
      ghost var w0 := Now();
      if a.now - file.enqueuedAt > MAX_AGE_S {
        store.QuarantinePending(file.body.key);
        assert Now() == Apply(w0, es[0]) && es[1..] == [];
        return QuarantinedOne;
      }
      var reply := Post(file.body, a.send);
      ghost var w1 := Now();
      assert ApplyAll(w0, es) == ApplyAll(w1, es[1..]);
      if reply.None? {
        return Unreachable;
      }
      if reply.value.status in PERMANENT_REFUSALS {
        store.QuarantinePending(file.body.key);
        assert es[1..][1..] == [];
        assert Now() == Apply(w1, es[1]);
        return QuarantinedOne;
      }
      if Delivered(file.body.key.kind, reply.value) {
        AckBody(file.body.key);
        if file.body.key.kind.UsageKnown? {
          ghost var w2 := Now();
          FinalizeMatching(file.body.reservationId, file.body.callId);
          hide Apply;
          assert w2 == Apply(w1, es[1..][0]) && Now() == Apply(w2, es[1..][1]);
          Unroll2(w1, es[1..]);
        } else {
          assert es[1..][1..] == [];
        }
        return AppliedOne;
      }
      return FailedOne;
    }

    /** Resends the listed files in order; answers holds what happened to each. */
    method FlushPending(files: seq<PendingFile>, answers: seq<Answer>) returns (t: Tally)
      requires |files| == |answers|
      modifies this, store
      ensures (Now(), t) == FlushAll(old(Now()), files, answers, Tally(0, 0, 0))
      ensures IsListing(old(Now()), files) ==> |store.pending| == |old(store.pending)| - t.applied - t.quarantined
    {
      t := Tally(0, 0, 0);
      ghost var w0 := Now();
      var i := 0;
      var reachable := true;
      while i < |files| && reachable
        invariant 0 <= i <= |files|
        invariant reachable ==> FlushAll(Now(), files[i..], answers[i..], t) == FlushAll(w0, files, answers, Tally(0, 0, 0))
        invariant !reachable ==> (Now(), t) == FlushAll(w0, files, answers, Tally(0, 0, 0))
      {
        assert files[i..][1..] == files[i + 1..] && answers[i..][1..] == answers[i + 1..];
        var o := FlushOne(files[i], answers[i]);
        t := Count(t, o);
        reachable := !o.Unreachable?;
        i := i + 1;
      }
      if IsListing(w0, files) { FlushShrinksTheQueue(w0, files, answers, Tally(0, 0, 0)); }
    }
  }

  lemma {:induction false} AppliedInParts(w: World, es: seq<Effect>, k: nat)
    requires k <= |es|
    ensures ApplyAll(w, es) == ApplyAll(ApplyAll(w, es[..k]), es[k..])
    decreases k
  {
    hide Apply;
    if k == 0 {
      assert es[..0] == [] && es[0..] == es;
    } else {
      AppliedInParts(Apply(w, es[0]), es[1..], k - 1);
      assert es[..k][1..] == es[1..][..k - 1] && es[1..][k - 1..] == es[k..];
    }
  }

  /** What a settlement leaves behind: one report of the known amount under the attempt's own ids, pending or
      acknowledged; the attempt stays open, with the amount, until it is acknowledged. */
  lemma SettlementLeaves(w: World, r: Reservation, micros: nat, now: int, send: Send)
    ensures var w' := ApplyAll(w, SettleEffects(r, micros, now, send));
            && Key(r.idempotencyKey, UsageKnown) in w'.intents
            && Reported(w, w', r, UsageKnown, Some(micros), now, Acknowledged(UsageKnown, send))
            && if Acknowledged(UsageKnown, send) then Closed(w', r) else StillOpen(w, w', r, Pending, Some(micros))
  {
    hide Apply;
    var es := SettleEffects(r, micros, now, send);
    var body, p := UsageBody(r, micros), r.(status := Pending, settledMicros := Some(micros));
    AnnouncedWorld(w, r, p, body, now, send);
    var w4 := Apply(Apply(Apply(Apply(w, es[0]), es[1]), es[2]), es[3]);
    assert body.key in w4.intents;
    hide Reported, StillOpen, Closed, Announced, ApplyAll;
    Unroll4(w, es);
    if Acknowledged(UsageKnown, send) {
      Unroll4(w4, es[4..]);
      Unroll0(Apply(Apply(Apply(Apply(w4, es[4]), es[5]), es[6]), es[7]), es[4..][4..]);
      SettledWorld(w, w4, r, p, body, now);
    } else {
      Unroll2(w4, es[4..]);
      KeptWorld(w, w4, r, p, body, now);
    }
  }

  /** A settlement that stayed pending, its attempt still cached, and a later flush that comes to its file and
      delivers it: the flush closes every cached attempt with its two ids, this one among them, and no other
      unless it delivered another known settlement. */
  lemma FlushFinishesTheSettlement(
    w: World, r: Reservation, micros: nat, now: int, send: Send, w2: World, files: seq<PendingFile>, answers: seq<Answer>, t: Tally, i: nat)
    requires var k := Key(r.idempotencyKey, UsageKnown);
             var w1 := ApplyAll(w, SettleEffects(r, micros, now, send));
             && !Acknowledged(UsageKnown, send)
             && k in w1.disk.pending && k in w2.disk.pending && w2.disk.pending[k] == w1.disk.pending[k]
             && i < |files| == |answers| && files[i] == w2.disk.pending[k]
    requires r.attemptId in w2.cache && w2.cache[r.attemptId].reservationId == r.reservationId && w2.cache[r.attemptId].callId == r.callId
    requires forall j :: 0 <= j < i ==> !FlushOutcome(files[j], answers[j].now, answers[j].send).Unreachable?
    requires FlushOutcome(files[i], answers[i].now, answers[i].send).AppliedOne?
    ensures var w3 := FlushAll(w2, files, answers, t).0;
            var own := set a | a in w2.cache && w2.cache[a].reservationId == r.reservationId && w2.cache[a].callId == r.callId;
            && r.attemptId in own && (forall a <- own :: a !in w3.cache && a !in w3.disk.open)
            && ((forall j :: 0 <= j < |files| && j != i && files[j].body.key.kind.UsageKnown? ==>
                   !FlushOutcome(files[j], answers[j].now, answers[j].send).AppliedOne?) ==>
                  w3.disk.open == w2.disk.open - own && w3.cache == w2.cache - own)
  {
    SettlementLeaves(w, r, micros, now, send);
    FlushDropsTheFinished(w2, files, answers, t);
    hide ApplyAll, SettleEffects, FlushAll, FlushOutcome;
    var own := set a | a in w2.cache && w2.cache[a].reservationId == r.reservationId && w2.cache[a].callId == r.callId;
    assert Describes(files[i].body, r, UsageKnown, Some(micros));
    forall a | a in own ensures Finished(files, answers, w2.cache, a) {
      assert Finishes(files, answers, i, w2.cache[a]);
    }
    if forall j :: 0 <= j < |files| && j != i && files[j].body.key.kind.UsageKnown? ==>
         !FlushOutcome(files[j], answers[j].now, answers[j].send).AppliedOne? {
      forall a | a in w2.cache && Finished(files, answers, w2.cache, a) ensures a in own {
        var j :| 0 <= j < |files| && Finishes(files, answers, j, w2.cache[a]);
        assert j == i;
      }
      assert (set a | a in w2.cache && Finished(files, answers, w2.cache, a) :: a) == own;
    }
  }

  /** The world once the attempt, now p, and its body were written down and the body was sent. */
  ghost predicate Announced(w: World, w4: World, r: Reservation, p: Reservation, body: Body, now: int) {
    && Describes(body, r, body.key.kind, body.amount) && p == r.(status := p.status, settledMicros := p.settledMicros)
    && w4.disk.open == w.disk.open[r.attemptId := p] && w4.disk.pending == w.disk.pending[body.key := PendingFile(body, now)]
    && w4.disk.quarantine == w.disk.quarantine
    && w4.cache == (if r.attemptId in w.cache then w.cache[r.attemptId := p] else w.cache)
    && w4.intents == (if body.key.kind.UsageKnown? then w.intents + {body.key} else w.intents)
    && w4.acked == w.acked && w4.sent == w.sent + [body]
    && (w4.server.charges == w.server.charges || (body.key.kind.UsageKnown? && w4.server.charges == w.server.charges + [body]))
  }

  lemma AnnouncedWorld(w: World, r: Reservation, p: Reservation, body: Body, now: int, send: Send)
    requires Describes(body, r, body.key.kind, body.amount) && p == r.(status := p.status, settledMicros := p.settledMicros)
    ensures Announced(w, Apply(Apply(Apply(Apply(w, Effect.Track(p)), PutOpen(p)), Enqueue(body, now)), Effect.Post(body, send)), r, p, body, now)
  {
  }

  /** Not acknowledged: both files are written again. */
  lemma KeptWorld(w: World, w4: World, r: Reservation, p: Reservation, body: Body, now: int)
    requires Announced(w, w4, r, p, body, now)
    ensures var w' := Apply(Apply(w4, PutOpen(p)), Enqueue(body, now));
            && w'.intents == w4.intents && w'.server == w4.server
            && Reported(w, w', r, body.key.kind, body.amount, now, false) && StillOpen(w, w', r, p.status, p.settledMicros)
  {
    assert body.key == Key(r.idempotencyKey, body.key.kind);
  }

  lemma AckedWorld(w: World, w4: World, r: Reservation, p: Reservation, body: Body, now: int)
    requires Announced(w, w4, r, p, body, now)
    ensures var w' := Apply(w4, Ack(body.key));
            && w'.intents == w4.intents && w'.server == w4.server
            && Reported(w, w', r, body.key.kind, body.amount, now, true) && StillOpen(w, w', r, p.status, p.settledMicros)
  {
    assert body.key == Key(r.idempotencyKey, body.key.kind);
  }

  lemma ClosingKeepsReport(w: World, w1: World, r: Reservation, kind: EventKind, amount: Option<nat>, now: int)
    requires Reported(w, w1, r, kind, amount, now, true)
    ensures var w' := Apply(Apply(w1, DropOpen(r.attemptId)), Forget(r.attemptId));
            && w'.intents == w1.intents && w'.server == w1.server
            && Reported(w, w', r, kind, amount, now, true) && Closed(w', r)
  {
    var a, w' := r.attemptId, Apply(Apply(w1, DropOpen(r.attemptId)), Forget(r.attemptId));
    assert w'.sent == w1.sent && w'.server == w1.server && w'.acked == w1.acked;
    assert w'.disk.pending == w1.disk.pending && w'.disk.quarantine == w1.disk.quarantine;
    assert w'.disk.open == w1.disk.open - {a} && w'.cache == w1.cache - {a};
    hide Apply, Describes, ChargesOnly;
    WithoutTwice(w.disk.open, w1.disk.open, a);
    WithoutTwice(w.cache, w1.cache, a);
  }

  lemma WithoutTwice(m: map<string, Reservation>, n: map<string, Reservation>, a: string)
    requires n - {a} == m - {a}
    ensures (n - {a}) - {a} == m - {a} && a !in n - {a}
  {
  }

  lemma SettledWorld(w: World, w4: World, r: Reservation, p: Reservation, body: Body, now: int)
    requires Announced(w, w4, r, p, body, now)
    ensures var w' := Apply(Apply(Apply(Apply(w4, Effect.Track(p.(status := Settled))), DropOpen(r.attemptId)), Ack(body.key)), Forget(r.attemptId));
            && w'.intents == w4.intents && w'.server == w4.server
            && Reported(w, w', r, body.key.kind, body.amount, now, true) && Closed(w', r)
  {
    AckedWorld(w, w4, r, p, body, now);
    var w5 := Apply(w4, Ack(body.key));
    ClosingKeepsReport(w, w5, r, body.key.kind, body.amount, now);
    var w' := Apply(Apply(Apply(Apply(w4, Effect.Track(p.(status := Settled))), DropOpen(r.attemptId)), Ack(body.key)), Forget(r.attemptId));
    assert w' == Apply(Apply(w5, DropOpen(r.attemptId)), Forget(r.attemptId));
  }

  /** An unknown price never becomes a settlement of a known amount, and the service charges nothing for it: the
      report names no amount, and only a call that never began is closed by it. */
  lemma UnknownPriceInventsNothing(w: World, r: Reservation, dispatched: bool, now: int, send: Send)
    ensures var w' := ApplyAll(w, CancelEffects(r, dispatched, now, send));
            var kind := if dispatched then OutcomeUnknown else CancelBeforeCall;
            && w'.intents == w.intents && w'.server.charges == w.server.charges
            && Reported(w, w', r, kind, None, now, Acknowledged(kind, send))
            && if Acknowledged(kind, send) && !dispatched then Closed(w', r)
               else StillOpen(w, w', r, if dispatched then Pending else Cancelled, r.settledMicros)
  {
    hide Apply;
    var es := CancelEffects(r, dispatched, now, send);
    var body, p := UnknownBody(r, dispatched), r.(status := if dispatched then Pending else Cancelled);
    AnnouncedWorld(w, r, p, body, now, send);
    Unroll4(w, es);
    var w4 := Apply(Apply(Apply(Apply(w, es[0]), es[1]), es[2]), es[3]);
    assert w4.intents == w.intents && w4.server.charges == w.server.charges;
    hide Reported, StillOpen, Closed, Announced, ApplyAll;
    var rest := es[4..];
    if !Acknowledged(body.key.kind, send) {
      Unroll2(w4, rest);
      KeptWorld(w, w4, r, p, body, now);
    } else {
      AckedWorld(w, w4, r, p, body, now);
      Unroll1(w4, rest);
      if dispatched {
        Unroll0(Apply(w4, rest[0]), rest[1..]);
      } else {
        Unroll2(Apply(w4, rest[0]), rest[1..]);
        ClosingKeepsReport(w, Apply(w4, rest[0]), r, body.key.kind, body.amount, now);
      }
    }
  }

  lemma Unroll0(w: World, es: seq<Effect>)
    requires es == []
    ensures ApplyAll(w, es) == w
  {
  }

  lemma Unroll1(w: World, es: seq<Effect>)
    requires es != []
    ensures ApplyAll(w, es) == ApplyAll(Apply(w, es[0]), es[1..])
  {
  }

  lemma Unroll2(w: World, es: seq<Effect>)
    requires |es| == 2
    ensures ApplyAll(w, es) == Apply(Apply(w, es[0]), es[1])
  {
    assert es[1..][1..] == [];
    assert ApplyAll(w, es) == ApplyAll(Apply(w, es[0]), es[1..]);
  }

  lemma Unroll4(w: World, es: seq<Effect>)
    requires |es| >= 4
    ensures ApplyAll(w, es) == ApplyAll(Apply(Apply(Apply(Apply(w, es[0]), es[1]), es[2]), es[3]), es[4..])
  {
    assert es[1..][1..] == es[2..] && es[2..][1..] == es[3..] && es[3..][1..] == es[4..];
    var w1 := Apply(w, es[0]);
    var w2 := Apply(w1, es[1]);
    var w3 := Apply(w2, es[2]);
    assert ApplyAll(w, es) == ApplyAll(w1, es[1..]);
    assert ApplyAll(w1, es[1..]) == ApplyAll(w2, es[2..]);
    assert ApplyAll(w2, es[2..]) == ApplyAll(w3, es[3..]);
    assert ApplyAll(w3, es[3..]) == ApplyAll(Apply(w3, es[3]), es[4..]);
  }
}
