/** Settlement by the gateway: kazenai/integrations/litellm_control.py.

    A settlement is written to a pending file before it is sent, and only an acknowledgement removes
    it. A job (one settlement call, or one entry of a flush) is a list of effects, and a crash keeps a
    prefix of them: the files survive, the in-memory cache does not. The network may lose requests and
    replies. Idempotency keys are opaque: one per attempt and event, with file names injective in them. */
module GatewaySettlement {
  import opened Wrappers

  datatype EventKind = UsageKnown | OutcomeUnknown | CancelBeforeCall

  datatype Key = Key(idempotencyKey: string, kind: EventKind)

  datatype Body = Body(key: Key, reservationId: string, callId: string, amount: Option<nat>)

  datatype Status = Reserved | Started | Settled | Pending | Cancelled

  datatype Reservation = Reservation(
    attemptId: string, callId: string, idempotencyKey: string, reservationId: string,
    status: Status, settledMicros: Option<nat>)

  datatype PendingFile = PendingFile(body: Body, enqueuedAt: int)

  datatype Disk = Disk(open: map<string, Reservation>, pending: map<Key, PendingFile>, quarantine: seq<Body>)

  /** The service applies a key at most once; charges lists what it charged, oldest first. */
  datatype Server = Server(seen: set<Key>, charges: seq<Body>)

  datatype Code = AppliedCode | DuplicateCode | PendingCode | OtherCode

  datatype Reply = Reply(status: int, code: Code)

  /** One request: whether it arrives, whether the service is willing to apply it, and the reply that
      gets back, if any. */
  datatype Send = Send(arrives: bool, applies: bool, reply: Option<Reply>)

  /** intents holds the keys of known settlements whose file was written, acked the keys the client saw
      acknowledged, sent every body the client posted, oldest first. */
  datatype World = World(
    disk: Disk, cache: map<string, Reservation>, server: Server, intents: set<Key>, acked: set<Key>, sent: seq<Body>)

  const MAX_AGE_S := 7 * 24 * 3600

  const PERMANENT_REFUSALS := {400, 404, 409, 410, 422}

  // ------------------------------------------------------------------ replies

  /** Only applied or duplicate acknowledge; pending does for an unknown outcome, which is what was sent. */
  predicate Delivered(kind: EventKind, r: Reply) {
    r.status < 400 && (r.code.AppliedCode? || r.code.DuplicateCode? || (kind.OutcomeUnknown? && r.code.PendingCode?))
  }

  predicate Acknowledged(kind: EventKind, s: Send) { s.reply.Some? && Delivered(kind, s.reply.value) }

  function Serve(server: Server, body: Body, s: Send): Server {
    if !s.arrives || !s.applies || body.key in server.seen then server
    else Server(server.seen + {body.key}, if body.key.kind.UsageKnown? then server.charges + [body] else server.charges)
  }

  /** A service that says applied or duplicate has applied the key. */
  predicate Honest(server: Server, body: Body, s: Send) {
    s.reply.Some? && s.reply.value.status < 400 && (s.reply.value.code.AppliedCode? || s.reply.value.code.DuplicateCode?) ==>
      s.arrives && (s.applies || body.key in server.seen)
  }

  // ------------------------------------------------------------------ effects

  datatype Effect =
    | Track(r: Reservation)              // the reservation object, shared with the cache, changes
    | PutOpen(r: Reservation)
    | Enqueue(body: Body, now: int)
    | Post(body: Body, send: Send)
    | DropOpen(attemptId: string)
    | Ack(key: Key)
    | Quarantine(key: Key)
    | Forget(attemptId: string)
    | Finalize(reservationId: string, callId: string)

  function Matching(cache: map<string, Reservation>, reservationId: string, callId: string): set<string> {
    set a | a in cache && cache[a].reservationId == reservationId && cache[a].callId == callId
  }

  function Apply(w: World, e: Effect): World {
    match e
    case Track(r) => if r.attemptId in w.cache then w.(cache := w.cache[r.attemptId := r]) else w
    case PutOpen(r) => w.(disk := w.disk.(open := w.disk.open[r.attemptId := r]))
    case Enqueue(body, now) =>
      w.(disk := w.disk.(pending := w.disk.pending[body.key := PendingFile(body, now)]),
         intents := if body.key.kind.UsageKnown? then w.intents + {body.key} else w.intents)
    case Post(body, send) => w.(server := Serve(w.server, body, send), sent := w.sent + [body])
    case DropOpen(a) => w.(disk := w.disk.(open := w.disk.open - {a}))
    case Ack(key) => w.(disk := w.disk.(pending := w.disk.pending - {key}), acked := w.acked + {key})
    case Quarantine(key) =>
      if key in w.disk.pending then
        w.(disk := w.disk.(pending := w.disk.pending - {key}, quarantine := w.disk.quarantine + [w.disk.pending[key].body]))
      else w
    case Forget(a) => w.(cache := w.cache - {a})
    case Finalize(reservationId, callId) =>
      var done := Matching(w.cache, reservationId, callId);
      w.(disk := w.disk.(open := w.disk.open - done), cache := w.cache - done)
  }

  function ApplyAll(w: World, es: seq<Effect>): World
    decreases |es|
  {
    if es == [] then w else ApplyAll(Apply(w, es[0]), es[1..])
  }

  datatype Job =
    | SettleJob(r: Reservation, micros: nat, now: int, send: Send)
    | CancelJob(r: Reservation, dispatched: bool, now: int, send: Send)
    | FlushJob(key: Key, now: int, send: Send)

  function UsageBody(r: Reservation, micros: nat): Body {
    Body(Key(r.idempotencyKey, UsageKnown), r.reservationId, r.callId, Some(micros))
  }

  function UnknownBody(r: Reservation, dispatched: bool): Body {
    Body(Key(r.idempotencyKey, if dispatched then OutcomeUnknown else CancelBeforeCall), r.reservationId, r.callId, None)
  }

  function SettleEffects(r: Reservation, micros: nat, now: int, send: Send): seq<Effect> {
    var body := UsageBody(r, micros);
    var p := r.(status := Pending, settledMicros := Some(micros));
    [Track(p), PutOpen(p), Enqueue(body, now), Post(body, send)]
    + if Acknowledged(UsageKnown, send)
      then [Track(p.(status := Settled)), DropOpen(r.attemptId), Ack(body.key), Forget(r.attemptId)]
      else [PutOpen(p), Enqueue(body, now)]
  }

  function CancelEffects(r: Reservation, dispatched: bool, now: int, send: Send): seq<Effect> {
    var body := UnknownBody(r, dispatched);
    var p := r.(status := if dispatched then Pending else Cancelled);
    [Track(p), PutOpen(p), Enqueue(body, now), Post(body, send)]
    + if !Acknowledged(body.key.kind, send) then [PutOpen(p), Enqueue(body, now)]
      else [Ack(body.key)] + if dispatched then [] else [DropOpen(r.attemptId), Forget(r.attemptId)]
  }

  datatype Outcome = AppliedOne | FailedOne | QuarantinedOne | Unreachable

  /** What one entry of a flush comes to. */
  function FlushOutcome(file: PendingFile, now: int, send: Send): Outcome {
    if now - file.enqueuedAt > MAX_AGE_S then QuarantinedOne
    else if send.reply.None? then Unreachable
    else if send.reply.value.status in PERMANENT_REFUSALS then QuarantinedOne
    else if Delivered(file.body.key.kind, send.reply.value) then AppliedOne
    else FailedOne
  }

  /** What becomes of an entry, in plain terms: set aside after a week, or when refused with one of five statuses;
      delivered when the service says that it applied it or had, or takes an unknown outcome as pending; left otherwise,
      and the flush ends if there was no answer. */
  lemma EntryFate(file: PendingFile, now: int, send: Send)
    ensures var o := FlushOutcome(file, now, send);
            var aged := now > file.enqueuedAt + 604800;
            && (o.QuarantinedOne? <==> aged || (send.reply.Some? && send.reply.value.status in [400, 404, 409, 410, 422]))
            && (o.Unreachable? <==> !aged && send.reply.None?)
            && (o.AppliedOne? <==>
                  && !aged && send.reply.Some? && send.reply.value.status < 400
                  && (|| send.reply.value.code in [AppliedCode, DuplicateCode]
                      || (file.body.key.kind == OutcomeUnknown && send.reply.value.code == PendingCode)))
  {
  }

  function FlushEffects(file: PendingFile, now: int, send: Send): seq<Effect> {
    if now - file.enqueuedAt > MAX_AGE_S then [Quarantine(file.body.key)]
    else
      [Post(file.body, send)]
      + match FlushOutcome(file, now, send)
        case QuarantinedOne => [Quarantine(file.body.key)]
        case AppliedOne =>
          [Ack(file.body.key)]
          + if file.body.key.kind.UsageKnown? then [Finalize(file.body.reservationId, file.body.callId)] else []
        case _ => []
  }

  function Effects(w: World, job: Job): seq<Effect> {
    match job
    case SettleJob(r, micros, now, send) => SettleEffects(r, micros, now, send)
    case CancelJob(r, dispatched, now, send) => CancelEffects(r, dispatched, now, send)
    case FlushJob(key, now, send) => if key in w.disk.pending then FlushEffects(w.disk.pending[key], now, send) else []
  }

  /** The world after the process has died: the files and the service keep what they had. */
  function Restart(w: World): World { w.(cache := map[]) }

  // ------------------------------------------------------------------ what a settlement says and leaves

  /** The body reports this kind of event and this amount for the attempt, under its own ids and key. */
  predicate Describes(b: Body, r: Reservation, kind: EventKind, amount: Option<nat>) {
    && b.reservationId == r.reservationId && b.callId == r.callId
    && b.key.idempotencyKey == r.idempotencyKey && b.key.kind == kind
    && b.amount == amount
  }

  /** What was charged since is what the report says, if it is of a known usage, and else nothing. */
  predicate ChargesOnly(before: seq<Body>, after: seq<Body>, r: Reservation, kind: EventKind, amount: Option<nat>) {
    && before <= after
    && (forall i :: |before| <= i < |after| ==> kind.UsageKnown? && Describes(after[i], r, kind, amount))
  }

  /** What became of one report of an attempt: its body was sent, once; either it was acknowledged, and its
      file is gone, or it is the pending file of its key. Nothing else on the disk changed but the attempt's own
      open file, and the service charged nothing but what this body says. */
  ghost predicate Reported(w: World, w': World, r: Reservation, kind: EventKind, amount: Option<nat>, now: int, delivered: bool) {
    var k := Key(r.idempotencyKey, kind);
    && |w'.sent| == |w.sent| + 1 && w.sent <= w'.sent && Describes(w'.sent[|w.sent|], r, kind, amount)
    && ChargesOnly(w.server.charges, w'.server.charges, r, kind, amount)
    && w'.acked == (if delivered then w.acked + {k} else w.acked)
    && (if delivered then k !in w'.disk.pending
        else k in w'.disk.pending && w'.disk.pending[k].enqueuedAt == now && Describes(w'.disk.pending[k].body, r, kind, amount))
    && w'.disk.pending - {k} == w.disk.pending - {k} && w'.disk.open - {r.attemptId} == w.disk.open - {r.attemptId}
    && w'.disk.quarantine == w.disk.quarantine && w'.cache - {r.attemptId} == w.cache - {r.attemptId}
  }

  /** The attempt is still open, in its file and, if it was cached, in the cache. */
  predicate StillOpen(w: World, w': World, r: Reservation, status: Status, settledMicros: Option<nat>) {
    var p := Reservation(r.attemptId, r.callId, r.idempotencyKey, r.reservationId, status, settledMicros);
    && r.attemptId in w'.disk.open && w'.disk.open[r.attemptId] == p
    && (r.attemptId in w'.cache <==> r.attemptId in w.cache) && (r.attemptId in w'.cache ==> w'.cache[r.attemptId] == p)
  }

  predicate Closed(w': World, r: Reservation) { r.attemptId !in w'.disk.open && r.attemptId !in w'.cache }

  // ------------------------------------------------------------------ where a settlement is

  function QuarantinedKeys(quarantine: seq<Body>): set<Key> { set b <- quarantine :: b.key }

  lemma QuarantineGrows(quarantine: seq<Body>, b: Body)
    ensures QuarantinedKeys(quarantine + [b]) == QuarantinedKeys(quarantine) + {b.key}
  {
    assert forall x :: x in quarantine + [b] <==> x in quarantine || x == b;
  }

  /** price gives each attempt its one known amount; a body carries it exactly if it settles a known one. */
  predicate WellPriced(price: string -> nat, b: Body) {
    b.amount == if b.key.kind.UsageKnown? then Some(price(b.key.idempotencyKey)) else None
  }

  predicate Found(w: World, k: Key) {
    k in w.disk.pending || k in QuarantinedKeys(w.disk.quarantine) || k in w.acked
  }

  /** Nothing is lost: every known settlement ever written is acknowledged, pending or quarantined, and
      wherever it lies it says the exact amount. */
  ghost predicate Kept(price: string -> nat, w: World) {
    && (forall k <- w.disk.pending :: w.disk.pending[k].body.key == k && WellPriced(price, w.disk.pending[k].body))
    && (forall b <- w.disk.quarantine :: WellPriced(price, b))
    && (forall k <- w.disk.pending :: k.kind.UsageKnown? ==> k in w.intents)
    && (forall k <- QuarantinedKeys(w.disk.quarantine) :: k.kind.UsageKnown? ==> k in w.intents)
    && (forall k <- w.acked :: k.kind.UsageKnown? ==> k in w.intents)
    && (forall k <- w.intents :: k.kind.UsageKnown? && Found(w, k))
  }

  /** The service has charged each key at most once, at the exact amount, only what the client had
      written down before, and everything the client saw acknowledged. */
  ghost predicate Charged(price: string -> nat, w: World) {
    && (forall b <- w.server.charges :: b.key.kind.UsageKnown? && b.key in w.intents && WellPriced(price, b))
    && (forall i, j :: 0 <= i < j < |w.server.charges| ==> w.server.charges[i].key != w.server.charges[j].key)
    && (forall k <- w.server.seen :: k.kind.UsageKnown? ==> k in QuarantinedKeys(w.server.charges))
    && (forall b <- w.server.charges :: b.key in w.server.seen)
    && (forall k <- w.acked :: k.kind.UsageKnown? ==> k in w.server.seen)
  }

  /** What the code before an effect has made true by the time it happens. */
  predicate Prepared(price: string -> nat, w: World, e: Effect) {
    match e
    case Enqueue(body, _) => WellPriced(price, body)
    case Post(body, send) =>
      WellPriced(price, body) && Honest(w.server, body, send) && (body.key.kind.UsageKnown? ==> body.key in w.intents)
    case Ack(k) => k.kind.UsageKnown? ==> k in w.server.seen
    case _ => true
  }

  lemma KeptByEffect(price: string -> nat, w: World, e: Effect)
    requires Kept(price, w) && Charged(price, w) && Prepared(price, w, e)
    ensures Kept(price, Apply(w, e))
  {
    if e.Quarantine? && e.key in w.disk.pending {
      QuarantineGrows(w.disk.quarantine, w.disk.pending[e.key].body);
    }
    if e.Ack? && e.key.kind.UsageKnown? {
      assert e.key in QuarantinedKeys(w.server.charges);
    }
  }

  lemma ChargedByEffect(price: string -> nat, w: World, e: Effect)
    requires Kept(price, w) && Charged(price, w) && Prepared(price, w, e)
    ensures Charged(price, Apply(w, e))
  {
    if e.Post? {
      QuarantineGrows(w.server.charges, e.body);
    } else {
      EffectLeavesServer(w, e);
      hide Apply, WellPriced, QuarantinedKeys;
    }
  }

  lemma EffectLeavesServer(w: World, e: Effect)
    requires !e.Post?
    ensures var w' := Apply(w, e);
            w'.server == w.server && w.intents <= w'.intents && w'.acked == if e.Ack? then w.acked + {e.key} else w.acked
  {
  }

  // ------------------------------------------------------------------ one place only

  predicate OnePlace(w: World, k: Key) {
    var pending, quarantined, acked := k in w.disk.pending, k in QuarantinedKeys(w.disk.quarantine), k in w.acked;
    (pending && !quarantined && !acked) || (!pending && quarantined && !acked) || (!pending && !quarantined && acked)
  }

  ghost predicate ExactlyOne(w: World) { forall k <- w.intents :: OnePlace(w, k) }

  /** The two effects that put a settlement in a second place: writing again one that has already left
      the queue, and acknowledging one that was set aside meanwhile. */
  predicate Disturbs(w: World, e: Effect) {
    || (e.Enqueue? && e.body.key.kind.UsageKnown?
        && (e.body.key in w.acked || e.body.key in QuarantinedKeys(w.disk.quarantine)))
    || (e.Ack? && e.key.kind.UsageKnown? && e.key in QuarantinedKeys(w.disk.quarantine))
  }

  lemma OnePlaceUnlessDisturbed(price: string -> nat, w: World, e: Effect)
    requires Kept(price, w) && Charged(price, w) && Prepared(price, w, e) && ExactlyOne(w)
    ensures ExactlyOne(Apply(w, e)) <==> !Disturbs(w, e)
  {
    if e.Quarantine? && e.key in w.disk.pending {
      QuarantineGrows(w.disk.quarantine, w.disk.pending[e.key].body);
    }
    if e.Ack? && e.key.kind.UsageKnown? {
      assert e.key in QuarantinedKeys(w.server.charges);
    }
    if Disturbs(w, e) {
      var k := if e.Enqueue? then e.body.key else e.key;
      assert k in Apply(w, e).intents && !OnePlace(Apply(w, e), k);
    }
  }
}
