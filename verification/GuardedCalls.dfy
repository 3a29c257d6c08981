/** The guarded non-streaming provider calls of kazenai/monitor.py and kazenai/_async_provider.py.

    A guarded call takes a local hold, reserves with the shared service, marks the start, calls the
    provider, settles, and records. Each awaited step can reply, raise an ordinary exception, or be
    cancelled (KeyboardInterrupt, CancelledError: not caught by `except Exception`). A Script lists the
    replies; SyncPath and AsyncPath say what the two wrappers then do, event by event. */
module GuardedCalls {
  import opened Wrappers
  import opened LocalBudget
  import opened SharedBudget

  datatype Answer = Replied(ok: bool) | Raised | Cancelled

  /** What the provider did. held: the price is kept for reconciliation, as after an unexpected tier. */
  datatype Provider = Responds(cost: Option<real>, held: bool) | Rejects | Errors | Interrupted

  /** reserve replies true when a shared reservation was made; first, second and third answer the
      settlement signals in the order they are sent. */
  datatype Script = Script(
    reserve: Answer, start: Answer, provider: Provider, first: Answer, second: Answer, third: Answer)

  datatype Awaited =
    | Reserve
    | StartMark
    | Dispatch
    | Reconcile(amount: real)   // settle the known amount
    | MarkZero                  // a definitive refusal: usage known, nothing spent
    | MarkUnknown               // failed or unpriced: outcome unknown
    | MarkInterrupted           // cancelled in flight: outcome unknown, errors swallowed
    | MarkUnsettled             // the settlement raised: outcome unknown, errors swallowed
    | MarkKnown(amount: real)   // settlement not acknowledged: the same amount again

  datatype Event = Asked(what: Awaited, answer: Answer) | Released | Recorded(cost: Option<real>)

  datatype Ending = Denied | NotStarted | ProviderFailed | Returned | Unwound

  datatype Path = Path(events: seq<Event>, ending: Ending)

  // ------------------------------------------------------------------ paths

  function Then(events: seq<Event>, p: Path): Path { Path(events + p.events, p.ending) }

  /** One settlement signal that must go through: anything but a reply unwinds the call. */
  function Must(what: Awaited, answer: Answer, rest: Path): Path {
    if answer.Replied? then Then([Asked(what, answer)], rest) else Path([Asked(what, answer)], Unwound)
  }

  /** One settlement signal whose exceptions are swallowed: only a cancellation unwinds the call. */
  function May(what: Awaited, answer: Answer, rest: Path): Path {
    if answer.Cancelled? then Path([Asked(what, answer)], Unwound) else Then([Asked(what, answer)], rest)
  }

  function ProviderAnswer(p: Provider): Answer {
    match p case Responds(_, _) => Replied(true) case Interrupted => Cancelled case _ => Raised
  }

  function Failure(s: Script, shared: bool): Path {
    var recorded := Path([Recorded(Some(0.0))], ProviderFailed);
    if !shared then recorded
    else if s.provider.Rejects? then Must(MarkZero, s.first, recorded)
    else Must(MarkUnknown, s.first, recorded)
  }

  function SyncSettle(s: Script, shared: bool): Path
    requires s.provider.Responds?
  {
    var cost := s.provider.cost;
    var recorded := Path([Recorded(cost)], Returned);
    if !shared then recorded
    else if cost.None? || s.provider.held then Must(MarkUnknown, s.first, recorded)
    else if s.first == Replied(true) then Then([Asked(Reconcile(cost.value), s.first)], recorded)
    else Must(Reconcile(cost.value), s.first, Must(MarkKnown(cost.value), s.second, recorded))
  }

  function AsyncSettle(s: Script, shared: bool): Path
    requires s.provider.Responds?
  {
    var cost := s.provider.cost;
    var recorded := Path([Recorded(cost)], Returned);
    if !shared then recorded
    else if cost.None? || s.provider.held then Must(MarkUnknown, s.first, recorded)
    else if s.first == Replied(true) then Then([Asked(Reconcile(cost.value), s.first)], recorded)
    else if s.first.Replied? then
      Then([Asked(Reconcile(cost.value), s.first)], May(MarkKnown(cost.value), s.second, recorded))
    else if s.first.Raised? then
      Then([Asked(Reconcile(cost.value), s.first)],
           May(MarkUnsettled, s.second, May(MarkKnown(cost.value), s.third, recorded)))
    else
      Then([Asked(Reconcile(cost.value), s.first)], Path([Asked(MarkUnsettled, s.second)], Unwound))
  }

  function Conclude(s: Script, shared: bool, isAsync: bool): Path {
    match s.provider
    case Responds(_, _) => if isAsync then AsyncSettle(s, shared) else SyncSettle(s, shared)
    case Interrupted => Path(if isAsync && shared then [Asked(MarkInterrupted, s.first)] else [], Unwound)
    case _ => Failure(s, shared)
  }

  function Provide(s: Script, shared: bool, isAsync: bool): Path {
    Then([Asked(Dispatch, ProviderAnswer(s.provider))], Conclude(s, shared, isAsync))
  }

  /** Everything a call does after its local hold was admitted. */
  function CallPath(s: Script, isAsync: bool): Path {
    match s.reserve
    case Raised => Path([Asked(Reserve, Raised), Released], Denied)
    case Cancelled => Path([Asked(Reserve, Cancelled)], Unwound)
    case Replied(shared) =>
      Then([Asked(Reserve, s.reserve)],
           match s.start
           case Raised => Path([Asked(StartMark, Raised), Released], NotStarted)
           case Cancelled => Path([Asked(StartMark, Cancelled)], Unwound)
           case Replied(_) => Then([Asked(StartMark, s.start)], Provide(s, shared, isAsync)))
  }

  // ------------------------------------------------------------------ the hold

  predicate Discharges(e: Event) { e.Released? || e.Recorded? }

  function Count(events: seq<Event>): nat {
    if events == [] then 0 else (if Discharges(events[0]) then 1 else 0) + Count(events[1..])
  }

  lemma {:induction false} CountAppends(a: seq<Event>, b: seq<Event>)
    ensures Count(a + b) == Count(a) + Count(b)
  {
    if a == [] {
      assert a + b == b;
    } else {
      CountAppends(a[1..], b);
      assert (a + b)[1..] == a[1..] + b;
    }
  }

  /** An event that keeps the wrapper from reaching its discharge. */
  predicate Disturbs(e: Event, isAsync: bool) {
    e.Asked? && (|| e.answer.Cancelled?
                 || (e.answer.Raised? && if isAsync then e.what.MarkZero? || e.what.MarkUnknown?
                                         else !e.what.Reserve? && !e.what.StartMark? && !e.what.Dispatch?))
  }

  predicate Disturbed(events: seq<Event>, isAsync: bool) {
    exists e <- events :: Disturbs(e, isAsync)
  }

  lemma {:induction false} NoneCounted(events: seq<Event>)
    requires forall e <- events :: !Discharges(e)
    ensures Count(events) == 0
  {
    if events != [] {
      NoneCounted(events[1..]);
    }
  }

  lemma DisturbedAppends(a: seq<Event>, b: seq<Event>, isAsync: bool)
    ensures Disturbed(a + b, isAsync) <==> Disturbed(a, isAsync) || Disturbed(b, isAsync)
  {
    assert forall e <- a :: e in a + b;
    assert forall e <- b :: e in a + b;
  }

  /** The hold is discharged exactly when nothing on the path disturbed it, and then once. */
  predicate DischargedOnce(p: Path, isAsync: bool) {
    && Count(p.events) == (if Disturbed(p.events, isAsync) then 0 else 1)
    && (p.ending.Unwound? <==> Disturbed(p.events, isAsync))
  }

  lemma PrefixKeeps(e: Event, p: Path, isAsync: bool)
    requires !Discharges(e) && !Disturbs(e, isAsync) && DischargedOnce(p, isAsync)
    ensures DischargedOnce(Then([e], p), isAsync)
  {
    CountAppends([e], p.events);
    DisturbedAppends([e], p.events, isAsync);
    assert Disturbed([e], isAsync) <==> Disturbs(e, isAsync);
  }

  lemma DoneOnce(e: Event, ending: Ending, isAsync: bool)
    requires !ending.Unwound? && Discharges(e)
    ensures DischargedOnce(Path([e], ending), isAsync)
  {
  }

  lemma UnwoundKeeps(e: Event, isAsync: bool)
    requires Disturbs(e, isAsync)
    ensures DischargedOnce(Path([e], Unwound), isAsync)
  {
    assert e in [e];
  }

  lemma MustKeeps(what: Awaited, answer: Answer, p: Path, isAsync: bool)
    requires what.MarkZero? || what.MarkUnknown? || (!isAsync && (what.Reconcile? || what.MarkKnown?))
    requires DischargedOnce(p, isAsync)
    ensures DischargedOnce(Must(what, answer, p), isAsync)
  {
    if answer.Replied? {
      PrefixKeeps(Asked(what, answer), p, isAsync);
    } else {
      UnwoundKeeps(Asked(what, answer), isAsync);
    }
  }

  lemma MayKeeps(what: Awaited, answer: Answer, p: Path)
    requires what.MarkKnown? || what.MarkUnsettled?
    requires DischargedOnce(p, true)
    ensures DischargedOnce(May(what, answer, p), true)
  {
    if answer.Cancelled? {
      UnwoundKeeps(Asked(what, answer), true);
    } else {
      PrefixKeeps(Asked(what, answer), p, true);
    }
  }

  lemma SettleDischargesOnce(s: Script, shared: bool, isAsync: bool)
    requires s.provider.Responds?
    ensures DischargedOnce(if isAsync then AsyncSettle(s, shared) else SyncSettle(s, shared), isAsync)
  {
    var cost := s.provider.cost;
    var recorded := Path([Recorded(cost)], Returned);
    DoneOnce(Recorded(cost), Returned, isAsync);
    if shared {
      if cost.None? || s.provider.held {
        MustKeeps(MarkUnknown, s.first, recorded, isAsync);
      } else {
        var settle := Asked(Reconcile(cost.value), s.first);
        var again := MarkKnown(cost.value);
        if s.first == Replied(true) {
          PrefixKeeps(settle, recorded, isAsync);
        } else if !isAsync {
          MustKeeps(again, s.second, recorded, isAsync);
          MustKeeps(Reconcile(cost.value), s.first, Must(again, s.second, recorded), isAsync);
        } else if s.first.Replied? {
          MayKeeps(again, s.second, recorded);
          PrefixKeeps(settle, May(again, s.second, recorded), true);
        } else if s.first.Raised? {
          MayKeeps(again, s.third, recorded);
          MayKeeps(MarkUnsettled, s.second, May(again, s.third, recorded));
          PrefixKeeps(settle, May(MarkUnsettled, s.second, May(again, s.third, recorded)), true);
        } else {
          assert AsyncSettle(s, shared).events[0] == settle;
          assert settle in AsyncSettle(s, shared).events;
          NoneCounted(AsyncSettle(s, shared).events);
        }
      }
    }
  }

  /** Over every script, the sync wrapper discharges its hold exactly once unless it was interrupted
      or a settlement signal raised, the async wrapper unless it was interrupted or the one signal
      after a failed or unpriced response raised; and neither ever discharges it twice. */
  lemma HoldDischargedExactlyOnce(s: Script, isAsync: bool)
    ensures DischargedOnce(CallPath(s, isAsync), isAsync)
    ensures Count(CallPath(s, isAsync).events) <= 1
  {
    var p := CallPath(s, isAsync);
    match s.reserve
    case Raised =>
      DoneOnce(Released, Denied, isAsync);
      assert p == Then([Asked(Reserve, Raised)], Path([Released], Denied));
      PrefixKeeps(Asked(Reserve, Raised), Path([Released], Denied), isAsync);
    case Cancelled => UnwoundKeeps(Asked(Reserve, Cancelled), isAsync);
    case Replied(shared) =>
      match s.start {
        case Raised =>
          DoneOnce(Released, NotStarted, isAsync);
          var q := Then([Asked(StartMark, Raised)], Path([Released], NotStarted));
          PrefixKeeps(Asked(StartMark, Raised), Path([Released], NotStarted), isAsync);
          PrefixKeeps(Asked(Reserve, s.reserve), q, isAsync);
          assert p == Then([Asked(Reserve, s.reserve)], q);
        case Cancelled =>
          UnwoundKeeps(Asked(StartMark, Cancelled), isAsync);
          PrefixKeeps(Asked(Reserve, s.reserve), Path([Asked(StartMark, Cancelled)], Unwound), isAsync);
        case Replied(_) =>
          ProvideDischargesOnce(s, shared, isAsync);
          PrefixKeeps(Asked(StartMark, s.start), Provide(s, shared, isAsync), isAsync);
          PrefixKeeps(Asked(Reserve, s.reserve), Then([Asked(StartMark, s.start)], Provide(s, shared, isAsync)), isAsync);
      }
  }

  lemma ProvideDischargesOnce(s: Script, shared: bool, isAsync: bool)
    ensures DischargedOnce(Provide(s, shared, isAsync), isAsync)
  {
    var asked := Asked(Dispatch, ProviderAnswer(s.provider));
    match s.provider
    case Responds(_, _) =>
      SettleDischargesOnce(s, shared, isAsync);
      PrefixKeeps(asked, if isAsync then AsyncSettle(s, shared) else SyncSettle(s, shared), isAsync);
    case Interrupted =>
      var p := Provide(s, shared, isAsync);
      assert p.events[0] == asked && asked in p.events && Disturbs(asked, isAsync);
      NoneCounted(p.events);
    case _ =>
      var recorded := Path([Recorded(Some(0.0))], ProviderFailed);
      DoneOnce(Recorded(Some(0.0)), ProviderFailed, isAsync);
      MustKeeps(MarkZero, s.first, recorded, isAsync);
      MustKeeps(MarkUnknown, s.first, recorded, isAsync);
      PrefixKeeps(asked, Failure(s, shared), isAsync);
  }

  // ------------------------------------------------------------------ what is recorded

  /** The settlement of a response goes through: no signal it needs was cancelled, or raised where nothing
      catches it. shared says whether there is a reservation to settle. */
  predicate Settles(s: Script, shared: bool, isAsync: bool)
    requires s.provider.Responds?
  {
    if !shared then true
    else if s.provider.cost.None? || s.provider.held then s.first.Replied?
    else if s.first == Replied(true) then true
    else if s.first.Replied? then if isAsync then !s.second.Cancelled? else s.second.Replied?
    else isAsync && s.first.Raised? && !s.second.Cancelled? && !s.third.Cancelled?
  }

  /** How a call ends, by its script alone. */
  predicate EndsAs(s: Script, isAsync: bool, ending: Ending) {
    if s.reserve.Raised? then ending.Denied?
    else if s.reserve.Cancelled? || s.start.Cancelled? then ending.Unwound?
    else if s.start.Raised? then ending.NotStarted?
    else match s.provider
         case Interrupted => ending.Unwound?
         case Responds(_, _) => if Settles(s, s.reserve.ok, isAsync) then ending.Returned? else ending.Unwound?
         case _ => if !s.reserve.ok || s.first.Replied? then ending.ProviderFailed? else ending.Unwound?
  }

  /** What discharges the hold of a call with this ending, and nothing else does: a refusal releases it, a
      failure records no cost, a return records what the provider's response cost. */
  predicate DischargesAs(s: Script, ending: Ending, e: Event) {
    match ending
    case Denied => e.Released?
    case NotStarted => e.Released?
    case ProviderFailed => e == Recorded(Some(0.0))
    case Returned => s.provider.Responds? && e == Recorded(s.provider.cost)
    case Unwound => false
  }

  /** The last event is the one discharge, or there is none. */
  predicate EndsDischarged(s: Script, p: Path) {
    && (forall i :: 0 <= i < |p.events| && Discharges(p.events[i]) ==> i == |p.events| - 1 && DischargesAs(s, p.ending, p.events[i]))
    && (!p.ending.Unwound? ==> p.events != [] && Discharges(p.events[|p.events| - 1]))
  }

  lemma EndsDischargedThen(s: Script, e: Event, p: Path)
    requires EndsDischarged(s, p) && !Discharges(e)
    ensures EndsDischarged(s, Then([e], p))
  {
    var q := Then([e], p);
    assert forall i :: 0 <= i < |p.events| ==> q.events[i + 1] == p.events[i];
    forall i | 0 <= i < |q.events| && Discharges(q.events[i])
      ensures i == |q.events| - 1 && DischargesAs(s, q.ending, q.events[i])
    {
      assert i > 0 && q.events[i] == p.events[i - 1];
    }
  }

  lemma ConclusionRecords(s: Script, shared: bool, isAsync: bool)
    ensures var p := Conclude(s, shared, isAsync);
            && EndsDischarged(s, p)
            && (p.ending.Returned? <==> s.provider.Responds? && Settles(s, shared, isAsync))
            && (p.ending.ProviderFailed? <==> (s.provider.Rejects? || s.provider.Errors?) && (!shared || s.first.Replied?))
            && !p.ending.Denied? && !p.ending.NotStarted?
  {
    var returned, failed := Path([Recorded(if s.provider.Responds? then s.provider.cost else None)], Returned), Path([Recorded(Some(0.0))], ProviderFailed);
    if s.provider.Responds? {
      var cost := s.provider.cost;
      EndsDischargedThen(s, Asked(MarkUnknown, s.first), returned);
      if cost.Some? {
        var settle, second, third := Asked(Reconcile(cost.value), s.first), Asked(MarkKnown(cost.value), s.second), Asked(MarkKnown(cost.value), s.third);
        EndsDischargedThen(s, settle, returned);
        EndsDischargedThen(s, second, returned);
        EndsDischargedThen(s, settle, Then([second], returned));
        EndsDischargedThen(s, third, returned);
        EndsDischargedThen(s, Asked(MarkUnsettled, s.second), Then([third], returned));
        EndsDischargedThen(s, settle, Then([Asked(MarkUnsettled, s.second)], Then([third], returned)));
      }
    } else {
      EndsDischargedThen(s, Asked(MarkZero, s.first), failed);
      EndsDischargedThen(s, Asked(MarkUnknown, s.first), failed);
    }
  }

  lemma PathEndsDischarged(s: Script, isAsync: bool)
    ensures EndsAs(s, isAsync, CallPath(s, isAsync).ending) && EndsDischarged(s, CallPath(s, isAsync))
  {
    var reserve, start, dispatch := Asked(Reserve, s.reserve), Asked(StartMark, s.start), Asked(Dispatch, ProviderAnswer(s.provider));
    match s.reserve
    case Raised =>
    case Cancelled =>
    case Replied(shared) =>
      ConclusionRecords(s, shared, isAsync);
      hide Conclude;
      var c := Conclude(s, shared, isAsync);
      EndsDischargedThen(s, dispatch, c);
      EndsDischargedThen(s, start, Then([dispatch], c));
      EndsDischargedThen(s, reserve, Then([start], Then([dispatch], c)));
      var refused := Path([start, Released], NotStarted);
      EndsDischargedThen(s, reserve, refused);
      EndsDischargedThen(s, reserve, Path([start], Unwound));
  }

  lemma {:induction false} CountIsOneAtTheEnd(events: seq<Event>)
    requires forall i :: 0 <= i < |events| && Discharges(events[i]) ==> i == |events| - 1
    ensures Count(events) == if events != [] && Discharges(events[|events| - 1]) then 1 else 0
    decreases |events|
  {
    if events != [] {
      var rest := events[1..];
      assert forall i :: 0 <= i < |rest| ==> rest[i] == events[i + 1];
      CountIsOneAtTheEnd(rest);
    }
  }

  /** Over every script, sync or async: a call that returns discharges its hold once, with the provider's own
      cost; one whose provider failed once, with no cost; one that was refused once, with no record at all. */
  lemma DischargeIsTheCallsOwn(s: Script, isAsync: bool)
    ensures var p := CallPath(s, isAsync);
            && EndsAs(s, isAsync, p.ending) && EndsDischarged(s, p)
            && (p.ending.Returned? ==> s.provider.Responds? && p.events[|p.events| - 1] == Recorded(s.provider.cost))
            && (p.ending.ProviderFailed? ==> p.events[|p.events| - 1] == Recorded(Some(0.0)))
            && Count(p.events) == if p.ending.Unwound? then 0 else 1
  {
    PathEndsDischarged(s, isAsync);
    var p := CallPath(s, isAsync);
    hide CallPath, EndsAs, Count;
    CountIsOneAtTheEnd(p.events);
  }

  // ------------------------------------------------------------------ the shared reservation

  /** Where the reservation is as far as anybody can tell: Started when nothing after the start mark says
      how the call went, Pending when a signal that was not acknowledged is in the journal or with the
      service. */
  datatype Shared = NoReservation | Reserved | Started | Pending | Settled(amount: real)

  /** The amount a signal offers for settlement; no signal but these names one. */
  function Amount(what: Awaited): Option<real> {
    match what
    case Reconcile(a) => Some(a)
    case MarkKnown(a) => Some(a)
    case MarkZero => Some(0.0)
    case _ => None
  }

  predicate IsSignal(what: Awaited) { !what.Reserve? && !what.StartMark? && !what.Dispatch? }

  /** kept says of each signal whether it got as far as the journal or the service. One that raised may
      have got nowhere: a missing capability and a journal that cannot be written both raise before
      anything is written or sent. */
  predicate Evidence(kept: Awaited -> bool, e: Event) {
    e.Asked? && IsSignal(e.what) && (e.answer == Replied(true) || kept(e.what))
  }

  function After(kept: Awaited -> bool, r: Shared, e: Event): Shared {
    if !e.Asked? then r
    else if e.what.Reserve? then if e.answer == Replied(true) then Reserved else r
    else if e.what.StartMark? then if r.Reserved? && e.answer.Replied? then Started else r
    else if !Evidence(kept, e) || r.Settled? then r
    else if Amount(e.what).Some? && e.answer == Replied(true) then Settled(Amount(e.what).value)
    else Pending
  }

  function End(kept: Awaited -> bool, r: Shared, events: seq<Event>): Shared
    decreases |events|
  {
    if events == [] then r else End(kept, After(kept, r, events[0]), events[1..])
  }

  lemma {:induction false} EndAppends(kept: Awaited -> bool, r: Shared, a: seq<Event>, b: seq<Event>)
    ensures End(kept, r, a + b) == End(kept, End(kept, r, a), b)
    decreases |a|
  {
    if a == [] {
      assert a + b == b;
    } else {
      EndAppends(kept, After(kept, r, a[0]), a[1..], b);
      assert (a + b)[1..] == a[1..] + b;
    }
  }

  /** A call that reached its provider with a shared reservation. */
  predicate Dispatched(s: Script) { s.reserve == Replied(true) && s.start.Replied? }

  lemma EndOfDispatched(s: Script, isAsync: bool, kept: Awaited -> bool)
    requires Dispatched(s)
    ensures End(kept, NoReservation, CallPath(s, isAsync).events) == End(kept, Started, Conclude(s, true, isAsync).events)
    ensures CallPath(s, isAsync).events
            == [Asked(Reserve, s.reserve), Asked(StartMark, s.start), Asked(Dispatch, ProviderAnswer(s.provider))]
               + Conclude(s, true, isAsync).events
  {
    var p := Provide(s, true, isAsync);
    var q := Then([Asked(StartMark, s.start)], p);
    assert CallPath(s, isAsync).events == [Asked(Reserve, s.reserve)] + q.events;
    EndAppends(kept, NoReservation, [Asked(Reserve, s.reserve)], q.events);
    EndAppends(kept, Reserved, [Asked(StartMark, s.start)], p.events);
    EndAppends(kept, Started, [Asked(Dispatch, ProviderAnswer(s.provider))], Conclude(s, true, isAsync).events);
    assert End(kept, NoReservation, [Asked(Reserve, s.reserve)]) == Reserved;
    assert End(kept, Reserved, [Asked(StartMark, s.start)]) == Started;
    assert End(kept, Started, [Asked(Dispatch, ProviderAnswer(s.provider))]) == Started;
  }

  /** A call with no shared reservation leaves none behind, whatever it goes through; one that never got to its
      provider leaves its reservation as it was made. */
  lemma UndispatchedReservation(s: Script, isAsync: bool, kept: Awaited -> bool)
    requires !Dispatched(s)
    ensures End(kept, NoReservation, CallPath(s, isAsync).events) == if s.reserve == Replied(true) then Reserved else NoReservation
  {
    match s.reserve
    case Replied(shared) =>
      if s.start.Replied? {
        var p := Conclude(s, false, isAsync);
        assert forall e <- p.events :: !e.Asked?;
        NothingAsked(kept, NoReservation, p.events);
        hide Conclude;
        EndThen(kept, NoReservation, Asked(Dispatch, ProviderAnswer(s.provider)), p);
        EndThen(kept, NoReservation, Asked(StartMark, s.start), Provide(s, false, isAsync));
        EndThen(kept, NoReservation, Asked(Reserve, s.reserve), Then([Asked(StartMark, s.start)], Provide(s, false, isAsync)));
      }
    case _ =>
  }

  lemma {:induction false} NothingAsked(kept: Awaited -> bool, r: Shared, events: seq<Event>)
    requires forall e <- events :: !e.Asked?
    ensures End(kept, r, events) == r
    decreases |events|
  {
    if events != [] { NothingAsked(kept, r, events[1..]); }
  }

  lemma EndThen(kept: Awaited -> bool, r: Shared, e: Event, p: Path)
    ensures End(kept, r, Then([e], p).events) == End(kept, After(kept, r, e), p.events)
  {
    assert Then([e], p).events == [e] + p.events;
    assert ([e] + p.events)[1..] == p.events;
  }

  /** The amount a dispatched call may settle at: its known cost, or nothing if definitively refused. */
  predicate MaySettleAt(s: Script, amount: real) {
    match s.provider
    case Rejects => amount == 0.0
    case Responds(cost, held) => cost == Some(amount) && !held
    case _ => false
  }

  /** The signal got nowhere that anybody could tell. */
  predicate Lost(kept: Awaited -> bool, what: Awaited, answer: Answer) { answer != Replied(true) && !kept(what) }

  /** When a dispatched call leaves no trace of its outcome, by what its signals came to. */
  predicate LeavesNoTrace(s: Script, isAsync: bool, kept: Awaited -> bool) {
    match s.provider
    case Interrupted => !isAsync || Lost(kept, MarkInterrupted, s.first)
    case Rejects => Lost(kept, MarkZero, s.first)
    case Errors => Lost(kept, MarkUnknown, s.first)
    case Responds(cost, held) =>
      if cost.None? || held then Lost(kept, MarkUnknown, s.first)
      else
        && Lost(kept, Reconcile(cost.value), s.first)
        && if s.first.Replied? then Lost(kept, MarkKnown(cost.value), s.second)
           else if !isAsync then true
           else && Lost(kept, MarkUnsettled, s.second)
                && (s.first.Cancelled? || s.second.Cancelled? || Lost(kept, MarkKnown(cost.value), s.third))
  }

  /** When the service acknowledges the amount: at once, or when the same amount is offered again. */
  predicate AmountAcknowledged(s: Script, isAsync: bool) {
    || s.first == Replied(true)
    || (s.provider.Responds?
        && (|| (s.first.Replied? && s.second == Replied(true))
            || (isAsync && s.first.Raised? && !s.second.Cancelled? && s.third == Replied(true))))
  }

  /** Some signal that names this amount was acknowledged. */
  predicate Acknowledges(events: seq<Event>, amount: real) {
    exists e <- events :: e.Asked? && Amount(e.what) == Some(amount) && e.answer == Replied(true)
  }

  predicate Silent(kept: Awaited -> bool, events: seq<Event>) { forall e <- events :: !Evidence(kept, e) }

  /** Every event is a settlement signal or local, and every amount offered may be settled at. */
  predicate SignalsOk(s: Script, events: seq<Event>) {
    forall e <- events :: e.Asked? ==> IsSignal(e.what) && (Amount(e.what).Some? ==> MaySettleAt(s, Amount(e.what).value))
  }

  /** Where signals alone take a reservation. */
  lemma {:induction false} SignalsTake(s: Script, kept: Awaited -> bool, r: Shared, t: seq<Event>)
    requires SignalsOk(s, t)
    requires r.Started? || r.Pending? || (r.Settled? && MaySettleAt(s, r.amount))
    ensures var end := End(kept, r, t);
            && (end.Started? || end.Pending? || end.Settled?)
            && (end.Started? <==> r.Started? && Silent(kept, t))
            && forall a :: end == Settled(a) <==> r == Settled(a) || Acknowledges(t, a)
    decreases |t|
  {
    if t != [] {
      SignalsTake(s, kept, After(kept, r, t[0]), t[1..]);
      assert Silent(kept, t) <==> !Evidence(kept, t[0]) && Silent(kept, t[1..]);
      AcknowledgesCons(t);
    }
  }

  lemma AcknowledgesCons(t: seq<Event>)
    requires t != []
    ensures forall a :: Acknowledges(t, a) <==>
              (t[0].Asked? && Amount(t[0].what) == Some(a) && t[0].answer == Replied(true)) || Acknowledges(t[1..], a)
  {
    assert t == [t[0]] + t[1..];
  }

  /** What one signal in front of a path adds. */
  lemma SignalThen(s: Script, kept: Awaited -> bool, what: Awaited, answer: Answer, p: Path)
    requires IsSignal(what)
    ensures var q := Then([Asked(what, answer)], p).events;
            && (Silent(kept, q) <==> Lost(kept, what, answer) && Silent(kept, p.events))
            && (SignalsOk(s, p.events) && (Amount(what).Some? ==> MaySettleAt(s, Amount(what).value)) ==> SignalsOk(s, q))
            && forall a :: Acknowledges(q, a) <==>
                 (Amount(what) == Some(a) && answer == Replied(true)) || Acknowledges(p.events, a)
  {
    var q := Then([Asked(what, answer)], p).events;
    assert q[0] == Asked(what, answer) && q[1..] == p.events;
    AcknowledgesCons(q);
    assert q[0] in q && (Evidence(kept, q[0]) <==> !Lost(kept, what, answer));
    assert forall e <- p.events :: e in q;
  }

  lemma SignalAlone(s: Script, kept: Awaited -> bool, what: Awaited, answer: Answer)
    requires IsSignal(what)
    ensures var q := [Asked(what, answer)];
            && (Silent(kept, q) <==> Lost(kept, what, answer))
            && ((Amount(what).Some? ==> MaySettleAt(s, Amount(what).value)) ==> SignalsOk(s, q))
            && forall a :: Acknowledges(q, a) <==> Amount(what) == Some(a) && answer == Replied(true)
  {
    var gone := Path([], Unwound);
    SignalThen(s, kept, what, answer, gone);
    assert Then([Asked(what, answer)], gone).events == [Asked(what, answer)];
    assert forall a :: !Acknowledges(gone.events, a);
  }

  /** The claims about the signals of a concluded call. */
  ghost predicate Told(s: Script, isAsync: bool, kept: Awaited -> bool, events: seq<Event>) {
    && SignalsOk(s, events)
    && (Silent(kept, events) <==> LeavesNoTrace(s, isAsync, kept))
    && forall a :: Acknowledges(events, a) <==> MaySettleAt(s, a) && AmountAcknowledged(s, isAsync)
  }

  lemma NothingTold(s: Script, kept: Awaited -> bool, cost: Option<real>, ending: Ending)
    ensures SignalsOk(s, [Recorded(cost)]) && Silent(kept, [Recorded(cost)]) && forall a :: !Acknowledges([Recorded(cost)], a)
    ensures SignalsOk(s, []) && Silent(kept, []) && forall a :: !Acknowledges([], a)
  {
  }

  lemma AmountsOf(cost: Option<real>)
    ensures Amount(MarkUnknown) == None && Amount(MarkUnsettled) == None
    ensures cost.Some? ==> Amount(Reconcile(cost.value)) == Some(cost.value) && Amount(MarkKnown(cost.value)) == Some(cost.value)
  {
  }

  lemma ResponseTold(s: Script, isAsync: bool, kept: Awaited -> bool)
    requires s.provider.Responds?
    ensures Told(s, isAsync, kept, Conclude(s, true, isAsync).events)
  {
    hide Silent, Acknowledges, SignalsOk, Amount;
    var cost := s.provider.cost;
    var recorded := Path([Recorded(cost)], Returned);
    AmountsOf(cost);
    NothingTold(s, kept, cost, Returned);
    if cost.None? || s.provider.held {
      SignalThen(s, kept, MarkUnknown, s.first, recorded);
      SignalAlone(s, kept, MarkUnknown, s.first);
    } else {
      var settle, again := Reconcile(cost.value), MarkKnown(cost.value);
      var answer := if s.first.Replied? then s.second else s.third;
      SignalThen(s, kept, again, answer, recorded);
      SignalAlone(s, kept, again, answer);
      SignalThen(s, kept, settle, s.first, recorded);
      SignalAlone(s, kept, settle, s.first);
      if isAsync {
        var tail := May(again, answer, recorded);
        SignalThen(s, kept, MarkUnsettled, s.second, tail);
        SignalAlone(s, kept, MarkUnsettled, s.second);
        SignalThen(s, kept, settle, s.first, tail);
        SignalThen(s, kept, settle, s.first, May(MarkUnsettled, s.second, tail));
        SignalThen(s, kept, settle, s.first, Path([Asked(MarkUnsettled, s.second)], Unwound));
      } else {
        SignalThen(s, kept, settle, s.first, Must(again, answer, recorded));
      }
    }
  }

  lemma ConclusionTold(s: Script, isAsync: bool, kept: Awaited -> bool)
    ensures Told(s, isAsync, kept, Conclude(s, true, isAsync).events)
  {
    var recorded := Path([Recorded(Some(0.0))], ProviderFailed);
    NothingTold(s, kept, Some(0.0), ProviderFailed);
    match s.provider
    case Responds(_, _) => ResponseTold(s, isAsync, kept);
    case Interrupted => SignalAlone(s, kept, MarkInterrupted, s.first);
    case Rejects =>
      SignalThen(s, kept, MarkZero, s.first, recorded);
      SignalAlone(s, kept, MarkZero, s.first);
    case Errors =>
      SignalThen(s, kept, MarkUnknown, s.first, recorded);
      SignalAlone(s, kept, MarkUnknown, s.first);
  }

  /** A dispatched call leaves its reservation settled at its known amount exactly when the service
      acknowledged that amount, merely started exactly when every signal it sent was lost, and pending
      otherwise. */
  lemma ReservationEnds(s: Script, isAsync: bool, kept: Awaited -> bool)
    requires Dispatched(s)
    ensures var end := End(kept, NoReservation, CallPath(s, isAsync).events);
            && (forall a :: end == Settled(a) <==> MaySettleAt(s, a) && AmountAcknowledged(s, isAsync))
            && (forall a :: end == Settled(a) <==> Acknowledges(CallPath(s, isAsync).events, a))
            && (end.Started? <==> LeavesNoTrace(s, isAsync, kept))
            && (end.Started? || end.Pending? || end.Settled?)
  {
    hide End, Conclude, CallPath, LeavesNoTrace, AmountAcknowledged, MaySettleAt, SignalsOk, Silent;
    var tail := Conclude(s, true, isAsync).events;
    EndOfDispatched(s, isAsync, kept);
    ConclusionTold(s, isAsync, kept);
    SignalsTake(s, kept, Started, tail);
    var opening := [Asked(Reserve, s.reserve), Asked(StartMark, s.start), Asked(Dispatch, ProviderAnswer(s.provider))];
    forall a ensures Acknowledges(opening + tail, a) <==> Acknowledges(tail, a) {
      assert forall e <- tail :: e in opening + tail;
    }
  }

  /** When no signal is lost the one call without a trace is the sync call interrupted in flight, which
      sends none. */
  lemma KeptSignalsSettleOrPend(s: Script, isAsync: bool, kept: Awaited -> bool)
    requires Dispatched(s) && forall what :: kept(what)
    ensures End(kept, NoReservation, CallPath(s, isAsync).events).Started? <==> s.provider.Interrupted? && !isAsync
  {
    ReservationEnds(s, isAsync, kept);
  }

  /** A settlement that is acknowledged the first time settles the known cost, whatever became of anything
      else. */
  lemma AcknowledgedSettlementSettles(s: Script, isAsync: bool, kept: Awaited -> bool, cost: real)
    requires Dispatched(s) && s.provider == Responds(Some(cost), false) && s.first == Replied(true)
    ensures End(kept, NoReservation, CallPath(s, isAsync).events) == Settled(cost)
  {
    ReservationEnds(s, isAsync, kept);
  }

  /** A sync settlement that raises before it is journaled unwinds the call: the cost is known, and the
      reservation stays merely started. The async wrapper tries twice more. */
  lemma RaisedSettlementLeavesNoTrace(cost: real, second: Answer, third: Answer)
    ensures var s := Script(Replied(true), Replied(true), Responds(Some(cost), false), Raised, second, third);
            && End(what => false, NoReservation, CallPath(s, false).events) == Started
            && (End(what => false, NoReservation, CallPath(s, true).events) == Started
                <==> second != Replied(true) && (second.Cancelled? || third != Replied(true)))
  {
    var s := Script(Replied(true), Replied(true), Responds(Some(cost), false), Raised, second, third);
    ReservationEnds(s, false, what => false);
    ReservationEnds(s, true, what => false);
  }
}
