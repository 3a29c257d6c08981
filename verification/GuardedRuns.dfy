/** Guarded calls carried out on an Enforcement object, one at a time and interleaved.

    The two methods are the wrappers themselves, step by step; they are proved to follow the paths of
    module GuardedCalls. The second half lets any number of calls interleave, event by event, on one
    Enforcement object, and connects every such run to the guarantees of module SharedBudget. */
module GuardedRuns {
  import opened Wrappers
  import opened LocalBudget
  import opened SharedBudget
  import opened GuardedCalls

  // ------------------------------------------------------------------ the wrappers

  function ApplyEvent(l: Ledger, held: real, at: real, e: Event): Ledger {
    match e
    case Asked(_, _) => l
    case Released => Discharge(l, held)
    case Recorded(cost) => Record(l, at, cost, held)
  }

  function Applied(l: Ledger, held: real, at: real, events: seq<Event>): Ledger
    decreases |events|
  {
    if events == [] then l else Applied(ApplyEvent(l, held, at, events[0]), held, at, events[1..])
  }

  lemma {:induction false} AppliedAppends(l: Ledger, held: real, at: real, events: seq<Event>, e: Event)
    ensures Applied(l, held, at, events + [e]) == ApplyEvent(Applied(l, held, at, events), held, at, e)
    decreases |events|
  {
    if events == [] {
      assert events + [e] == [e];
      assert Applied(ApplyEvent(l, held, at, e), held, at, []) == ApplyEvent(l, held, at, e);
    } else {
      AppliedAppends(ApplyEvent(l, held, at, events[0]), held, at, events[1..], e);
      assert (events + [e])[1..] == events[1..] + [e];
    }
  }

  /** The events a wrapper goes through, kept with the Enforcement object it goes through them on. */
  class Journal {
    const enforcement: Enforcement
    const held: real
    const recordedAt: real
    var events: seq<Event>
    ghost const start: Ledger

    ghost predicate Valid()
      reads this, enforcement
    {
      enforcement.View() == Applied(start, held, recordedAt, events)
    }

    constructor (enforcement: Enforcement, held: real, recordedAt: real)
      ensures Valid() && events == [] && this.enforcement == enforcement
      ensures start == enforcement.View() && this.held == held && this.recordedAt == recordedAt
    {
      this.enforcement := enforcement;
      this.held := held;
      this.recordedAt := recordedAt;
      events := [];
      start := enforcement.View();
    }

    method Ask(what: Awaited, answer: Answer)
      requires Valid()
      modifies this`events
      ensures Valid() && events == old(events) + [Asked(what, answer)]
    {
      AppliedAppends(start, held, recordedAt, events, Asked(what, answer));
      events := events + [Asked(what, answer)];
    }

    method Release()
      requires Valid()
      modifies this`events, enforcement
      ensures Valid() && events == old(events) + [Released]
    {
      AppliedAppends(start, held, recordedAt, events, Released);
      enforcement.ReleaseProjection(held);
      events := events + [Released];
    }

    method RecordCost(cost: Option<real>)
      requires Valid()
      modifies this`events, enforcement
      ensures Valid() && events == old(events) + [Recorded(cost)]
      ensures enforcement.cumulativeCostUsd == old(enforcement.cumulativeCostUsd) + Spend(cost)
    {
      AppliedAppends(start, held, recordedAt, events, Recorded(cost));
      var _ := enforcement.RecordCall(recordedAt, cost, false, held);
      events := events + [Recorded(cost)];
    }
  }

  /** The reservation and the start mark, unwinding the local hold when either is refused. */
  method Open(j: Journal, s: Script) returns (ending: Option<Ending>)
    requires j.Valid()
    modifies j, j.enforcement
    ensures j.Valid()
    ensures ending.None? ==> s.reserve.Replied? && s.start.Replied?
                             && j.events == old(j.events) + [Asked(Reserve, s.reserve), Asked(StartMark, s.start)]
    ensures ending.Some? ==> forall isAsync ::
              CallPath(s, isAsync).ending == ending.value && j.events == old(j.events) + CallPath(s, isAsync).events
  {
    j.Ask(Reserve, s.reserve);
    if s.reserve.Raised? {
      j.Release();
      return Some(Denied);
    } else if s.reserve.Cancelled? {
      return Some(Unwound);
    }
    j.Ask(StartMark, s.start);
    if s.start.Raised? {
      j.Release();
      return Some(NotStarted);
    } else if s.start.Cancelled? {
      return Some(Unwound);
    }
    return None;
  }

  method Fail(j: Journal, s: Script, shared: bool) returns (ending: Ending)
    requires j.Valid()
    modifies j, j.enforcement
    ensures j.Valid() && ending == Failure(s, shared).ending
    ensures j.events == old(j.events) + Failure(s, shared).events
  {
    if shared {
      j.Ask(if s.provider.Rejects? then MarkZero else MarkUnknown, s.first);
      if !s.first.Replied? {
        return Unwound;
      }
    }
    j.RecordCost(Some(0.0));
    return ProviderFailed;
  }

  method SettleSync(j: Journal, s: Script, shared: bool) returns (ending: Ending)
    requires j.Valid() && s.provider.Responds?
    modifies j, j.enforcement
    ensures j.Valid() && ending == SyncSettle(s, shared).ending
    ensures j.events == old(j.events) + SyncSettle(s, shared).events
    ensures ending.Returned? <==> Settles(s, shared, false)
    ensures j.enforcement.cumulativeCostUsd == old(j.enforcement.cumulativeCostUsd) + CostOf(s, ending)
  {
    hide Applied, ApplyEvent;
    var cost := s.provider.cost;
    if shared {
      if cost.None? || s.provider.held {
        j.Ask(MarkUnknown, s.first);
        if !s.first.Replied? {
          return Unwound;
        }
      } else {
        j.Ask(Reconcile(cost.value), s.first);
        if !s.first.Replied? {
          return Unwound;
        }
        if !s.first.ok {
          j.Ask(MarkKnown(cost.value), s.second);
          if !s.second.Replied? {
            return Unwound;
          }
        }
      }
    }
    j.RecordCost(cost);
    return Returned;
  }

  /** A settlement that raises leaves the reservation pending without losing the response. */
  method SettleAsync(j: Journal, s: Script, shared: bool) returns (ending: Ending)
    requires j.Valid() && s.provider.Responds?
    modifies j, j.enforcement
    ensures j.Valid() && ending == AsyncSettle(s, shared).ending
    ensures j.events == old(j.events) + AsyncSettle(s, shared).events
    ensures ending.Returned? <==> Settles(s, shared, true)
    ensures j.enforcement.cumulativeCostUsd == old(j.enforcement.cumulativeCostUsd) + CostOf(s, ending)
  {
    hide Applied, ApplyEvent;
    var cost := s.provider.cost;
    if shared {
      if cost.None? || s.provider.held {
        j.Ask(MarkUnknown, s.first);
        if !s.first.Replied? {
          return Unwound;
        }
      } else {
        j.Ask(Reconcile(cost.value), s.first);
        if !s.first.Replied? {
          j.Ask(MarkUnsettled, s.second);
          if s.first.Cancelled? || s.second.Cancelled? {
            return Unwound;
          }
        }
        if s.first != Replied(true) {
          var again := if s.first.Replied? then s.second else s.third;
          j.Ask(MarkKnown(cost.value), again);
          if again.Cancelled? {
            return Unwound;
          }
        }
      }
    }
    j.RecordCost(cost);
    return Returned;
  }

  /** Everything after the provider call. */
  method Concluded(j: Journal, s: Script, shared: bool, isAsync: bool) returns (ending: Ending)
    requires j.Valid()
    modifies j, j.enforcement
    ensures j.Valid() && ending == Conclude(s, shared, isAsync).ending
    ensures j.events == old(j.events) + Conclude(s, shared, isAsync).events
  {
    if s.provider.Interrupted? {
      if isAsync && shared {
        j.Ask(MarkInterrupted, s.first);
      }
      ending := Unwound;
    } else if s.provider.Rejects? || s.provider.Errors? {
      ending := Fail(j, s, shared);
    } else if isAsync {
      ending := SettleAsync(j, s, shared);
    } else {
      ending := SettleSync(j, s, shared);
    }
  }

  lemma PathFromDispatch(s: Script, isAsync: bool)
    ensures s.reserve.Replied? && s.start.Replied? ==>
              var p := CallPath(s, isAsync);
              var c := Conclude(s, s.reserve.ok, isAsync);
              && p.ending == c.ending
              && p.events == [Asked(Reserve, s.reserve), Asked(StartMark, s.start)] + [Asked(Dispatch, ProviderAnswer(s.provider))] + c.events
  {
    hide Conclude;
  }

  lemma {:induction false} AppliedUpToDischarge(l: Ledger, held: real, at: real, events: seq<Event>)
    requires forall i :: 0 <= i < |events| && Discharges(events[i]) ==> i == |events| - 1
    ensures Applied(l, held, at, events)
            == if events != [] && Discharges(events[|events| - 1]) then ApplyEvent(l, held, at, events[|events| - 1]) else l
    decreases |events|
  {
    if events != [] {
      if |events| > 1 {
        assert !Discharges(events[0]);
        assert forall i :: 0 <= i < |events[1..]| ==> events[1..][i] == events[i + 1];
      }
      AppliedUpToDischarge(ApplyEvent(l, held, at, events[0]), held, at, events[1..]);
      if |events| == 1 { assert events[1..] == []; }
    }
  }

  /** What a call that ended like this has cost. */
  function CostOf(s: Script, ending: Ending): real {
    if ending.Returned? && s.provider.Responds? then Spend(s.provider.cost) else 0.0
  }

  /** The account once an admitted call is over: the provider's cost of a call that returned is added and no
      other cost, its time is noted if it reached an answer, and its hold is gone unless the call was unwound. */
  predicate Accounts(before: Ledger, after: Ledger, s: Script, ending: Ending, projected: real, recordedAt: real) {
    && after.cap == before.cap && after.limit == before.limit && after.window == before.window
    && after.cumulative == before.cumulative + CostOf(s, ending)
    && (ending.Returned? || ending.ProviderFailed? ==> after.stamps != [] && after.stamps[|after.stamps| - 1] == recordedAt)
    && (Sound(before) ==>
          after.pending == before.pending + if ending.Unwound? && before.cap.Some? then Max0(projected) else 0.0)
  }

  lemma CallAccounts(l: Ledger, s: Script, isAsync: bool, projected: real, admittedAt: real, recordedAt: real)
    requires Admit(l, admittedAt, projected).1.Ok?
    ensures var (m, held) := Admit(l, admittedAt, projected);
            var p := CallPath(s, isAsync);
            Accounts(l, Applied(m, held.value, recordedAt, p.events), s, p.ending, projected, recordedAt)
  {
    DischargeIsTheCallsOwn(s, isAsync);
    var p := CallPath(s, isAsync);
    hide CallPath;
    AppliedUpToDischarge(Admit(l, admittedAt, projected).0, Admit(l, admittedAt, projected).1.value, recordedAt, p.events);
    hide Applied, DropOlder;
  }

  /** The sync wrapper, and its async twin. */
  method GuardedCall(e: Enforcement, s: Script, isAsync: bool, projected: real, admittedAt: real, recordedAt: real)
    returns (admitted: Result<real, Block>, path: Path)
    modifies e
    ensures admitted == Admit(old(e.View()), admittedAt, projected).1
    ensures path == if admitted.Ok? then CallPath(s, isAsync) else Path([], Denied)
    ensures e.View() == var l := Admit(old(e.View()), admittedAt, projected).0;
                        if admitted.Ok? then Applied(l, admitted.value, recordedAt, path.events) else l
    ensures admitted.Ok? ==>
              EndsAs(s, isAsync, path.ending) && Accounts(old(e.View()), e.View(), s, path.ending, projected, recordedAt)
  {
    hide CallPath, Conclude, Applied, Admit, EndsAs, Accounts;
    PathFromDispatch(s, isAsync);
    ghost var before := e.View();
    admitted := e.CheckLocal(admittedAt, projected);
    if admitted.Err? {
      return admitted, Path([], Denied);
    }
    DischargeIsTheCallsOwn(s, isAsync);
    CallAccounts(before, s, isAsync, projected, admittedAt, recordedAt);
    var j := new Journal(e, admitted.value, recordedAt);
    var refused := Open(j, s);
    if refused.Some? {
      return admitted, Path(j.events, refused.value);
    }
    j.Ask(Dispatch, ProviderAnswer(s.provider));
    var ending := Concluded(j, s, s.reserve.ok, isAsync);
    return admitted, Path(j.events, ending);
  }

  // ------------------------------------------------------------------ interleaved

  /** An admitted call: what it holds, the path its script sends it down, and how far it has come. */
  datatype Call = Call(held: real, script: Script, path: seq<Event>, isAsync: bool, done: nat)

  datatype System = System(budget: State, calls: map<nat, Call>)

  datatype Move =
    | Enter(id: nat, now: real, projected: real, script: Script, isAsync: bool)
    | Advance(id: nat, now: real)

  /** The step of the shared object that an event is, if it is one. */
  function StepOf(id: nat, now: real, e: Event): Option<Step> {
    match e
    case Asked(_, _) => None
    case Released => Some(Release(id))
    case Recorded(cost) => Some(Finish(id, now, cost))
  }

  predicate Goes(a: System, m: Move, b: System) {
    match m
    case Enter(id, now, projected, script, isAsync) =>
      && id !in a.calls && Enabled(a.budget, Admission(id, now, projected))
      && b.budget == SharedBudget.Next(a.budget, Admission(id, now, projected))
      && b.calls == if id in b.budget.holds
                    then a.calls[id := Call(b.budget.holds[id], script, CallPath(script, isAsync).events, isAsync, 0)]
                    else a.calls
    case Advance(id, now) =>
      && id in a.calls && a.calls[id].done < |a.calls[id].path|
      && b.calls == a.calls[id := a.calls[id].(done := a.calls[id].done + 1)]
      && match StepOf(id, now, a.calls[id].path[a.calls[id].done])
         case None => b.budget == a.budget
         case Some(step) => Enabled(a.budget, step) && b.budget == SharedBudget.Next(a.budget, step)
  }

  /** A call has its hold exactly while none of its events so far discharged it. */
  predicate HoldsItsOwn(holds: map<nat, real>, id: nat, c: Call) {
    && c.done <= |c.path|
    && Count(c.path) == (if Disturbed(c.path, c.isAsync) then 0 else 1)
    && (id in holds <==> Count(c.path[..c.done]) == 0)
    && (id in holds ==> holds[id] == c.held)
  }

  predicate Consistent(a: System) {
    && (forall id <- a.budget.holds :: id in a.calls)
    && forall id <- a.calls :: HoldsItsOwn(a.budget.holds, id, a.calls[id])
  }

  lemma CountOfNext(path: seq<Event>, done: nat)
    requires done < |path|
    ensures Count(path[..done + 1]) == Count(path[..done]) + if Discharges(path[done]) then 1 else 0
    ensures Count(path[..done + 1]) <= Count(path)
  {
    assert path[..done + 1] == path[..done] + [path[done]];
    CountAppends(path[..done], [path[done]]);
    assert path == path[..done + 1] + path[done + 1..];
    CountAppends(path[..done + 1], path[done + 1..]);
  }

  /** No call ever waits for a hold that is gone: whatever event is next can happen. */
  lemma NextEventIsEnabled(a: System, id: nat, now: real)
    requires Consistent(a) && a.budget.clock <= now
    requires id in a.calls && a.calls[id].done < |a.calls[id].path|
    ensures exists b :: Goes(a, Advance(id, now), b)
  {
    var c := a.calls[id];
    CountOfNext(c.path, c.done);
    var calls := a.calls[id := c.(done := c.done + 1)];
    match StepOf(id, now, c.path[c.done])
    case None => assert Goes(a, Advance(id, now), System(a.budget, calls));
    case Some(step) =>
      assert Enabled(a.budget, step);
      assert Goes(a, Advance(id, now), System(SharedBudget.Next(a.budget, step), calls));
  }

  lemma EnterConsistent(a: System, m: Move, b: System)
    requires Consistent(a) && Goes(a, m, b) && m.Enter?
    ensures Consistent(b)
  {
    HoldDischargedExactlyOnce(m.script, m.isAsync);
    var path := CallPath(m.script, m.isAsync).events;
    assert path[..0] == [];
  }

  /** What an advance does to the holds: a discharging event takes the call's own away. */
  lemma AdvanceHolds(a: System, m: Move, b: System)
    requires Consistent(a) && Goes(a, m, b) && m.Advance?
    ensures m.id in a.calls
    ensures var c := a.calls[m.id];
            && c.done < |c.path| && b.calls == a.calls[m.id := c.(done := c.done + 1)]
            && b.budget.holds == if Discharges(c.path[c.done]) then a.budget.holds - {m.id} else a.budget.holds
  {
    hide HoldsItsOwn, Record, Discharge;
  }

  lemma AdvanceConsistent(a: System, m: Move, b: System)
    requires Consistent(a) && Goes(a, m, b) && m.Advance?
    ensures Consistent(b)
  {
    hide Goes, Count, Disturbed, Discharges;
    AdvanceHolds(a, m, b);
    var c := a.calls[m.id];
    CountOfNext(c.path, c.done);
    assert HoldsItsOwn(a.budget.holds, m.id, c);
    forall id | id in b.calls && id != m.id ensures HoldsItsOwn(b.budget.holds, id, b.calls[id]) {
      assert HoldsItsOwn(a.budget.holds, id, a.calls[id]);
    }
  }

  ghost predicate IsSystemRun(u: Setup, systems: seq<System>, moves: seq<Move>) {
    && |systems| == |moves| + 1
    && systems[0] == System(Start(u, systems[0].budget.clock), map[])
    && forall i :: 0 <= i < |moves| ==> Goes(systems[i], moves[i], systems[i + 1])
  }

  lemma {:induction false} SystemInvariant(u: Setup, systems: seq<System>, moves: seq<Move>, n: nat)
    requires u.cap.Some? ==> u.cap.value >= 0.0
    requires IsSystemRun(u, systems, moves) && n < |systems|
    ensures Consistent(systems[n]) && Accounted(u, systems[n].budget)
  {
    if n > 0 {
      SystemInvariant(u, systems, moves, n - 1);
      var a, m, b := systems[n - 1], moves[n - 1], systems[n];
      assert Goes(a, m, b);
      if m.Enter? {
        EnterConsistent(a, m, b);
        AccountedInductive(u, a.budget, Admission(m.id, m.now, m.projected));
      } else {
        AdvanceConsistent(a, m, b);
        var c := a.calls[m.id];
        match StepOf(m.id, m.now, c.path[c.done])
        case None =>
        case Some(step) => AccountedInductive(u, a.budget, step);
      }
    }
  }

  /** Any number of guarded calls, interleaved in any order, with any replies: the cap holds up to what
      finished calls overran, and once every call has run its course the only exposure still pending is
      the holds of calls that were disturbed. */
  lemma GuardedCallsKeepTheCap(u: Setup, systems: seq<System>, moves: seq<Move>, n: nat)
    requires u.cap.Some? && u.cap.value >= 0.0
    requires IsSystemRun(u, systems, moves) && n < |systems|
    ensures var b := systems[n].budget;
            && b.ledger.cumulative + b.ledger.pending <= u.cap.value + b.overshoot
            && b.ledger.pending == Held(b.holds)
    ensures (forall id <- systems[n].calls :: systems[n].calls[id].done == |systems[n].calls[id].path|) ==>
              systems[n].budget.holds.Keys
              == set id | id in systems[n].calls && Disturbed(systems[n].calls[id].path, systems[n].calls[id].isAsync)
  {
    SystemInvariant(u, systems, moves, n);
    var a := systems[n];
    if forall id <- a.calls :: a.calls[id].done == |a.calls[id].path| {
      forall id | id in a.calls
        ensures id in a.budget.holds <==> Disturbed(a.calls[id].path, a.calls[id].isAsync)
      {
        assert a.calls[id].path[..a.calls[id].done] == a.calls[id].path;
      }
    }
  }

  /** With no disturbance at all, nothing stays pending. */
  lemma UndisturbedCallsLeaveNothingPending(u: Setup, systems: seq<System>, moves: seq<Move>, n: nat)
    requires u.cap.Some? && u.cap.value >= 0.0
    requires IsSystemRun(u, systems, moves) && n < |systems|
    requires forall id <- systems[n].calls ::
               systems[n].calls[id].done == |systems[n].calls[id].path|
               && !Disturbed(systems[n].calls[id].path, systems[n].calls[id].isAsync)
    ensures systems[n].budget.ledger.pending == 0.0
  {
    GuardedCallsKeepTheCap(u, systems, moves, n);
    var holds := systems[n].budget.holds;
    assert holds.Keys == {};
    assert holds == map[];
  }

  // ------------------------------------------------------------------ what is spent

  /** The call has run its course and returned to its caller. */
  predicate HasReturned(c: Call) {
    c.done == |c.path| && c.script.provider.Responds? && EndsAs(c.script, c.isAsync, Returned)
  }

  function SpentBy(c: Call): real { if HasReturned(c) then Spend(c.script.provider.cost) else 0.0 }

  /** The provider costs of the calls that returned. */
  ghost function TotalSpent(calls: map<nat, Call>): real {
    if calls == map[] then 0.0
    else var id :| id in calls; SpentBy(calls[id]) + TotalSpent(calls - {id})
  }

  lemma {:induction false} TotalSplits(calls: map<nat, Call>, id: nat)
    requires id in calls
    ensures TotalSpent(calls) == SpentBy(calls[id]) + TotalSpent(calls - {id})
    decreases |calls|
  {
    hide SpentBy;
    var j :| j in calls && TotalSpent(calls) == SpentBy(calls[j]) + TotalSpent(calls - {j});
    if j != id {
      TotalSplits(calls - {j}, id);
      TotalSplits(calls - {id}, j);
      assert calls - {j} - {id} == calls - {id} - {j};
    }
  }

  lemma TotalChanges(calls: map<nat, Call>, id: nat, c: Call)
    ensures TotalSpent(calls[id := c]) == TotalSpent(calls) - (if id in calls then SpentBy(calls[id]) else 0.0) + SpentBy(c)
  {
    hide SpentBy;
    TotalSplits(calls[id := c], id);
    if id in calls {
      TotalSplits(calls, id);
      assert calls[id := c] - {id} == calls - {id};
    } else {
      assert calls[id := c] - {id} == calls;
    }
  }

  predicate OwnPath(c: Call) { c.path == CallPath(c.script, c.isAsync).events && c.done <= |c.path| }

  /** What one more event of a call adds to the spend. */
  lemma EventSpends(c: Call)
    requires OwnPath(c) && c.done < |c.path|
    ensures var e := c.path[c.done];
            SpentBy(c.(done := c.done + 1)) == (if e.Recorded? then Spend(e.cost) else 0.0) && SpentBy(c) == 0.0
  {
    DischargeIsTheCallsOwn(c.script, c.isAsync);
    var p := CallPath(c.script, c.isAsync);
    hide CallPath;
    assert EndsAs(c.script, c.isAsync, Returned) <==> p.ending.Returned?;
  }

  ghost predicate Tallied(a: System) {
    (forall id <- a.calls :: OwnPath(a.calls[id])) && a.budget.ledger.cumulative == TotalSpent(a.calls)
  }

  lemma StepSpends(s: State, step: Step)
    requires Enabled(s, step)
    ensures SharedBudget.Next(s, step).ledger.cumulative
            == s.ledger.cumulative + match step case Finish(_, _, cost) => Spend(cost) case Meter(_, cost) => Spend(cost) case _ => 0.0
  {
    hide DropOlder;
  }

  lemma MoveTallied(a: System, m: Move, b: System)
    requires Tallied(a) && Goes(a, m, b)
    ensures Tallied(b)
  {
    hide CallPath, SharedBudget.Next, Enabled, SpentBy;
    match m
    case Enter(id, now, projected, script, isAsync) =>
      StepSpends(a.budget, Admission(id, now, projected));
      if id in b.budget.holds {
        var c := Call(b.budget.holds[id], script, CallPath(script, isAsync).events, isAsync, 0);
        TotalChanges(a.calls, id, c);
        NothingSpentYet(c);
      }
    case Advance(id, now) =>
      var c := a.calls[id];
      EventSpends(c);
      TotalChanges(a.calls, id, c.(done := c.done + 1));
      var step := StepOf(id, now, c.path[c.done]);
      if step.Some? { StepSpends(a.budget, step.value); }
  }

  lemma NothingSpentYet(c: Call)
    requires OwnPath(c) && c.done == 0
    ensures SpentBy(c) == 0.0
  {
    DischargeIsTheCallsOwn(c.script, c.isAsync);
    hide CallPath;
  }

  /** However guarded calls interleave, and whatever is replied: the recorded spend is the sum of what the
      providers' responses cost in the calls that have returned. */
  lemma {:induction false} SpendIsWhatReturned(u: Setup, systems: seq<System>, moves: seq<Move>, n: nat)
    requires IsSystemRun(u, systems, moves) && n < |systems|
    ensures forall id <- systems[n].calls :: OwnPath(systems[n].calls[id])
    ensures systems[n].budget.ledger.cumulative == TotalSpent(systems[n].calls)
  {
    if n > 0 {
      hide Goes;
      SpendIsWhatReturned(u, systems, moves, n - 1);
      MoveTallied(systems[n - 1], moves[n - 1], systems[n]);
    }
  }
}
