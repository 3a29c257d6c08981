/** One Enforcement object shared by any number of callers.

    Every lock-held section is one atomic step, and the callers' steps interleave in any order.
    The clock is read before the lock is taken; it is assumed nondecreasing in lock order. A hold
    is discharged at most once, by a release or by the call's record; a cancelled caller may never
    discharge it. The theorems hold in every state any such run reaches. */
module SharedBudget {
  import opened Wrappers
  import opened LocalBudget

  datatype Setup = Setup(cap: Option<real>, limit: Option<int>, window: real)

  /** holds maps every admitted call that was neither released nor recorded to its projection;
      calls maps every recorded call's time, oldest first; overshoot adds up by how much finished
      calls cost more than they had held. */
  datatype State = State(ledger: Ledger, clock: real, holds: map<nat, real>, calls: seq<real>, overshoot: real)

  datatype Step =
    | Snapshot(now: real)
    | Admission(id: nat, now: real, projected: real)
    | Release(id: nat)
    | Finish(id: nat, now: real, cost: Option<real>)
    | Meter(now: real, cost: Option<real>)

  function Start(u: Setup, clock: real): State {
    State(Ledger(u.cap, u.limit, u.window, 0.0, 0.0, []), clock, map[], [], 0.0)
  }

  /** Which steps the callers may take: a fresh id per call, no hold discharged twice. */
  predicate Enabled(s: State, step: Step) {
    match step
    case Snapshot(now) => s.clock <= now
    case Admission(id, now, _) => s.clock <= now && id !in s.holds
    case Release(id) => id in s.holds
    case Finish(id, now, _) => s.clock <= now && id in s.holds
    case Meter(now, _) => s.clock <= now
  }

  function Overrun(cost: Option<real>, held: real): real {
    Max0(Spend(cost) - Max0(held))
  }

  function Next(s: State, step: Step): State
    requires Enabled(s, step)
  {
    match step
    case Snapshot(now) => s.(ledger := Prune(s.ledger, now), clock := now)
    case Admission(id, now, projected) =>
      var (l, r) := Admit(s.ledger, now, projected);
      s.(ledger := l, clock := now, holds := if r.Ok? then s.holds[id := r.value] else s.holds)
    case Release(id) =>
      s.(ledger := Discharge(s.ledger, s.holds[id]), holds := s.holds - {id})
    case Finish(id, now, cost) =>
      s.(ledger := Record(s.ledger, now, cost, s.holds[id]), clock := now, holds := s.holds - {id},
         calls := s.calls + [now], overshoot := s.overshoot + Overrun(cost, s.holds[id]))
    case Meter(now, cost) =>
      s.(ledger := Record(s.ledger, now, cost, 0.0), clock := now,
         calls := s.calls + [now], overshoot := s.overshoot + Overrun(cost, 0.0))
  }

  predicate Moves(k: nat, states: seq<State>, steps: seq<Step>, i: nat)
    requires i < |steps| < |states|
  {
    && Enabled(states[i], steps[i])
    && states[i + 1] == Next(states[i], steps[i])
    && |states[i + 1].holds| <= k
  }

  /** states is a run under setup u in which never more than k admitted calls are unrecorded. */
  predicate IsRun(u: Setup, k: nat, states: seq<State>, steps: seq<Step>) {
    && |states| == |steps| + 1
    && states[0] == Start(u, states[0].clock)
    && forall i :: 0 <= i < |steps| ==> Moves(k, states, steps, i)
  }

  // ------------------------------------------------------------------ sums of holds

  /** Sum of the positive projections. */
  ghost function Held(m: map<nat, real>): real {
    if m == map[] then 0.0
    else var k :| k in m; Max0(m[k]) + Held(m - {k})
  }

  lemma {:induction false} HeldSplits(m: map<nat, real>, k: nat)
    requires k in m
    ensures Held(m) == Max0(m[k]) + Held(m - {k})
    decreases |m|
  {
    var j :| j in m && Held(m) == Max0(m[j]) + Held(m - {j});
    if j != k {
      HeldSplits(m - {j}, k);
      HeldSplits(m - {k}, j);
      assert m - {j} - {k} == m - {k} - {j};
    }
  }

  lemma HeldGrows(m: map<nat, real>, k: nat, v: real)
    requires k !in m
    ensures Held(m[k := v]) == Held(m) + Max0(v)
  {
    HeldSplits(m[k := v], k);
    assert m[k := v] - {k} == m;
  }

  lemma {:induction false} HeldIsNonNegative(m: map<nat, real>)
    ensures Held(m) >= 0.0
    ensures forall k <- m :: Max0(m[k]) <= Held(m)
    decreases |m|
  {
    if m != map[] {
      forall k | k in m ensures Max0(m[k]) <= Held(m) && Held(m) >= 0.0 {
        HeldSplits(m, k);
        HeldIsNonNegative(m - {k});
      }
      var k :| k in m;
      HeldSplits(m, k);
      HeldIsNonNegative(m - {k});
    }
  }

  // ------------------------------------------------------------------ money

  /** The cap is accounted for: what is pending is what is held, and nothing is lost to the clamp. */
  ghost predicate Accounted(u: Setup, s: State) {
    && s.ledger.cap == u.cap && s.ledger.limit == u.limit && s.ledger.window == u.window
    && s.ledger.pending == (if u.cap.Some? then Held(s.holds) else 0.0)
    && s.overshoot >= 0.0
    && (u.cap.Some? ==> s.ledger.cumulative + s.ledger.pending <= u.cap.value + s.overshoot)
  }

  lemma AccountedInductive(u: Setup, s: State, step: Step)
    requires u.cap.Some? ==> u.cap.value >= 0.0
    requires Accounted(u, s) && Enabled(s, step)
    ensures Accounted(u, Next(s, step))
  {
    match step
    case Admission(id, now, projected) => HeldGrows(s.holds, id, projected);
    case Release(id) => HeldSplits(s.holds, id); HeldIsNonNegative(s.holds - {id});
    case Finish(id, now, cost) => HeldSplits(s.holds, id); HeldIsNonNegative(s.holds - {id});
    case _ =>
  }

  lemma {:induction false} AccountedAlways(u: Setup, k: nat, states: seq<State>, steps: seq<Step>, n: nat)
    requires u.cap.Some? ==> u.cap.value >= 0.0
    requires IsRun(u, k, states, steps) && n < |states|
    ensures Accounted(u, states[n])
  {
    if n > 0 {
      AccountedAlways(u, k, states, steps, n - 1);
      assert Moves(k, states, steps, n - 1);
      AccountedInductive(u, states[n - 1], steps[n - 1]);
    }
  }

  /** Budget safety on every run: pending exposure is exactly the outstanding holds, and recorded
      plus pending spend stays within the cap plus what finished calls overran their holds. */
  lemma BudgetSafety(u: Setup, k: nat, states: seq<State>, steps: seq<Step>, n: nat)
    requires u.cap.Some? && u.cap.value >= 0.0
    requires IsRun(u, k, states, steps) && n < |states|
    ensures states[n].ledger.pending == Held(states[n].holds) >= 0.0
    ensures states[n].ledger.cumulative + states[n].ledger.pending <= u.cap.value + states[n].overshoot
  {
    AccountedAlways(u, k, states, steps, n);
    HeldIsNonNegative(states[n].holds);
  }

  /** The guard `max(0, ...)` in a discharge never cuts anything off. */
  lemma ClampNeverCuts(u: Setup, k: nat, states: seq<State>, steps: seq<Step>, n: nat, id: nat)
    requires u.cap.Some? && u.cap.value >= 0.0
    requires IsRun(u, k, states, steps) && n < |states| && id in states[n].holds
    ensures Max0(states[n].holds[id]) <= states[n].ledger.pending
    ensures Discharge(states[n].ledger, states[n].holds[id]).pending
            == states[n].ledger.pending - Max0(states[n].holds[id])
  {
    AccountedAlways(u, k, states, steps, n);
    HeldIsNonNegative(states[n].holds);
  }

  /** Every call of the run costs at most what it held. */
  ghost predicate WithinProjection(states: seq<State>, steps: seq<Step>)
    requires |states| == |steps| + 1
  {
    forall i :: 0 <= i < |steps| ==>
      match steps[i]
      case Finish(id, _, cost) => id in states[i].holds ==> Spend(cost) <= Max0(states[i].holds[id])
      case Meter(_, cost) => Spend(cost) <= 0.0
      case _ => true
  }

  lemma {:induction false} NoOvershoot(u: Setup, k: nat, states: seq<State>, steps: seq<Step>, n: nat)
    requires IsRun(u, k, states, steps) && n < |states| && WithinProjection(states, steps)
    ensures states[n].overshoot == 0.0
  {
    if n > 0 {
      NoOvershoot(u, k, states, steps, n - 1);
      assert Moves(k, states, steps, n - 1);
    }
  }

  /** Spend and the holds still out never pass the cap together on a run whose calls settle within their
      projections. */
  lemma SpendNeverPassesTheCap(u: Setup, k: nat, states: seq<State>, steps: seq<Step>, n: nat)
    requires u.cap.Some? && u.cap.value >= 0.0
    requires IsRun(u, k, states, steps) && n < |states| && WithinProjection(states, steps)
    ensures states[n].ledger.cumulative + Held(states[n].holds) <= u.cap.value
    ensures states[n].ledger.cumulative + states[n].ledger.pending <= u.cap.value
    ensures states[n].ledger.cumulative <= u.cap.value
  {
    BudgetSafety(u, k, states, steps, n);
    NoOvershoot(u, k, states, steps, n);
  }

  /** Discharging a hold twice is what the clamp hides: with a cap of 10, holds of 6 and 4, and the
      first discharged twice, a further call of 10 is admitted and 14 can be spent. */
  lemma DoubleDischargeBreaksTheCap()
    ensures var l0 := Ledger(Some(10.0), None, 60.0, 0.0, 0.0, []);
            var l2 := Admit(Admit(l0, 0.0, 6.0).0, 0.0, 4.0).0;
            var l4 := Discharge(Discharge(l2, 6.0), 6.0);
            var (l5, r) := Admit(l4, 0.0, 10.0);
            && r.Ok?
            && Record(Record(l5, 0.0, Some(10.0), 10.0), 0.0, Some(4.0), 4.0).cumulative == 14.0
  {
    var l0 := Ledger(Some(10.0), None, 60.0, 0.0, 0.0, []);
    var l4 := Discharge(Discharge(Admit(Admit(l0, 0.0, 6.0).0, 0.0, 4.0).0, 6.0), 6.0);
    assert l4.pending == 0.0;
  }

  // ------------------------------------------------------------------ rate

  function RateBound(limit: int, k: nat): int { if limit >= 1 then limit - 1 + k else 0 }

  predicate InOrder(calls: seq<real>) {
    forall i, j :: 0 <= i <= j < |calls| ==> calls[i] <= calls[j]
  }

  /** No two recorded calls within one window lie further apart in the record than the bound. */
  predicate Spread(calls: seq<real>, window: real, bound: int) {
    forall i, j :: 0 <= i <= j < |calls| && calls[j] - calls[i] <= window ==> j - i + 1 <= bound
  }

  /** The timestamps kept are a tail of the recorded calls, and whatever is cut off is too old. */
  predicate KeepsTail(calls: seq<real>, stamps: seq<real>, clock: real, window: real) {
    && |stamps| <= |calls|
    && (forall i :: |calls| - |stamps| <= i < |calls| ==> stamps[i - (|calls| - |stamps|)] == calls[i])
    && (forall i :: 0 <= i < |calls| ==> calls[i] <= clock)
    && (forall i :: 0 <= i < |calls| - |stamps| ==> calls[i] < clock - window)
  }

  predicate KeepsWindow(s: State) {
    KeepsTail(s.calls, s.ledger.stamps, s.clock, s.ledger.window)
  }

  predicate Paced(limit: int, k: nat, s: State) {
    && s.ledger.limit == Some(limit)
    && InOrder(s.calls) && KeepsWindow(s) && Spread(s.calls, s.ledger.window, RateBound(limit, k))
    && |s.holds| <= k
    && |s.ledger.stamps| + |s.holds| <= RateBound(limit, k)
  }

  function Pruned(s: State, now: real): State {
    s.(ledger := Prune(s.ledger, now), clock := now)
  }

  lemma DropKeepsTail(calls: seq<real>, stamps: seq<real>, clock: real, window: real, now: real)
    requires KeepsTail(calls, stamps, clock, window) && clock <= now
    ensures KeepsTail(calls, DropOlder(stamps, now - window), now, window)
    ensures |DropOlder(stamps, now - window)| <= |stamps|
  {
    DropOlderKeepsASuffix(stamps, now - window);
    var kept := DropOlder(stamps, now - window);
    var off := |calls| - |stamps|;
    forall i | 0 <= i < |calls| - |kept| ensures calls[i] < now - window {
      if i >= off { assert calls[i] == stamps[i - off]; }
    }
  }

  lemma PruneKeepsWindow(s: State, now: real)
    requires KeepsWindow(s) && s.clock <= now
    ensures KeepsWindow(Pruned(s, now)) && |Pruned(s, now).ledger.stamps| <= |s.ledger.stamps|
  {
    DropKeepsTail(s.calls, s.ledger.stamps, s.clock, s.ledger.window, now);
  }

  lemma AppendKeepsWindow(s: State, t: State)
    requires KeepsWindow(s) && t.calls == s.calls + [s.clock] && t.clock == s.clock
    requires t.ledger.window == s.ledger.window && t.ledger.stamps == s.ledger.stamps + [s.clock]
    ensures KeepsWindow(t)
  {
  }

  lemma AppendSpreads(s: State, bound: int)
    requires KeepsWindow(s) && Spread(s.calls, s.ledger.window, bound) && |s.ledger.stamps| + 1 <= bound
    ensures Spread(s.calls + [s.clock], s.ledger.window, bound)
  {
    var calls := s.calls + [s.clock];
    forall i, j | 0 <= i <= j < |calls| && calls[j] - calls[i] <= s.ledger.window
      ensures j - i + 1 <= bound
    {
      if j < |s.calls| {
        assert s.calls[j] - s.calls[i] <= s.ledger.window;
      } else {
        assert i >= |s.calls| - |s.ledger.stamps|;
      }
    }
  }

  lemma OneFewer(m: map<nat, real>, id: nat)
    requires id in m
    ensures |m - {id}| == |m| - 1
  {
    assert (m - {id}).Keys == m.Keys - {id};
  }

  lemma FinishPaced(limit: int, k: nat, s: State, id: nat, now: real, cost: Option<real>)
    requires Paced(limit, k, s) && Enabled(s, Finish(id, now, cost))
    ensures Paced(limit, k, Next(s, Finish(id, now, cost)))
  {
    var p := Pruned(s, now);
    var t := Next(s, Finish(id, now, cost));
    PruneKeepsWindow(s, now);
    OneFewer(s.holds, id);
    AppendKeepsWindow(p, t);
    AppendSpreads(p, RateBound(limit, k));
  }

  lemma AdmissionEffect(s: State, id: nat, now: real, projected: real)
    requires Enabled(s, Admission(id, now, projected))
    ensures var t := Next(s, Admission(id, now, projected));
            var p := Pruned(s, now);
            && t.ledger.stamps == p.ledger.stamps && t.ledger.limit == s.ledger.limit && t.ledger.window == s.ledger.window
            && t.calls == s.calls && t.clock == now
            && (t.holds == s.holds
                || (|t.holds| == |s.holds| + 1 && (s.ledger.limit.Some? ==> |p.ledger.stamps| < s.ledger.limit.value)))
  {
  }

  lemma AdmissionPaced(limit: int, k: nat, s: State, id: nat, now: real, projected: real)
    requires Paced(limit, k, s) && Enabled(s, Admission(id, now, projected))
    requires |Next(s, Admission(id, now, projected)).holds| <= k
    ensures Paced(limit, k, Next(s, Admission(id, now, projected)))
  {
    PruneKeepsWindow(s, now);
    AdmissionEffect(s, id, now, projected);
  }

  lemma PacedInductive(limit: int, k: nat, s: State, step: Step)
    requires Paced(limit, k, s) && Enabled(s, step) && !step.Meter? && |Next(s, step).holds| <= k
    ensures Paced(limit, k, Next(s, step))
  {
    match step
    case Snapshot(now) => PruneKeepsWindow(s, now);
    case Admission(id, now, projected) => AdmissionPaced(limit, k, s, id, now, projected);
    case Release(id) => OneFewer(s.holds, id); assert KeepsWindow(Next(s, step));
    case Finish(id, now, cost) => FinishPaced(limit, k, s, id, now, cost);
  }

  lemma StartIsPaced(u: Setup, limit: int, k: nat, clock: real)
    requires u.limit == Some(limit)
    ensures Paced(limit, k, Start(u, clock))
  {
  }

  lemma {:induction false} PacedAlways(u: Setup, limit: int, k: nat, states: seq<State>, steps: seq<Step>, n: nat)
    requires u.limit == Some(limit) && IsRun(u, k, states, steps) && n < |states|
    requires forall i :: 0 <= i < |steps| ==> !steps[i].Meter?
    ensures Paced(limit, k, states[n])
  {
    hide Paced, Next, Enabled;
    if n == 0 {
      StartIsPaced(u, limit, k, states[0].clock);
    } else {
      PacedAlways(u, limit, k, states, steps, n - 1);
      assert Moves(k, states, steps, n - 1);
      PacedInductive(limit, k, states[n - 1], steps[n - 1]);
    }
  }

  lemma OneCallIsSpread(calls: seq<real>, window: real)
    requires calls != [] && window >= 0.0
    ensures !Spread(calls, window, 0)
  {
    var first := calls[0];
    assert first - calls[0] <= window;
    assert exists i, j :: 0 <= i <= j < |calls| && calls[j] - calls[i] <= window && j - i + 1 > 0;
  }

  /** Sliding-window rate on every run of admitted calls: entries in the window plus calls in flight
      stay at most limit - 1 + k, and so do the recorded calls of any stretch as long as the window. With a
      limit below one no call is ever recorded or in flight. */
  lemma RateSafety(u: Setup, limit: int, k: nat, states: seq<State>, steps: seq<Step>, n: nat, i: nat, j: nat)
    requires u.limit == Some(limit) && IsRun(u, k, states, steps) && n < |states|
    requires forall m :: 0 <= m < |steps| ==> !steps[m].Meter?
    ensures |states[n].ledger.stamps| + |states[n].holds| <= RateBound(limit, k)
    ensures i <= j < |states[n].calls| && states[n].calls[j] - states[n].calls[i] <= u.window ==>
              j - i + 1 <= RateBound(limit, k)
    ensures limit < 1 ==> states[n].holds == map[] && states[n].ledger.stamps == [] && (u.window >= 0.0 ==> states[n].calls == [])
  {
    PacedAlways(u, limit, k, states, steps, n);
    WindowFixed(u, k, states, steps, n);
    if limit < 1 && u.window >= 0.0 && states[n].calls != [] { OneCallIsSpread(states[n].calls, u.window); }
  }

  // ------------------------------------------------------------------ what a run leaves in the ledger

  /** When a step records a call, if it does, and at what cost. */
  function TimeOf(step: Step): seq<real> {
    match step case Finish(_, now, _) => [now] case Meter(now, _) => [now] case _ => []
  }

  function CostOf(step: Step): real {
    match step case Finish(_, _, cost) => Spend(cost) case Meter(_, cost) => Spend(cost) case _ => 0.0
  }

  function TimesOf(steps: seq<Step>): seq<real> {
    if steps == [] then [] else TimesOf(steps[..|steps| - 1]) + TimeOf(steps[|steps| - 1])
  }

  function CostsOf(steps: seq<Step>): real {
    if steps == [] then 0.0 else CostsOf(steps[..|steps| - 1]) + CostOf(steps[|steps| - 1])
  }

  /** The clock after a step, which a release does not read. */
  function ReadBy(step: Step, clock: real): real {
    match step
    case Snapshot(now) => now
    case Admission(_, now, _) => now
    case Finish(_, now, _) => now
    case Meter(now, _) => now
    case Release(_) => clock
  }

  predicate IsTail(stamps: seq<real>, calls: seq<real>) { |stamps| <= |calls| && stamps == calls[|calls| - |stamps|..] }

  /** The timestamps are the latest recorded calls, cut off where the window began when the clock was last read. */
  predicate TailInWindow(s: State) {
    IsTail(s.ledger.stamps, s.calls) && (s.ledger.stamps != [] ==> s.ledger.stamps[0] >= s.clock - s.ledger.window)
  }

  lemma DropKeepsATail(stamps: seq<real>, calls: seq<real>, cutoff: real)
    requires IsTail(stamps, calls)
    ensures IsTail(DropOlder(stamps, cutoff), calls) && (DropOlder(stamps, cutoff) != [] ==> DropOlder(stamps, cutoff)[0] >= cutoff)
  {
    DropOlderKeepsASuffix(stamps, cutoff);
  }

  lemma StepRecords(s: State, step: Step)
    requires Enabled(s, step)
    ensures var t := Next(s, step);
            && t.calls == s.calls + TimeOf(step) && t.ledger.cumulative == s.ledger.cumulative + CostOf(step)
            && t.clock == ReadBy(step, s.clock) && t.ledger.window == s.ledger.window
            && t.ledger.stamps == if step.Release? then s.ledger.stamps
                                  else DropOlder(s.ledger.stamps, t.clock - s.ledger.window) + TimeOf(step)
  {
    hide DropOlder;
  }

  lemma StepKeepsTheTail(s: State, step: Step)
    requires Enabled(s, step) && TailInWindow(s) && s.ledger.window >= 0.0
    ensures TailInWindow(Next(s, step))
  {
    StepRecords(s, step);
    var now := ReadBy(step, s.clock);
    var kept := DropOlder(s.ledger.stamps, now - s.ledger.window);
    DropKeepsATail(s.ledger.stamps, s.calls, now - s.ledger.window);
    AppendKeepsATail(kept, s.calls, now);
    assert kept + [] == kept;
    hide DropOlder, IsTail, Next, Enabled;
  }

  lemma AppendKeepsATail(stamps: seq<real>, calls: seq<real>, now: real)
    requires IsTail(stamps, calls)
    ensures IsTail(stamps + [now], calls + [now])
  {
  }

  /** On every run: recorded spend is the sum of the costs, recorded calls are those of the steps, and what the window
      holds of them is the latest. */
  lemma {:induction false} LedgerTellsTheRun(u: Setup, k: nat, states: seq<State>, steps: seq<Step>, n: nat)
    requires IsRun(u, k, states, steps) && n < |states| && u.window >= 0.0
    ensures var s := states[n];
            && s.ledger.cumulative == CostsOf(steps[..n]) && s.calls == TimesOf(steps[..n]) && TailInWindow(s)
            && (n > 0 ==> s.clock == ReadBy(steps[n - 1], states[n - 1].clock))
  {
    hide DropOlder, TimeOf, CostOf, ReadBy;
    if n > 0 {
      LedgerTellsTheRun(u, k, states, steps, n - 1);
      WindowFixed(u, k, states, steps, n - 1);
      assert Moves(k, states, steps, n - 1);
      assert steps[..n][..n - 1] == steps[..n - 1];
      StepRecords(states[n - 1], steps[n - 1]);
      StepKeepsTheTail(states[n - 1], steps[n - 1]);
      hide IsRun, Next, TailInWindow;
    }
  }

  lemma {:induction false} WindowFixed(u: Setup, k: nat, states: seq<State>, steps: seq<Step>, n: nat)
    requires IsRun(u, k, states, steps) && n < |states|
    ensures states[n].ledger.window == u.window
  {
    if n > 0 {
      WindowFixed(u, k, states, steps, n - 1);
      assert Moves(k, states, steps, n - 1);
      hide IsRun, DropOlder;
    }
  }
}
