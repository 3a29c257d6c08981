/** The local spending and rate limits of kazenai/enforcement.py.

    Ledger is the state an Enforcement object guards with its lock, and the functions on it
    are its lock-held sections. The class below carries them out in place. Money and time are
    reals: binary rounding is not modelled. */
module LocalBudget {
  import opened Wrappers

  datatype Block = BudgetExceeded | RateLimitExceeded | StreamCutoff

  datatype Ledger = Ledger(
    cap: Option<real>, limit: Option<int>, window: real,
    cumulative: real, pending: real, stamps: seq<real>)

  function Max0(x: real): real { if x < 0.0 then 0.0 else x }

  /** Drop timestamps from the front while they are older than the cutoff. */
  function DropOlder(stamps: seq<real>, cutoff: real): seq<real> {
    if stamps != [] && stamps[0] < cutoff then DropOlder(stamps[1..], cutoff) else stamps
  }

  /** What is kept is a suffix that starts inside the window; what is dropped lies before it. */
  lemma {:induction false} DropOlderKeepsASuffix(stamps: seq<real>, cutoff: real)
    ensures var kept := DropOlder(stamps, cutoff);
            && |kept| <= |stamps| && kept == stamps[|stamps| - |kept|..]
            && (forall i :: 0 <= i < |stamps| - |kept| ==> stamps[i] < cutoff)
            && (kept != [] ==> kept[0] >= cutoff)
  {
    if stamps != [] && stamps[0] < cutoff {
      DropOlderKeepsASuffix(stamps[1..], cutoff);
    }
  }

  function Prune(l: Ledger, now: real): Ledger {
    l.(stamps := DropOlder(l.stamps, now - l.window))
  }

  /** check_local: admit a call and hold its projection, or say why not. */
  function Admit(l: Ledger, now: real, projected: real): (Ledger, Result<real, Block>) {
    var p := Prune(l, now);
    if p.limit.Some? && |p.stamps| >= p.limit.value then (p, Err(RateLimitExceeded))
    else if p.cap.None? then (p, Ok(projected))
    else if p.cumulative + p.pending + projected > p.cap.value then (p, Err(BudgetExceeded))
    else (if projected > 0.0 then p.(pending := p.pending + projected) else p, Ok(projected))
  }

  function Discharge(l: Ledger, released: real): Ledger {
    if released <= 0.0 then l else l.(pending := Max0(l.pending - released))
  }

  function Spend(cost: Option<real>): real {
    match cost case None => 0.0 case Some(c) => c
  }

  function Record(l: Ledger, now: real, cost: Option<real>, released: real): Ledger {
    var p := Prune(l, now);
    var q := Discharge(p.(stamps := p.stamps + [now]), released);
    q.(cumulative := q.cumulative + Spend(cost))
  }

  /** record_call(enforce=True) raises once the recorded spend is past the cap. */
  predicate CutsOff(l: Ledger, enforce: bool) {
    enforce && l.cap.Some? && l.cumulative > l.cap.value
  }

  /** What recording a call does, figure by figure: the cost is spent even where the call is then cut off, a hold
      comes off pending exposure but never takes it below zero, and the call itself is the newest in the window. */
  lemma RecordingSpendsAndReleases(l: Ledger, now: real, cost: real, released: real)
    requires l.pending >= 0.0
    ensures Record(l, now, Some(cost), released).cumulative == l.cumulative + cost
    ensures Record(l, now, None, released).cumulative == l.cumulative
    ensures forall c :: var r := Record(l, now, c, released);
              && (0.0 <= released <= l.pending ==> r.pending == l.pending - released)
              && (released > l.pending ==> r.pending == 0.0)
              && (released <= 0.0 ==> r.pending == l.pending)
              && r.stamps != [] && r.stamps[|r.stamps| - 1] == now && r.stamps[..|r.stamps| - 1] == Prune(l, now).stamps
    ensures l.cap.Some? ==>
              (CutsOff(Record(l, now, Some(cost), released), true) <==> l.cumulative + cost > l.cap.value)
    ensures l.cap.None? ==> !CutsOff(Record(l, now, Some(cost), released), true)
  {
  }

  function Remaining(l: Ledger): Option<real> {
    match l.cap
    case None => None
    case Some(cap) => Some(Max0(cap - (l.cumulative + l.pending)))
  }

  /** Pending exposure is never negative, and there is none without a cap. */
  predicate Sound(l: Ledger) { l.pending >= 0.0 && (l.cap.None? ==> l.pending == 0.0) }

  /** The headroom reported to callers is exactly what admission lets through. */
  lemma RemainingIsWhatFits(l: Ledger, now: real, projected: real)
    requires l.cap.Some? && l.cumulative + l.pending <= l.cap.value
    requires l.limit.Some? ==> |Prune(l, now).stamps| < l.limit.value
    ensures Admit(l, now, projected).1.Ok? <==> projected <= Remaining(l).value
    ensures projected >= 0.0 && Admit(l, now, projected).1.Ok? ==>
              Remaining(Admit(l, now, projected).0).value == Remaining(l).value - projected
  {
  }

  /** On timestamps in order, dropping from the front keeps exactly the entries in the window. */
  lemma PruneKeepsTheWindow(l: Ledger, now: real, i: nat)
    requires forall a, b :: 0 <= a <= b < |l.stamps| ==> l.stamps[a] <= l.stamps[b]
    requires i < |l.stamps|
    ensures |Prune(l, now).stamps| <= |l.stamps|
    ensures var dropped := |l.stamps| - |Prune(l, now).stamps|;
            i >= dropped <==> l.stamps[i] >= now - l.window
  {
    DropOlderKeepsASuffix(l.stamps, now - l.window);
    var kept := DropOlder(l.stamps, now - l.window);
    if i >= |l.stamps| - |kept| {
      assert kept[0] == l.stamps[|l.stamps| - |kept|];
    }
  }

  // ------------------------------------------------------------------ the object

  class Enforcement {
    const maxCostUsd: Option<real>
    const callsPerMinute: Option<int>
    const windowSeconds: real
    var cumulativeCostUsd: real
    var pendingProjectedUsd: real
    var callTimestamps: seq<real>

    function View(): Ledger
      reads this
    {
      Ledger(maxCostUsd, callsPerMinute, windowSeconds, cumulativeCostUsd, pendingProjectedUsd, callTimestamps)
    }

    constructor (maxCostUsd: Option<real>, callsPerMinute: Option<int>, windowSeconds: real)
      ensures View() == Ledger(maxCostUsd, callsPerMinute, windowSeconds, 0.0, 0.0, [])
    {
      this.maxCostUsd := maxCostUsd;
      this.callsPerMinute := callsPerMinute;
      this.windowSeconds := windowSeconds;
      cumulativeCostUsd := 0.0;
      pendingProjectedUsd := 0.0;
      callTimestamps := [];
    }

    method PruneLocked(now: real)
      modifies this`callTimestamps
      ensures View() == Prune(old(View()), now)
    {
      var cutoff := now - windowSeconds;
      while callTimestamps != [] && callTimestamps[0] < cutoff
        invariant DropOlder(callTimestamps, cutoff) == DropOlder(old(callTimestamps), cutoff)
        decreases |callTimestamps|
      {
        callTimestamps := callTimestamps[1..];
      }
    }

    method CheckLocal(now: real, projected: real) returns (r: Result<real, Block>)
      modifies this
      ensures (View(), r) == Admit(old(View()), now, projected)
      ensures cumulativeCostUsd == old(cumulativeCostUsd)
      ensures pendingProjectedUsd == old(pendingProjectedUsd) + if r.Ok? && maxCostUsd.Some? then Max0(projected) else 0.0
    {
      PruneLocked(now);
      if callsPerMinute.Some? && |callTimestamps| >= callsPerMinute.value {
        return Err(RateLimitExceeded);
      }
      if maxCostUsd.Some? {
        var projectedTotal := cumulativeCostUsd + pendingProjectedUsd + projected;
        if projectedTotal > maxCostUsd.value {
          return Err(BudgetExceeded);
        }
        if projected > 0.0 {
          pendingProjectedUsd := pendingProjectedUsd + projected;
        }
      }
      return Ok(projected);
    }

    method RemainingBudgetUsd() returns (r: Option<real>)
      ensures r == Remaining(View())
    {
      if maxCostUsd.None? {
        return None;
      }
      var used := cumulativeCostUsd + pendingProjectedUsd;
      return Some(Max0(maxCostUsd.value - used));
    }

    method ReleaseProjection(projected: real)
      modifies this
      ensures View() == Discharge(old(View()), projected)
      ensures cumulativeCostUsd == old(cumulativeCostUsd)
      ensures pendingProjectedUsd == if projected <= 0.0 then old(pendingProjectedUsd) else Max0(old(pendingProjectedUsd) - projected)
    {
      if projected <= 0.0 {
        return;
      }
      pendingProjectedUsd := Max0(pendingProjectedUsd - projected);
    }

    method RecordCall(now: real, cost: Option<real>, enforce: bool, released: real) returns (r: Result<(), Block>)
      modifies this
      ensures View() == Record(old(View()), now, cost, released)
      ensures r == if CutsOff(View(), enforce) then Err(StreamCutoff) else Ok(())
      ensures r.Err? <==> enforce && maxCostUsd.Some? && old(cumulativeCostUsd) + Spend(cost) > maxCostUsd.value
      ensures cumulativeCostUsd == old(cumulativeCostUsd) + Spend(cost)
      ensures pendingProjectedUsd == if released <= 0.0 then old(pendingProjectedUsd) else Max0(old(pendingProjectedUsd) - released)
    {
      PruneLocked(now);
      callTimestamps := callTimestamps + [now];
      if released > 0.0 {
        pendingProjectedUsd := Max0(pendingProjectedUsd - released);
      }
      if cost.Some? {
        cumulativeCostUsd := cumulativeCostUsd + cost.value;
      }
      if enforce && maxCostUsd.Some? && cumulativeCostUsd > maxCostUsd.value {
        return Err(StreamCutoff);
      }
      return Ok(());
    }
  }
}
