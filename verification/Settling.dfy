/** Settling a call at the provider's reported usage: settle_usage of kazenai/request_pricing.py on the frozen
    pricing, and the gateway's own price of the same response in kazenai/integrations/litellm_control.py. */
module Settling {
  import opened Wrappers
  import opened Money
  import opened Rates
  import opened Reservation
  import opened UsageSplit

  datatype PricingConfigError = MultiplierUnset | MultiplierInvalid

  datatype Row = Row(rates: RateVector, certified: bool)

  datatype RowKey = RowKey(provider: string, model: string, tier: string, band: string)

  datatype Decision = Decision(
    provider: string, model: string, band: string, expectedTier: string, rates: RateVector, priceMultiplier: real,
    reserved: nat)

  datatype Source = CertifiedRow | CertifiedUnexpectedTier | OperatorRiskMultiplier

  /** How a reported tier is priced: as agreed, at another tier's certified rates, or as unknown. */
  datatype Pricing = AsAgreed | AtTier(rates: RateVector) | UnknownTier

  function LookUp(table: map<RowKey, Row>, d: Decision, tier: string): Option<Row> {
    var inBand := RowKey(d.provider, d.model, tier, d.band);
    var inShort := RowKey(d.provider, d.model, tier, "short");
    if inBand in table then Some(table[inBand]) else if inShort in table then Some(table[inShort]) else None
  }

  function PricingOf(table: map<RowKey, Row>, d: Decision, tier: string): Pricing {
    if tier == "" || tier == d.expectedTier then AsAgreed
    else
      var other := LookUp(table, d, tier);
      if other.Some? && other.value.certified then AtTier(Scaled(other.value.rates, d.priceMultiplier)) else UnknownTier
  }

  /** The catalog's loader refuses negative rates, and price multipliers are not negative. */
  predicate ValidTable(table: map<RowKey, Row>) { forall k <- table :: NonNegative(table[k].rates) }

  predicate ValidDecision(d: Decision) { NonNegative(d.rates) && d.priceMultiplier >= 0.0 }

  lemma ScaledIsNonNegative(r: RateVector, m: real)
    requires NonNegative(r) && m >= 0.0
    ensures NonNegative(Scaled(r, m))
  {
  }

  /** The micro-dollars a settlement comes to; the multiplier is read only for an unknown tier. */
  function Settled(d: Decision, table: map<RowKey, Row>, tier: string, t: Tokens, multiplier: Result<real, PricingConfigError>): Result<nat, PricingConfigError>
    requires ValidDecision(d) && ValidTable(table)
    requires multiplier.Ok? ==> multiplier.value >= 1.0
  {
    match PricingOf(table, d, tier)
    case AsAgreed => Ok(CostMicros(d.rates, t))
    case AtTier(rates) =>
      ScaledIsNonNegative(LookUp(table, d, tier).value.rates, d.priceMultiplier);
      Ok(CostMicros(rates, t))
    case UnknownTier =>
      if multiplier.Err? then Err(multiplier.error) else Ok(Held(CostMicros(d.rates, t), multiplier.value, d.reserved))
  }

  /** What settling leaves on the call's pricing record. */
  datatype Finding = Finding(holdForReconciliation: bool, source: Source, unknownTier: bool, components: Option<Tokens>, heldExposure: Option<nat>)

  function Settle(b: Finding, d: Decision, table: map<RowKey, Row>, tier: string, t: Tokens, multiplier: Result<real, PricingConfigError>): Finding
    requires ValidDecision(d) && ValidTable(table)
    requires multiplier.Ok? ==> multiplier.value >= 1.0
  {
    var s := Settled(d, table, tier, t, multiplier);
    if s.Err? then b.(source := CertifiedRow)
    else
      match PricingOf(table, d, tier)
      case AsAgreed => b.(source := CertifiedRow, components := Some(t),
                          heldExposure := if b.holdForReconciliation then Some(s.value) else b.heldExposure)
      case AtTier(_) => b.(holdForReconciliation := true, source := CertifiedUnexpectedTier, components := Some(t), heldExposure := Some(s.value))
      case UnknownTier => Finding(true, OperatorRiskMultiplier, true, Some(t), Some(s.value))
  }

  /** The frozen price of one call and what settling found out about it. */
  class CallPricing {
    const decision: Decision
    var holdForReconciliation: bool
    var exposureSource: Source
    var unknownTier: bool
    var settledComponents: Option<Tokens>
    var heldExposure: Option<nat>

    constructor (decision: Decision)
      ensures this.decision == decision && Now() == Finding(false, CertifiedRow, false, None, None)
    {
      this.decision := decision;
      holdForReconciliation, exposureSource, unknownTier, settledComponents, heldExposure := false, CertifiedRow, false, None, None;
    }

    function Now(): Finding
      reads this
    {
      Finding(holdForReconciliation, exposureSource, unknownTier, settledComponents, heldExposure)
    }

    method HoldUnknown(t: Tokens, multiplier: real) returns (held: nat)
      requires ValidDecision(decision) && multiplier >= 1.0
      modifies this
      ensures held == Held(CostMicros(decision.rates, t), multiplier, decision.reserved)
      ensures Now() == Finding(true, OperatorRiskMultiplier, true, Some(t), Some(held))
    {
      var base := CostMicros(decision.rates, t);
      held := Held(base, multiplier, decision.reserved);
      holdForReconciliation, exposureSource, unknownTier, settledComponents, heldExposure := true, OperatorRiskMultiplier, true, Some(t), Some(held);
    }

    method PriceAt(rates: RateVector, t: Tokens) returns (micros: nat)
      requires NonNegative(rates)
      modifies this`settledComponents, this`heldExposure
      ensures micros == CostMicros(rates, t)
      ensures settledComponents == Some(t)
      ensures heldExposure == if holdForReconciliation then Some(micros) else old(heldExposure)
    {
      settledComponents := Some(t);
      micros := CostMicros(rates, t);
      if holdForReconciliation {
        heldExposure := Some(micros);
      }
    }

    /** Any reported tier but the expected one is held for reconciliation and opens the breaker for that tier. */
    method SettleUsage(usage: Value, tier: string, table: map<RowKey, Row>, multiplier: Result<real, PricingConfigError>, breaker: TierBreaker, org: string, now: int)
      returns (r: Result<nat, PricingConfigError>)
      requires ValidDecision(decision) && ValidTable(table)
      requires multiplier.Ok? ==> multiplier.value >= 1.0
      modifies this, breaker
      ensures r == Settled(decision, table, tier, UsageComponents(usage), multiplier)
      ensures Now() == Settle(old(Now()), decision, table, tier, UsageComponents(usage), multiplier)
      ensures breaker.open == if r.Err? then old(breaker.open)
                              else Opened(old(breaker.open), PricingOf(table, decision, tier), BreakerKey(org, decision.provider, decision.model, tier), now, r.value)
    {
      hide UsageComponents, CostMicros, Scaled, NonNegative, Held;
      exposureSource := CertifiedRow;
      var t := UsageComponents(usage);
      var pricing := PricingOf(table, decision, tier);
      match pricing
      case AsAgreed =>
        var micros := PriceAt(decision.rates, t);
        r := Ok(micros);
      case AtTier(rates) =>
        ScaledIsNonNegative(LookUp(table, decision, tier).value.rates, decision.priceMultiplier);
        holdForReconciliation, exposureSource := true, CertifiedUnexpectedTier;
        breaker.Open(BreakerKey(org, decision.provider, decision.model, tier), now, 0);
        var micros := PriceAt(rates, t);
        r := Ok(micros);
      case UnknownTier =>
        if multiplier.Err? {
          return Err(multiplier.error);
        }
        var held := HoldUnknown(t, multiplier.value);
        breaker.Open(BreakerKey(org, decision.provider, decision.model, tier), now, held);
        r := Ok(held);
    }
  }

  datatype BreakerKey = BreakerKey(org: string, provider: string, model: string, tier: string)

  datatype Entry = Entry(openedAt: int, held: nat)

  /** The breaker after a settlement: the first exposure of a tier is the one on record, and only a tier
      without a price holds an amount. */
  function Opened(open: map<BreakerKey, Entry>, p: Pricing, k: BreakerKey, now: int, held: nat): map<BreakerKey, Entry> {
    if p.AsAgreed? || k in open then open else open[k := Entry(now, if p.UnknownTier? then held else 0)]
  }

  /** Tiers whose admission is closed until an operator resolves them. */
  class TierBreaker {
    var open: map<BreakerKey, Entry>

    constructor ()
      ensures open == map[]
    {
      open := map[];
    }

    /** The first exposure of a tier is the one on record. */
    method Open(k: BreakerKey, now: int, held: nat)
      modifies this
      ensures open == if k in old(open) then old(open) else old(open)[k := Entry(now, held)]
    {
      if k !in open {
        open := open[k := Entry(now, held)];
      }
    }
  }

  /** A settlement on the agreed tier, within the projection of a reservation at covered rates, fits in it; an
      unknown tier always takes at least the reservation. */
  lemma SettlementAgainstReservation(d: Decision, kind: CacheKind, input: nat, output: nat, table: map<RowKey, Row>, tier: string, u: Value, multiplier: Result<real, PricingConfigError>)
    requires ValidDecision(d) && ValidTable(table) && (multiplier.Ok? ==> multiplier.value >= 1.0)
    requires d.reserved == Reserve(d.rates, kind, input, output, 0) && Covers(d.rates, kind)
    requires Within(UsageComponents(u), kind, input, output)
    ensures var s := Settled(d, table, tier, UsageComponents(u), multiplier);
            && (PricingOf(table, d, tier).AsAgreed? ==> s.Ok? && s.value <= d.reserved)
            && (PricingOf(table, d, tier).UnknownTier? && s.Ok? ==> s.value >= d.reserved)
            && (s.Err? <==> PricingOf(table, d, tier).UnknownTier? && multiplier.Err?)
  {
    CoveredUsageIsReserved(d.rates, kind, input, output, UsageComponents(u));
    if multiplier.Ok? { HoldCoversReserveAndCost(CostMicros(d.rates, UsageComponents(u)), multiplier.value, d.reserved); }
  }

  /** The agreed tier, or none reported: the agreed rates. */
  lemma AgreedTierIsPriced(d: Decision, table: map<RowKey, Row>, tier: string, t: Tokens, multiplier: Result<real, PricingConfigError>)
    requires ValidDecision(d) && ValidTable(table) && (multiplier.Ok? ==> multiplier.value >= 1.0)
    requires tier == "" || tier == d.expectedTier
    ensures ComponentCost(d.rates, t) >= 0.0 && Settled(d, table, tier, t, multiplier) == Ok(Micros(ComponentCost(d.rates, t)))
  {
    CostIsMicros(d.rates, t);
  }

  /** The row of this tier in the call's band, or in the short one if that has none. */
  predicate IsRowOfTier(table: map<RowKey, Row>, d: Decision, tier: string, row: Row) {
    var inBand, inShort := RowKey(d.provider, d.model, tier, d.band), RowKey(d.provider, d.model, tier, "short");
    if inBand in table then row == table[inBand] else inShort in table && row == table[inShort]
  }

  function Times(multiplier: real, usd: real): real { multiplier * usd }

  /** Another tier with a certified row: the cost at that row, times the call's multiplier. */
  lemma CertifiedTierIsPriced(d: Decision, table: map<RowKey, Row>, tier: string, t: Tokens, multiplier: Result<real, PricingConfigError>, row: Row)
    requires ValidDecision(d) && ValidTable(table) && (multiplier.Ok? ==> multiplier.value >= 1.0)
    requires tier != "" && tier != d.expectedTier && IsRowOfTier(table, d, tier, row) && row.certified
    ensures Times(d.priceMultiplier, ComponentCost(row.rates, t)) >= 0.0
    ensures Settled(d, table, tier, t, multiplier) == Ok(Micros(Times(d.priceMultiplier, ComponentCost(row.rates, t))))
  {
    hide ComponentCost, Scaled, NonNegative, Micros, Times;
    assert LookUp(table, d, tier) == Some(row);
    ScaledCostIsMicros(row.rates, d.priceMultiplier, t);
    assert PricingOf(table, d, tier) == AtTier(Scaled(row.rates, d.priceMultiplier));
    assert Settled(d, table, tier, t, multiplier) == Ok(CostMicros(Scaled(row.rates, d.priceMultiplier), t));
  }

  /** A tier without a certified row: the operator's multiple of the agreed cost, and no less than the reserve. */
  lemma UnknownTierIsHeld(d: Decision, table: map<RowKey, Row>, tier: string, t: Tokens, multiplier: real)
    requires ValidDecision(d) && ValidTable(table) && multiplier >= 1.0
    requires tier != "" && tier != d.expectedTier && forall row: Row :: IsRowOfTier(table, d, tier, row) ==> !row.certified
    ensures ComponentCost(d.rates, t) >= 0.0
    ensures var usd := MicroUsdToDecimal(Micros(ComponentCost(d.rates, t))) * multiplier;
            usd >= 0.0 && Settled(d, table, tier, t, Ok(multiplier)) == Ok(Max(Micros(usd), d.reserved))
  {
    CostIsMicros(d.rates, t);
    hide ComponentCost, NonNegative, Micros, Held;
    HeldIsTheGreater(CostMicros(d.rates, t), multiplier, d.reserved);
    var other := LookUp(table, d, tier);
    assert other.Some? ==> IsRowOfTier(table, d, tier, other.value);
  }

  /** On the agreed tier, or with none reported, the call is marked no further and the breaker stays as it is. */
  lemma AgreedTierIsNotHeld(b: Finding, d: Decision, table: map<RowKey, Row>, tier: string, t: Tokens, multiplier: Result<real, PricingConfigError>, open: map<BreakerKey, Entry>, k: BreakerKey, now: int, held: nat)
    requires ValidDecision(d) && ValidTable(table) && (multiplier.Ok? ==> multiplier.value >= 1.0)
    requires tier == "" || tier == d.expectedTier
    ensures var f, s := Settle(b, d, table, tier, t, multiplier), Settled(d, table, tier, t, multiplier);
            && s.Ok? && f.holdForReconciliation == b.holdForReconciliation && f.unknownTier == b.unknownTier
            && f.source == CertifiedRow && f.components == Some(t)
            && f.heldExposure == (if b.holdForReconciliation then Some(s.value) else b.heldExposure)
    ensures Opened(open, PricingOf(table, d, tier), k, now, held) == open
  {
  }

  /** Any other tier is held for reconciliation at what it settles at, and closes admission for the tier: at that
      amount if the tier has no certified row, at nothing if it has one, and never anew. Without a row and without
      the operator's multiple nothing is settled, held or closed. */
  lemma OtherTierIsHeld(b: Finding, d: Decision, table: map<RowKey, Row>, tier: string, t: Tokens, multiplier: Result<real, PricingConfigError>, open: map<BreakerKey, Entry>, k: BreakerKey, now: int)
    requires ValidDecision(d) && ValidTable(table) && (multiplier.Ok? ==> multiplier.value >= 1.0)
    requires tier != "" && tier != d.expectedTier
    ensures var f, s := Settle(b, d, table, tier, t, multiplier), Settled(d, table, tier, t, multiplier);
            var certified := exists row: Row :: IsRowOfTier(table, d, tier, row) && row.certified;
            && (s.Ok? <==> certified || multiplier.Ok?)
            && (s.Err? ==> f == b.(source := CertifiedRow))
            && (s.Ok? ==>
                  var after := Opened(open, PricingOf(table, d, tier), k, now, s.value);
                  && f.holdForReconciliation && f.components == Some(t) && f.heldExposure == Some(s.value)
                  && f.source == (if certified then CertifiedUnexpectedTier else OperatorRiskMultiplier)
                  && f.unknownTier == (if certified then b.unknownTier else true)
                  && after.Keys == open.Keys + {k} && (forall x <- open :: after[x] == open[x])
                  && (k !in open ==> after[k].openedAt == now && after[k].held == if certified then 0 else s.value))
  {
    hide CostMicros, Held, Scaled, NonNegative;
    var other := LookUp(table, d, tier);
    assert other.Some? ==> IsRowOfTier(table, d, tier, other.value);
    assert forall row: Row :: IsRowOfTier(table, d, tier, row) ==> other == Some(row);
  }

  lemma CostIsMicros(r: RateVector, t: Tokens)
    requires NonNegative(r)
    ensures ComponentCost(r, t) >= 0.0 && CostMicros(r, t) == Micros(ComponentCost(r, t))
  {
    CostIsNonNegative(r, t);
  }

  lemma ScaledCostIsMicros(r: RateVector, m: real, t: Tokens)
    requires NonNegative(r) && m >= 0.0
    ensures NonNegative(Scaled(r, m)) && Times(m, ComponentCost(r, t)) >= 0.0
    ensures CostMicros(Scaled(r, m), t) == Micros(Times(m, ComponentCost(r, t)))
  {
    ScaledIsNonNegative(r, m);
    CostIsNonNegative(r, t);
    CostIsNonNegative(Scaled(r, m), t);
    ScalingScalesTheCost(r, m, t);
    hide ComponentCost, Scaled, NonNegative;
  }

  lemma HeldIsTheGreater(base: nat, m: real, reserved: nat)
    requires m >= 0.0
    ensures MicroUsdToDecimal(base) * m >= 0.0 && Held(base, m, reserved) == Max(Micros(MicroUsdToDecimal(base) * m), reserved)
  {
    ScaledUpIsNonNegative(base, m);
  }

  // ------------------------------------------------------------------ the gateway's price

  /** estimate_cost_usd on a catalog row: an unknown audio share is all of the prompt where audio is dearer. */
  function EstimateCostUsd(row: RateVector, multiplier: real, prompt: int, completion: int, audio: Option<int>, cached: int, write5m: int, write1h: int): real
    requires NonNegative(row) && multiplier >= 0.0
  {
    var rates := Scaled(row, multiplier);
    ScaledIsNonNegative(row, multiplier);
    var p, c, w5, w1 := Max0(prompt), Max0(cached), Max0(write5m), Max0(write1h);
    var a := if audio.Some? then Min(p, Max0(audio.value))
             else if rates.audioInput.Some? && rates.audioInput.value > rates.input then p else 0;
    MicroUsdToDecimal(CostMicros(rates, Tokens(Max0(p - a - c - w5 - w1), c, w5, w1, Max0(completion), 0, 0, a, 0)))
  }

  /** estimate_cost_from_response: the split is summed up into a prompt total and taken apart again. */
  function EstimateCostFromResponse(row: RateVector, multiplier: real, u: Value): real
    requires NonNegative(row) && multiplier >= 0.0
  {
    var t := UsageComponents(u);
    EstimateCostUsd(row, multiplier, t.input + t.audio + t.cached + t.write5m + t.write1h, t.output, Some(t.audio), t.cached, t.write5m, t.write1h)
  }

  /** The prompt total is taken apart into the very components it was summed from. */
  lemma SplitIsRestored(t: Tokens)
    requires t.input >= 0 && t.cached >= 0 && t.write5m >= 0 && t.write1h >= 0 && t.audio >= 0 && t.output >= 0
    ensures var p := Max0(t.input + t.audio + t.cached + t.write5m + t.write1h);
            var a := Min(p, Max0(t.audio));
            a == t.audio && Max0(p - a - Max0(t.cached) - Max0(t.write5m) - Max0(t.write1h)) == t.input
  {
  }

  lemma ResponsePriceIsCost(row: RateVector, m: real, u: Value)
    requires NonNegative(row) && m >= 0.0 && NonNegativeCounts(ReadCounts(u)) && NonNegative(Scaled(row, m))
    ensures EstimateCostFromResponse(row, m, u) == MicroUsdToDecimal(CostMicros(Scaled(row, m), UsageComponents(u)))
  {
    hide UsageComponents, ReadCounts, CostMicros, Scaled, NonNegative, MicroUsdToDecimal, Max0, Min;
    SplitConservesTokens(u);
    var t := UsageComponents(u);
    NoOtherTokens(u);
    SplitIsRestored(t);
    KeepsNonNegative(t.cached, t.write5m, t.write1h, t.output);
  }

  lemma KeepsNonNegative(a: nat, b: nat, c: nat, d: nat)
    ensures Max0(a) == a && Max0(b) == b && Max0(c) == c && Max0(d) == d
  {
  }

  lemma NoOtherTokens(u: Value)
    ensures UsageComponents(u).image == 0 && UsageComponents(u).tools == 0 && UsageComponents(u).audioCached == 0
    ensures NonNegativeCounts(ReadCounts(u)) ==> UsageComponents(u).output >= 0
  {
    hide ReadCounts;
  }

  /** The gateway settles the same micro-dollars the SDK does on the agreed tier of the same row. */
  lemma GatewayPriceIsSdkPrice(row: RateVector, d: Decision, table: map<RowKey, Row>, u: Value, multiplier: Result<real, PricingConfigError>)
    requires NonNegative(row) && ValidTable(table) && d.priceMultiplier >= 0.0 && d.rates == Scaled(row, d.priceMultiplier) && ValidDecision(d)
    requires NonNegativeCounts(ReadCounts(u)) && (multiplier.Ok? ==> multiplier.value >= 1.0)
    ensures Ok(UsdToMicrosCeil(EstimateCostFromResponse(row, d.priceMultiplier, u))) == Settled(d, table, d.expectedTier, UsageComponents(u), multiplier)
  {
    hide UsageComponents, ReadCounts, CostMicros, Scaled, NonNegative, UsdToMicrosCeil, NonNegativeCounts, EstimateCostFromResponse, LookUp;
    ResponsePriceIsCost(row, d.priceMultiplier, u);
    GatewayKeepsWholeMicros(CostMicros(d.rates, UsageComponents(u)));
  }

  /** Asked without an audio share, the estimate is no less than for any share there may turn out to be. */
  lemma UnknownAudioIsACeiling(row: RateVector, multiplier: real, prompt: nat, completion: nat, audio: nat)
    requires NonNegative(row) && multiplier >= 0.0 && audio <= prompt
    ensures EstimateCostUsd(row, multiplier, prompt, completion, Some(audio), 0, 0, 0)
         <= EstimateCostUsd(row, multiplier, prompt, completion, None, 0, 0, 0)
  {
    var rates := Scaled(row, multiplier);
    ScaledIsNonNegative(row, multiplier);
    var all := rates.audioInput.Some? && rates.audioInput.value > rates.input;
    AudioShareIsCovered(rates, if all then Audio else PlainInput, prompt, completion, audio);
  }

  function WithOutput(t: Tokens, output: nat): Tokens { t.(output := output) }

  /** Splitting a prompt into text and audio costs no more than billing all of it at the dearer of the two. */
  lemma AudioShareIsCovered(rates: RateVector, c: Component, prompt: nat, completion: nat, audio: nat)
    requires NonNegative(rates) && audio <= prompt && (c.Audio? || c.PlainInput?)
    requires RateOf(rates, c) >= rates.input && RateOf(rates, c) >= AudioRate(rates)
    ensures CostMicros(rates, Tokens(prompt - audio, 0, 0, 0, completion, 0, 0, audio, 0)) <= CostMicros(rates, WithOutput(Only(c, prompt), completion))
  {
    var t, s := Tokens(prompt - audio, 0, 0, 0, completion, 0, 0, audio, 0), WithOutput(Only(c, prompt), completion);
    CostInParts(rates, t);
    CostInParts(rates, s);
    BillOfOnly(rates, c, prompt);
    assert InputBill(rates, s) == InputBill(rates, Only(c, prompt));
    SplitPromptBill(rates, c, t, prompt);
    CostIsNonNegative(rates, t);
    MicrosIsMonotone(ComponentCost(rates, t), ComponentCost(rates, s));
  }

  lemma SplitPromptBill(rates: RateVector, c: Component, t: Tokens, prompt: nat)
    requires NonNegative(rates) && t.input >= 0 && t.audio >= 0 && t.input + t.audio == prompt
    requires t.cached == 0 && t.write5m == 0 && t.write1h == 0 && t.audioCached == 0
    requires RateOf(rates, c) >= rates.input && RateOf(rates, c) >= AudioRate(rates)
    ensures InputBill(rates, t) <= prompt as real * RateOf(rates, c)
  {
    InputUnits(rates, t);
    var a, b := InputLines(rates, t), AudioLines(rates, t);
    BillOfBoth(a, b);
    UnitsOfBoth(a, b);
    BillsAtMost(a + b, prompt, RateOf(rates, c));
  }
}
