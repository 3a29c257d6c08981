/** The reserve bound against the settled cost: _build and settle_usage of kazenai/request_pricing.py. */
module Reservation {
  import opened Wrappers
  import opened Money
  import opened Rates

  datatype CacheKind = NoWrite | Write5m | Write1h

  /** Every input token at the rate of the requested cache write, or uncached. */
  function ReserveTokens(kind: CacheKind, input: nat, output: nat, image: nat): Tokens {
    Tokens(if kind.NoWrite? then input else 0, 0, if kind.Write5m? then input else 0, if kind.Write1h? then input else 0,
           output, image, 0, 0, 0)
  }

  function Reserve(r: RateVector, kind: CacheKind, input: nat, output: nat, image: nat): nat
    requires NonNegative(r)
  {
    CostMicros(r, ReserveTokens(kind, input, output, image))
  }

  function ReservedRate(r: RateVector, kind: CacheKind): real {
    match kind
    case NoWrite => r.input
    case Write5m => Effective(r.cacheWrite5m, r.input)
    case Write1h => Effective(r.cacheWrite1h, r.input)
  }

  /** Usage within the projection: no more tokens than counted, and no write kind the request did not ask for
      that is dearer than the one reserved. */
  predicate Within(t: Tokens, kind: CacheKind, input: nat, output: nat) {
    && t.input >= 0 && t.cached >= 0 && t.write5m >= 0 && t.write1h >= 0 && t.audio >= 0 && t.output >= 0
    && t.image == 0 && t.tools == 0 && t.audioCached == 0
    && t.input + t.cached + t.write5m + t.write1h + t.audio <= input && t.output <= output
    && (kind.NoWrite? ==> t.write5m == 0)
    && (!kind.Write1h? ==> t.write1h == 0)
  }

  /** No component the usage may name is dearer than the reserved rate. */
  predicate Covers(r: RateVector, kind: CacheKind) {
    var top := ReservedRate(r, kind);
    && r.input <= top && Effective(r.cachedInput, r.input) <= top && AudioRate(r) <= top
    && (!kind.NoWrite? ==> Effective(r.cacheWrite5m, r.input) <= top)
    && (kind.Write1h? ==> Effective(r.cacheWrite1h, r.input) <= top)
  }

  /** The order every published row has: it covers every kind of write. */
  lemma OrderedRatesCover(r: RateVector, kind: CacheKind)
    requires Effective(r.cachedInput, r.input) <= r.input <= Effective(r.cacheWrite5m, r.input) <= Effective(r.cacheWrite1h, r.input)
    requires AudioRate(r) <= r.input
    ensures Covers(r, kind)
  {
  }

  lemma NothingToBill(l: Line)
    requires l.count == 0
    ensures Bill([l]) == 0.0
  {
  }

  lemma OneLine(l: Line)
    ensures Bill([l]) == Billed(l) as real * l.rate && Units([l]) == Billed(l)
  {
    assert [l][1..] == [];
  }

  lemma TwoLines(a: Line, b: Line)
    ensures Bill([a, b]) == Billed(a) as real * a.rate + Billed(b) as real * b.rate
    ensures Units([a, b]) == Billed(a) + Billed(b)
  {
    OneLine(b);
    assert [a, b][1..] == [b];
  }

  lemma FourLines(a: Line, b: Line, c: Line, d: Line)
    ensures Bill([a, b, c, d]) == Bill([a, b]) + Bill([c, d])
    ensures Units([a, b, c, d]) == Billed(a) + Billed(b) + Billed(c) + Billed(d)
  {
    assert [a, b, c, d] == [a, b] + [c, d];
    BillOfBoth([a, b], [c, d]);
    UnitsOfBoth([a, b], [c, d]);
    TwoLines(a, b);
    TwoLines(c, d);
  }

  /** The part of a cost that input makes up, in micro-dollars. */
  function InputBill(r: RateVector, t: Tokens): real { Bill(InputLines(r, t)) + Bill(AudioLines(r, t)) }

  lemma CostInParts(r: RateVector, t: Tokens)
    requires t.tools == 0 && t.image == 0 && t.output >= 0
    ensures ComponentCost(r, t) * 1000000.0 == InputBill(r, t) + t.output as real * r.output
  {
    BillOfBoth(InputLines(r, t), OutputLines(r, t));
    TwoLines(Line(t.output, r.output), Line(t.image, Effective(r.image, r.input)));
    NothingToBill(Line(t.tools, Effective(r.toolPerCall, 0.0)));
  }

  function Price(l: Line): real { Billed(l) as real * l.rate }

  lemma NothingBilled(l: Line)
    ensures l.count <= 0 ==> Price(l) == 0.0
    ensures l.count >= 0 ==> Price(l) == l.count as real * l.rate
  {
  }

  lemma FourLineBill(a: Line, b: Line, c: Line, d: Line)
    ensures Bill([a, b, c, d]) == Price(a) + Price(b) + (Price(c) + Price(d))
  {
    FourLines(a, b, c, d);
    TwoLines(a, b);
    TwoLines(c, d);
  }

  lemma ReserveInputBill(r: RateVector, kind: CacheKind, input: nat, output: nat)
    ensures InputBill(r, ReserveTokens(kind, input, output, 0)) == input as real * ReservedRate(r, kind)
  {
    hide Bill, Effective, Price;
    var t := ReserveTokens(kind, input, output, 0);
    var a, b := Line(t.input, r.input), Line(t.cached, Effective(r.cachedInput, r.input));
    var c, d := Line(t.write5m, Effective(r.cacheWrite5m, r.input)), Line(t.write1h, Effective(r.cacheWrite1h, r.input));
    FourLineBill(a, b, c, d);
    NothingBilled(a);
    NothingBilled(b);
    NothingBilled(c);
    NothingBilled(d);
    NoLines();
  }

  lemma NoLines()
    ensures Bill([]) == 0.0
  {
  }

  lemma MoreUnitsCostMore(a: nat, b: nat, rate: real)
    requires a <= b && rate >= 0.0
    ensures a as real * rate <= b as real * rate
  {
  }

  lemma InputUnits(r: RateVector, t: Tokens)
    requires t.input >= 0 && t.cached >= 0 && t.write5m >= 0 && t.write1h >= 0 && t.audio >= 0 && t.audioCached == 0
    ensures Units(InputLines(r, t)) + Units(AudioLines(r, t)) == t.input + t.cached + t.write5m + t.write1h + t.audio
  {
    var ls, au := InputLines(r, t), AudioLines(r, t);
    FourLines(ls[0], ls[1], ls[2], ls[3]);
    if t.audio > 0 {
      TwoLines(au[0], au[1]);
      assert au == [au[0], au[1]];
    }
  }

  lemma LinesAreCovered(r: RateVector, kind: CacheKind, t: Tokens, input: nat, output: nat)
    requires Within(t, kind, input, output) && Covers(r, kind)
    ensures forall l <- InputLines(r, t) :: l.count > 0 ==> l.rate <= ReservedRate(r, kind)
    ensures forall l <- AudioLines(r, t) :: l.count > 0 ==> l.rate <= ReservedRate(r, kind)
  {
  }

  lemma BillsAtMost(lines: seq<Line>, n: nat, rate: real)
    requires forall l <- lines :: l.count > 0 ==> l.rate <= rate
    requires Units(lines) <= n && rate >= 0.0
    ensures Bill(lines) <= n as real * rate
  {
    hide Bill, Units;
    BillAtMost(lines, rate);
    MoreUnitsCostMore(Units(lines), n, rate);
  }

  lemma RateIsNonNegative(r: RateVector, kind: CacheKind)
    requires NonNegative(r)
    ensures ReservedRate(r, kind) >= 0.0
  {
  }

  lemma UsageInputBill(r: RateVector, kind: CacheKind, t: Tokens, input: nat, output: nat)
    requires Within(t, kind, input, output) && Covers(r, kind) && NonNegative(r)
    ensures InputBill(r, t) <= input as real * ReservedRate(r, kind)
  {
    LinesAreCovered(r, kind, t, input, output);
    InputUnits(r, t);
    RateIsNonNegative(r, kind);
    hide Bill, Units, InputLines, AudioLines, Covers, NonNegative, ReservedRate, Within;
    var a, b := InputLines(r, t), AudioLines(r, t);
    BillOfBoth(a, b);
    UnitsOfBoth(a, b);
    BillsAtMost(a + b, input, ReservedRate(r, kind));
  }

  /** Usage within the projection never costs more than was reserved, if no rate is dearer. */
  lemma CoveredUsageIsReserved(r: RateVector, kind: CacheKind, input: nat, output: nat, t: Tokens)
    requires NonNegative(r) && Covers(r, kind) && Within(t, kind, input, output)
    ensures CostMicros(r, t) <= Reserve(r, kind, input, output, 0)
  {
    var reserved := ReserveTokens(kind, input, output, 0);
    CostInParts(r, t);
    CostInParts(r, reserved);
    ReserveInputBill(r, kind, input, output);
    UsageInputBill(r, kind, t, input, output);
    assert t.output as real * r.output <= output as real * r.output;
    CostIsNonNegative(r, t);
    MicrosIsMonotone(ComponentCost(r, t), ComponentCost(r, reserved));
  }

  datatype Component = PlainInput | CachedInput | FiveMinuteWrite | OneHourWrite | Audio

  function RateOf(r: RateVector, c: Component): real {
    match c
    case PlainInput => r.input
    case CachedInput => Effective(r.cachedInput, r.input)
    case FiveMinuteWrite => Effective(r.cacheWrite5m, r.input)
    case OneHourWrite => Effective(r.cacheWrite1h, r.input)
    case Audio => AudioRate(r)
  }

  function Only(c: Component, n: nat): Tokens {
    Tokens(if c.PlainInput? then n else 0, if c.CachedInput? then n else 0, if c.FiveMinuteWrite? then n else 0,
           if c.OneHourWrite? then n else 0, 0, 0, 0, if c.Audio? then n else 0, 0)
  }

  lemma BillOfOnly(r: RateVector, c: Component, n: nat)
    ensures InputBill(r, Only(c, n)) == n as real * RateOf(r, c)
  {
    hide Bill, Effective, Price, AudioRate, AudioCachedRate;
    var t := Only(c, n);
    var i, j := Line(t.input, r.input), Line(t.cached, Effective(r.cachedInput, r.input));
    var k, l := Line(t.write5m, Effective(r.cacheWrite5m, r.input)), Line(t.write1h, Effective(r.cacheWrite1h, r.input));
    FourLineBill(i, j, k, l);
    NothingBilled(i);
    NothingBilled(j);
    NothingBilled(k);
    NothingBilled(l);
    NoLines();
    if c.Audio? && n > 0 {
      TwoLines(Line(t.audio, AudioRate(r)), Line(t.audioCached, AudioCachedRate(r)));
    }
  }

  /** So many units that the gap adds up to two micro-dollars. */
  lemma EnoughUnits(low: real, high: real) returns (n: nat)
    requires 0.0 <= low < high
    ensures n as real * high >= n as real * low + 2.0
  {
    var gap := high - low;
    n := (2.0 / gap).Floor + 1;
    assert n as real >= 2.0 / gap;
    assert n as real * gap >= (2.0 / gap) * gap;
    assert n as real * high == n as real * low + n as real * gap;
  }

  lemma OnlyCost(r: RateVector, c: Component, n: nat)
    ensures ComponentCost(r, Only(c, n)) * 1000000.0 == n as real * RateOf(r, c)
  {
    CostInParts(r, Only(c, n));
    BillOfOnly(r, c, n);
  }

  lemma ReserveCost(r: RateVector, kind: CacheKind, n: nat)
    ensures ComponentCost(r, ReserveTokens(kind, n, 0, 0)) * 1000000.0 == n as real * ReservedRate(r, kind)
  {
    CostInParts(r, ReserveTokens(kind, n, 0, 0));
    ReserveInputBill(r, kind, n, 0);
  }

  /** Two micro-dollars are more than any rounding. */
  lemma TwoMicrosOutgrowRounding(r: RateVector, kind: CacheKind, c: Component, n: nat)
    requires NonNegative(r) && n as real * RateOf(r, c) >= n as real * ReservedRate(r, kind) + 2.0
    ensures CostMicros(r, Only(c, n)) > Reserve(r, kind, n, 0, 0)
  {
    OnlyCost(r, c, n);
    ReserveCost(r, kind, n);
    CostIsNonNegative(r, Only(c, n));
    CostIsNonNegative(r, ReserveTokens(kind, n, 0, 0));
    MicrosIsClose(ComponentCost(r, Only(c, n)));
    MicrosIsClose(ComponentCost(r, ReserveTokens(kind, n, 0, 0)));
  }

  /** A component the usage may name that is dearer than the reserved rate: enough tokens of it settle above
      the reservation. */
  lemma DearerComponentOutgrows(r: RateVector, kind: CacheKind, c: Component) returns (n: nat)
    requires NonNegative(r) && RateOf(r, c) > ReservedRate(r, kind)
    requires (c.FiveMinuteWrite? ==> !kind.NoWrite?) && (c.OneHourWrite? ==> kind.Write1h?)
    ensures Within(Only(c, n), kind, n, 0) && CostMicros(r, Only(c, n)) > Reserve(r, kind, n, 0, 0)
  {
    n := EnoughUnits(ReservedRate(r, kind), RateOf(r, c));
    TwoMicrosOutgrowRounding(r, kind, c, n);
  }

  ghost predicate AlwaysReserved(r: RateVector, kind: CacheKind)
    requires NonNegative(r)
  {
    forall t: Tokens, input: nat, output: nat :: Within(t, kind, input, output) ==> CostMicros(r, t) <= Reserve(r, kind, input, output, 0)
  }

  /** The reservation dominates every settlement within its projection if and only if no rate the usage can
      name is dearer than the one reserved. */
  lemma ReservationDominatesSettlement(r: RateVector, kind: CacheKind)
    requires NonNegative(r)
    ensures AlwaysReserved(r, kind) <==> Covers(r, kind)
  {
    if Covers(r, kind) {
      forall t: Tokens, input: nat, output: nat | Within(t, kind, input, output)
        ensures CostMicros(r, t) <= Reserve(r, kind, input, output, 0)
      {
        CoveredUsageIsReserved(r, kind, input, output, t);
      }
    } else {
      var top := ReservedRate(r, kind);
      var c := if r.input > top then PlainInput
               else if Effective(r.cachedInput, r.input) > top then CachedInput
               else if AudioRate(r) > top then Audio
               else if !kind.NoWrite? && Effective(r.cacheWrite5m, r.input) > top then FiveMinuteWrite
               else OneHourWrite;
      var n := DearerComponentOutgrows(r, kind, c);
    }
  }

  /** Audio dearer than text, as in some rows: a request priced as text can settle above its reservation. */
  lemma DearAudioBreaksTheBound()
    ensures var r := RateVector(0.3, None, None, None, 2.5, None, None, Some(1.0), None);
            Within(Only(Audio, 1000), NoWrite, 1000, 0) && CostMicros(r, Only(Audio, 1000)) > Reserve(r, NoWrite, 1000, 0, 0)
  {
    TwoMicrosOutgrowRounding(RateVector(0.3, None, None, None, 2.5, None, None, Some(1.0), None), NoWrite, Audio, 1000);
  }

  // ------------------------------------------------------------------ unexpected tiers

  function ScaledUp(base: nat, multiplier: real): real { MicroUsdToDecimal(base) * multiplier }

  /** What is held when the provider reports a tier without a certified price. */
  function Held(base: nat, multiplier: real, reserved: nat): nat
    requires multiplier >= 0.0
  {
    ScaledUpIsNonNegative(base, multiplier);
    var scaled := Micros(ScaledUp(base, multiplier));
    if scaled < reserved then reserved else scaled
  }

  lemma ScaledUpIsNonNegative(base: nat, multiplier: real)
    requires multiplier >= 0.0
    ensures ScaledUp(base, multiplier) >= 0.0
    ensures multiplier >= 1.0 ==> ScaledUp(base, multiplier) >= MicroUsdToDecimal(base)
  {
    var x := MicroUsdToDecimal(base);
    if multiplier >= 1.0 { assert x * (multiplier - 1.0) >= 0.0; }
  }

  /** The operator's multiplier is at least 1, so the hold covers both the reservation and the base cost. */
  lemma HoldCoversReserveAndCost(base: nat, multiplier: real, reserved: nat)
    requires multiplier >= 1.0
    ensures Held(base, multiplier, reserved) >= reserved && Held(base, multiplier, reserved) >= base
  {
    hide Micros, ScaledUp;
    ScaledUpIsNonNegative(base, multiplier);
    MicrosIsMonotone(MicroUsdToDecimal(base), ScaledUp(base, multiplier));
    MicrosInvertsMicroUsdToDecimal(base);
  }
}
