/** Rates and component cost: kazenai/price_catalog.py. Rates are US dollars per million tokens, except
    toolPerCall, in exact reals. A cost is a bill of lines, each a count at a rate. */
module Rates {
  import opened Wrappers
  import opened Money

  datatype RateVector = RateVector(
    input: real, cachedInput: Option<real>, cacheWrite5m: Option<real>, cacheWrite1h: Option<real>, output: real,
    image: Option<real>, toolPerCall: Option<real>, audioInput: Option<real>, audioCachedInput: Option<real>)

  datatype Tokens = Tokens(
    input: int, cached: int, write5m: int, write1h: int, output: int, image: int, tools: int, audio: int, audioCached: int)

  function Effective(rate: Option<real>, inputRate: real): real {
    if rate.None? then inputRate else rate.value
  }

  function AudioRate(r: RateVector): real { Effective(r.audioInput, r.input) }

  /** Cached audio: its own rate, else the cached rate when audio has no rate of its own, else the audio rate. */
  function AudioCachedRate(r: RateVector): real {
    if r.audioCachedInput.Some? then r.audioCachedInput.value
    else if r.audioInput.None? then Effective(r.cachedInput, r.input)
    else AudioRate(r)
  }

  datatype Line = Line(count: int, rate: real)

  /** A negative count is billed as none. */
  function Billed(l: Line): nat { if l.count > 0 then l.count else 0 }

  function Bill(lines: seq<Line>): real {
    if lines == [] then 0.0 else Billed(lines[0]) as real * lines[0].rate + Bill(lines[1..])
  }

  function InputLines(r: RateVector, t: Tokens): seq<Line> {
    [Line(t.input, r.input), Line(t.cached, Effective(r.cachedInput, r.input)),
     Line(t.write5m, Effective(r.cacheWrite5m, r.input)), Line(t.write1h, Effective(r.cacheWrite1h, r.input))]
  }

  function OutputLines(r: RateVector, t: Tokens): seq<Line> {
    [Line(t.output, r.output), Line(t.image, Effective(r.image, r.input))]
  }

  function ToolLines(r: RateVector, t: Tokens): seq<Line> { [Line(t.tools, Effective(r.toolPerCall, 0.0))] }

  function AudioLines(r: RateVector, t: Tokens): seq<Line> {
    if t.audio > 0 || t.audioCached > 0 then [Line(t.audio, AudioRate(r)), Line(t.audioCached, AudioCachedRate(r))] else []
  }

  function ComponentCost(r: RateVector, t: Tokens): real {
    Bill(InputLines(r, t) + OutputLines(r, t)) / 1000000.0 + Bill(ToolLines(r, t)) + Bill(AudioLines(r, t)) / 1000000.0
  }

  function ScaledRate(rate: Option<real>, m: real): Option<real> {
    if rate.None? then None else Some(rate.value * m)
  }

  function Scaled(r: RateVector, m: real): RateVector {
    if m == 1.0 then r
    else RateVector(r.input * m, ScaledRate(r.cachedInput, m), ScaledRate(r.cacheWrite5m, m), ScaledRate(r.cacheWrite1h, m),
                    r.output * m, ScaledRate(r.image, m), ScaledRate(r.toolPerCall, m), ScaledRate(r.audioInput, m),
                    ScaledRate(r.audioCachedInput, m))
  }

  /** What the catalog's loader enforces of every rate. */
  predicate NonNegative(r: RateVector) {
    && r.input >= 0.0 && r.output >= 0.0
    && Effective(r.cachedInput, 0.0) >= 0.0 && Effective(r.cacheWrite5m, 0.0) >= 0.0 && Effective(r.cacheWrite1h, 0.0) >= 0.0
    && Effective(r.image, 0.0) >= 0.0 && Effective(r.toolPerCall, 0.0) >= 0.0
    && Effective(r.audioInput, 0.0) >= 0.0 && Effective(r.audioCachedInput, 0.0) >= 0.0
  }

  // ------------------------------------------------------------------ bills

  lemma {:induction false} BillIsNonNegative(lines: seq<Line>)
    requires forall l <- lines :: l.rate >= 0.0
    ensures Bill(lines) >= 0.0
  {
    if lines != [] {
      assert lines[0] in lines;
      BillIsNonNegative(lines[1..]);
    }
  }

  lemma {:induction false} BillOfBoth(a: seq<Line>, b: seq<Line>)
    ensures Bill(a + b) == Bill(a) + Bill(b)
  {
    if a == [] {
      assert a + b == b;
    } else {
      BillOfBoth(a[1..], b);
      assert (a + b)[0] == a[0] && (a + b)[1..] == a[1..] + b;
    }
  }

  function Units(lines: seq<Line>): nat {
    if lines == [] then 0 else Billed(lines[0]) + Units(lines[1..])
  }

  lemma {:induction false} UnitsOfBoth(a: seq<Line>, b: seq<Line>)
    ensures Units(a + b) == Units(a) + Units(b)
  {
    if a == [] {
      assert a + b == b;
    } else {
      UnitsOfBoth(a[1..], b);
      assert (a + b)[0] == a[0] && (a + b)[1..] == a[1..] + b;
    }
  }

  /** If no line that counts is dearer than rate, the bill is no more than all units at rate. */
  lemma {:induction false} BillAtMost(lines: seq<Line>, rate: real)
    requires forall l <- lines :: l.count > 0 ==> l.rate <= rate
    ensures Bill(lines) <= Units(lines) as real * rate
  {
    if lines != [] {
      var l := lines[0];
      assert l in lines;
      BillAtMost(lines[1..], rate);
      var n, rest := Billed(l) as real, Units(lines[1..]) as real;
      if n > 0.0 { assert n * l.rate <= n * rate; }
      assert (n + rest) * rate == n * rate + rest * rate;
      assert Units(lines) as real == n + rest;
    }
  }

  /** a bills the counts of b at m times the rates. */
  predicate Rescales(a: seq<Line>, b: seq<Line>, m: real) {
    |a| == |b| && forall i :: 0 <= i < |a| ==> a[i] == Line(b[i].count, b[i].rate * m)
  }

  lemma {:induction false} BillScales(a: seq<Line>, b: seq<Line>, m: real)
    requires Rescales(a, b, m)
    ensures Bill(a) == m * Bill(b)
  {
    if b != [] {
      assert a[0] == Line(b[0].count, b[0].rate * m);
      BillScales(a[1..], b[1..], m);
      var c, x, rest := Billed(b[0]) as real, b[0].rate, Bill(b[1..]);
      assert c * (x * m) == m * (c * x);
      assert m * (c * x + rest) == m * (c * x) + m * rest;
    }
  }

  // ------------------------------------------------------------------ costs

  lemma CostIsNonNegative(r: RateVector, t: Tokens)
    requires NonNegative(r)
    ensures ComponentCost(r, t) >= 0.0
  {
    BillIsNonNegative(InputLines(r, t) + OutputLines(r, t));
    BillIsNonNegative(ToolLines(r, t));
    BillIsNonNegative(AudioLines(r, t));
  }

  function CostMicros(r: RateVector, t: Tokens): nat
    requires NonNegative(r)
  {
    CostIsNonNegative(r, t);
    Micros(ComponentCost(r, t))
  }

  /** Scaling commutes with filling in the rates a provider does not publish. */
  lemma EffectiveScales(r: RateVector, m: real)
    ensures var s := Scaled(r, m);
            && s.input == r.input * m && s.output == r.output * m
            && Effective(s.cachedInput, s.input) == Effective(r.cachedInput, r.input) * m
            && Effective(s.cacheWrite5m, s.input) == Effective(r.cacheWrite5m, r.input) * m
            && Effective(s.cacheWrite1h, s.input) == Effective(r.cacheWrite1h, r.input) * m
            && Effective(s.image, s.input) == Effective(r.image, r.input) * m
            && Effective(s.toolPerCall, 0.0) == Effective(r.toolPerCall, 0.0) * m
            && AudioRate(s) == AudioRate(r) * m && AudioCachedRate(s) == AudioCachedRate(r) * m
  {
  }

  lemma InputLinesScale(r: RateVector, m: real, t: Tokens)
    ensures Rescales(InputLines(Scaled(r, m), t), InputLines(r, t), m)
  {
    hide Scaled, Effective;
    EffectiveScales(r, m);
  }

  lemma OutputLinesScale(r: RateVector, m: real, t: Tokens)
    ensures Rescales(OutputLines(Scaled(r, m), t), OutputLines(r, t), m)
    ensures Rescales(ToolLines(Scaled(r, m), t), ToolLines(r, t), m)
  {
    hide Scaled, Effective;
    EffectiveScales(r, m);
  }

  lemma AudioLinesScale(r: RateVector, m: real, t: Tokens)
    ensures Rescales(AudioLines(Scaled(r, m), t), AudioLines(r, t), m)
  {
    hide Scaled, Effective, AudioRate, AudioCachedRate;
    EffectiveScales(r, m);
  }

  lemma Distributes(m: real, x: real, y: real, z: real)
    ensures (m * x) / 1000000.0 + m * y + (m * z) / 1000000.0 == m * (x / 1000000.0 + y + z / 1000000.0)
  {
    assert (m * x) / 1000000.0 == m * (x / 1000000.0) && (m * z) / 1000000.0 == m * (z / 1000000.0);
    var p, q := x / 1000000.0, z / 1000000.0;
    assert m * (p + y) == m * p + m * y;
    assert m * (p + y + q) == m * (p + y) + m * q;
  }

  lemma {:induction false} BillScalesBoth(a: seq<Line>, b: seq<Line>, c: seq<Line>, d: seq<Line>, m: real)
    requires Rescales(a, c, m) && Rescales(b, d, m)
    ensures Bill(a + b) == m * Bill(c + d)
  {
    assert forall i :: 0 <= i < |a + b| ==> (a + b)[i] == Line((c + d)[i].count, (c + d)[i].rate * m) by {
      forall i | 0 <= i < |a + b| ensures (a + b)[i] == Line((c + d)[i].count, (c + d)[i].rate * m) {
        if i < |a| { assert (a + b)[i] == a[i]; } else { assert (a + b)[i] == b[i - |a|]; }
      }
    }
    BillScales(a + b, c + d, m);
  }

  lemma TextBillScales(r: RateVector, m: real, t: Tokens)
    ensures Bill(InputLines(Scaled(r, m), t) + OutputLines(Scaled(r, m), t)) == m * Bill(InputLines(r, t) + OutputLines(r, t))
  {
    hide Bill, Scaled, Rescales, InputLines, OutputLines, ToolLines;
    InputLinesScale(r, m, t);
    OutputLinesScale(r, m, t);
    BillScalesBoth(InputLines(Scaled(r, m), t), OutputLines(Scaled(r, m), t), InputLines(r, t), OutputLines(r, t), m);
  }

  lemma OtherBillsScale(r: RateVector, m: real, t: Tokens)
    ensures Bill(ToolLines(Scaled(r, m), t)) == m * Bill(ToolLines(r, t))
    ensures Bill(AudioLines(Scaled(r, m), t)) == m * Bill(AudioLines(r, t))
  {
    hide Bill, Scaled, Rescales, ToolLines, AudioLines;
    OutputLinesScale(r, m, t);
    AudioLinesScale(r, m, t);
    BillScales(ToolLines(Scaled(r, m), t), ToolLines(r, t), m);
    BillScales(AudioLines(Scaled(r, m), t), AudioLines(r, t), m);
  }

  /** A price multiplier multiplies the whole cost, whatever the mix of components. */
  lemma ScalingScalesTheCost(r: RateVector, m: real, t: Tokens)
    ensures ComponentCost(Scaled(r, m), t) == m * ComponentCost(r, t)
  {
    hide Bill, Scaled, InputLines, OutputLines, ToolLines, AudioLines;
    TextBillScales(r, m, t);
    OtherBillsScale(r, m, t);
    var x, y, z := Bill(InputLines(r, t) + OutputLines(r, t)), Bill(ToolLines(r, t)), Bill(AudioLines(r, t));
    assert ComponentCost(r, t) == x / 1000000.0 + y + z / 1000000.0;
    assert ComponentCost(Scaled(r, m), t) == (m * x) / 1000000.0 + m * y + (m * z) / 1000000.0;
    Distributes(m, x, y, z);
  }

  // ------------------------------------------------------------------ exact ceilings

  /** At most three decimals. */
  predicate ThreeDecimals(rate: real) { (rate * 1000.0).Floor as real == rate * 1000.0 }

  predicate RatesHaveThreeDecimals(r: RateVector) {
    && ThreeDecimals(r.input) && ThreeDecimals(r.output)
    && ThreeDecimals(Effective(r.cachedInput, 0.0)) && ThreeDecimals(Effective(r.cacheWrite5m, 0.0))
    && ThreeDecimals(Effective(r.cacheWrite1h, 0.0)) && ThreeDecimals(Effective(r.image, 0.0))
    && ThreeDecimals(Effective(r.toolPerCall, 0.0)) && ThreeDecimals(Effective(r.audioInput, 0.0))
    && ThreeDecimals(Effective(r.audioCachedInput, 0.0))
  }

  /** The bill in thousandths of its unit. */
  function Thousandths(lines: seq<Line>): int {
    if lines == [] then 0 else Billed(lines[0]) * (lines[0].rate * 1000.0).Floor + Thousandths(lines[1..])
  }

  lemma {:induction false} BillInThousandths(lines: seq<Line>)
    requires forall l <- lines :: ThreeDecimals(l.rate)
    ensures Bill(lines) * 1000.0 == Thousandths(lines) as real
  {
    if lines != [] {
      var l := lines[0];
      assert l in lines;
      BillInThousandths(lines[1..]);
      assert (Billed(l) * (l.rate * 1000.0).Floor) as real == Billed(l) as real * (l.rate * 1000.0).Floor as real;
      assert Billed(l) as real * (l.rate * 1000.0) == (Billed(l) as real * l.rate) * 1000.0;
    }
  }

  /** With rates of at most three decimals no half-nano is ever rounded away: every cost is charged its exact
      ceiling in micro-dollars. */
  lemma ThreeDecimalRatesAreCeiledExactly(r: RateVector, t: Tokens)
    requires NonNegative(r) && RatesHaveThreeDecimals(r)
    ensures CostMicros(r, t) == Ceiling(ComponentCost(r, t) * 1000000.0)
  {
    var text := InputLines(r, t) + OutputLines(r, t);
    BillInThousandths(text);
    BillInThousandths(ToolLines(r, t));
    BillInThousandths(AudioLines(r, t));
    var nanos := Thousandths(text) + 1000000 * Thousandths(ToolLines(r, t)) + Thousandths(AudioLines(r, t));
    CostIsNonNegative(r, t);
    assert ComponentCost(r, t) * 1000000000.0 == nanos as real;
    WholeNanosAreCeiled(ComponentCost(r, t), nanos);
  }
}
