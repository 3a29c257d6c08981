/** Money: kazenai/price_catalog.py (decimal_to_micro_usd and its inverse) and usd_to_micros_ceil of
    kazenai/integrations/litellm_control.py. Amounts are exact reals; micro-USD are integers. */
module Money {
  import opened Wrappers

  datatype MoneyError = NonFiniteAmount | NegativeAmount

  datatype Amount = Finite(usd: real) | NonFinite

  function RoundHalfEven(x: real): (n: int)
    ensures -0.5 <= n as real - x <= 0.5
    ensures n as real - x == 0.5 || n as real - x == -0.5 ==> n % 2 == 0
  {
    var below := x.Floor;
    var rest := x - below as real;
    if rest < 0.5 then below else if rest > 0.5 then below + 1 else if below % 2 == 0 then below else below + 1
  }

  function Ceiling(x: real): (n: int)
    ensures n as real - 1.0 < x <= n as real
  {
    -((-x).Floor)
  }

  /** Half-even to nano-dollars, then up to whole micro-dollars. */
  function Micros(usd: real): nat
    requires usd >= 0.0
  {
    Ceiling(RoundHalfEven(usd * 1000000000.0) as real / 1000.0)
  }

  function DecimalToMicroUsd(amount: Amount): Result<nat, MoneyError> {
    if amount.NonFinite? then Err(NonFiniteAmount)
    else if amount.usd < 0.0 then Err(NegativeAmount)
    else Ok(Micros(amount.usd))
  }

  function MicroUsdToDecimal(micros: int): real { micros as real / 1000000.0 }

  function Max(a: int, b: int): int { if a >= b then a else b }

  function UsdToMicrosCeil(usd: real): nat {
    var value := if usd > 0.0 then usd else 0.0;
    var micros := (value * 1000000.0 + 0.999999).Floor;
    if value > 0.0 then Max(1, micros) else 0
  }

  // ------------------------------------------------------------------ rounding laws

  lemma RoundingIsMonotone(x: real, y: real)
    requires x <= y
    ensures RoundHalfEven(x) <= RoundHalfEven(y)
  {
  }

  lemma CeilingIsMonotone(x: real, y: real)
    requires x <= y
    ensures Ceiling(x) <= Ceiling(y)
  {
  }

  lemma MicrosIsMonotone(x: real, y: real)
    requires 0.0 <= x <= y
    ensures Micros(x) <= Micros(y)
  {
    RoundingIsMonotone(x * 1000000000.0, y * 1000000000.0);
    CeilingIsMonotone(RoundHalfEven(x * 1000000000.0) as real / 1000.0, RoundHalfEven(y * 1000000000.0) as real / 1000.0);
  }

  /** Whole micro-dollars come back unchanged. */
  lemma MicrosInvertsMicroUsdToDecimal(micros: nat)
    ensures DecimalToMicroUsd(Finite(MicroUsdToDecimal(micros))) == Ok(micros)
  {
    var x := MicroUsdToDecimal(micros) * 1000000000.0;
    assert x == (1000 * micros) as real;
    assert RoundHalfEven(x) == 1000 * micros;
  }

  /** Never more than half a nano-dollar too little, never a whole micro-dollar too much: the excess is at
      most 0.9995 of one. */
  lemma MicrosIsClose(usd: real)
    requires usd >= 0.0
    ensures -0.0005 <= Micros(usd) as real - usd * 1000000.0 <= 0.9995
  {
    var n := RoundHalfEven(usd * 1000000000.0);
    var m := Micros(usd);
    assert 1000 * m < n + 1000;
    assert 1000 * m <= n + 999;
  }

  /** It charges too little exactly when rounding to nanos threw a fraction away and left whole micros. */
  lemma UndershootsExactly(usd: real)
    requires usd >= 0.0
    ensures var n := RoundHalfEven(usd * 1000000000.0);
            Micros(usd) as real < usd * 1000000.0 <==> n % 1000 == 0 && n as real < usd * 1000000000.0
  {
    var n := RoundHalfEven(usd * 1000000000.0);
    var m := Micros(usd);
    assert n <= 1000 * m < n + 1000;
    if n % 1000 == 0 {
      assert 1000 * m == n;
    } else {
      assert 1000 * m >= n + 1;
    }
  }

  /** An amount in whole nano-dollars is charged its exact ceiling. */
  lemma WholeNanosAreCeiled(usd: real, nanos: nat)
    requires usd * 1000000000.0 == nanos as real
    ensures Micros(usd) == Ceiling(usd * 1000000.0)
  {
    assert RoundHalfEven(usd * 1000000000.0) == nanos;
  }

  /** The gateway's rule charges what the catalog's rule does, or one micro more: exactly when the catalog's
      rule comes to nothing or leaves a millionth of a micro-dollar or more uncharged. */
  lemma GatewayRoundingIsWithinOne(usd: real)
    requires usd >= 0.0
    ensures Micros(usd) <= UsdToMicrosCeil(usd) <= Micros(usd) + 1
    ensures UsdToMicrosCeil(usd) == Micros(usd) + 1
       <==> usd > 0.0 && (Micros(usd) == 0 || usd * 1000000.0 - Micros(usd) as real >= 0.000001)
  {
    var y := usd * 1000000.0;
    var n := RoundHalfEven(usd * 1000000000.0);
    var d := Micros(usd);
    var whole := y.Floor;
    var u := (y + 0.999999).Floor;
    assert usd * 1000000000.0 == y * 1000.0;
    assert n <= 1000 * d < n + 1000;
    assert -500.0 <= 1000.0 * n as real - 1000000.0 * y <= 500.0;
    if y - whole as real < 0.000001 {
      assert n == 1000 * whole;
      assert d == whole && u == whole;
    } else {
      assert u == whole + 1;
      assert 1000 * whole <= n <= 1000 * whole + 1000;
    }
  }

  /** A price the catalog rounded passes through dollars and the gateway's rounding unchanged. */
  lemma GatewayKeepsWholeMicros(micros: nat)
    ensures UsdToMicrosCeil(MicroUsdToDecimal(micros)) == micros
  {
    assert MicroUsdToDecimal(micros) * 1000000.0 == micros as real;
  }
}
