/** Decimal text: format(value, "f") and reading plain decimal notation back. A decimal is compared by value, so
    one with a positive exponent is held written out: coefficient / 10^scale. */
module Decimals {
  import opened Wrappers

  datatype Dec = Dec(coefficient: int, scale: nat)

  predicate IsDigit(c: char) { '0' <= c <= '9' }

  predicate AllDigits(s: string) { forall i :: 0 <= i < |s| ==> IsDigit(s[i]) }

  function DigitOf(n: nat): char
    requires n < 10
  {
    '0' + n as char
  }

  function Digits(n: nat): (s: string)
    ensures s != [] && AllDigits(s)
  {
    if n < 10 then [DigitOf(n)] else Digits(n / 10) + [DigitOf(n % 10)]
  }

  function FromDigits(s: string): nat
    requires AllDigits(s)
  {
    if s == [] then 0 else FromDigits(s[..|s| - 1]) * 10 + (s[|s| - 1] as int - '0' as int)
  }

  function Zeros(n: nat): (s: string)
    ensures |s| == n && AllDigits(s)
  {
    if n == 0 then [] else Zeros(n - 1) + ['0']
  }

  function Padded(ds: string, scale: nat): (s: string)
    requires AllDigits(ds)
    ensures AllDigits(s) && |s| > scale
  {
    if |ds| <= scale then Zeros(scale + 1 - |ds|) + ds else ds
  }

  function WithPoint(s: string, scale: nat): string
    requires scale < |s|
  {
    s[..|s| - scale] + ['.'] + s[|s| - scale..]
  }

  /** format(value, "f") of a non-negative value: at least one digit before the point, scale digits behind it. */
  function Format(d: Dec): string
    requires d.coefficient >= 0
  {
    var ds := Digits(d.coefficient);
    if d.scale == 0 then ds else WithPoint(Padded(ds, d.scale), d.scale)
  }

  function PointIn(s: string): (i: nat)
    ensures i <= |s| && (i < |s| ==> s[i] == '.') && forall j :: 0 <= j < i ==> s[j] != '.'
  {
    if s == [] || s[0] == '.' then 0 else 1 + PointIn(s[1..])
  }

  /** Plain notation: digits, with at most one point among them. */
  function ReadPlain(s: string): Option<Dec> {
    var p := PointIn(s);
    var whole, fraction := s[..p], if p < |s| then s[p + 1..] else [];
    if AllDigits(whole) && AllDigits(fraction) && (whole != [] || fraction != []) then
      BothDigits(whole, fraction);
      Some(Dec(FromDigits(whole + fraction), |fraction|))
    else None
  }

  lemma BothDigits(a: string, b: string)
    requires AllDigits(a) && AllDigits(b)
    ensures AllDigits(a + b)
  {
  }

  lemma {:induction false} DigitsReadBack(n: nat)
    ensures FromDigits(Digits(n)) == n
  {
    if n >= 10 {
      DigitsReadBack(n / 10);
      assert Digits(n)[..|Digits(n)| - 1] == Digits(n / 10);
    }
  }

  lemma {:induction false} LeadingZeros(k: nat, s: string)
    requires AllDigits(s)
    ensures AllDigits(Zeros(k) + s) && FromDigits(Zeros(k) + s) == FromDigits(s)
    decreases |s| + k
  {
    if s == [] {
      assert Zeros(k) + s == Zeros(k);
      if k > 0 {
        LeadingZeros(k - 1, []);
        assert Zeros(k)[..k - 1] == Zeros(k - 1) == Zeros(k - 1) + [];
      }
    } else {
      var t, rest, last := Zeros(k) + s, s[..|s| - 1], s[|s| - 1];
      LeadingZeros(k, rest);
      assert t[..|t| - 1] == Zeros(k) + rest && t[|t| - 1] == last;
      hide Zeros;
    }
  }

  lemma ReadsWithoutPoint(ds: string)
    requires ds != [] && AllDigits(ds)
    ensures ReadPlain(ds) == Some(Dec(FromDigits(ds), 0))
  {
    assert PointIn(ds) == |ds|;
    assert ds[..|ds|] == ds && ds + [] == ds;
  }

  lemma ReadsAroundPoint(whole: string, fraction: string)
    requires (whole != [] || fraction != []) && AllDigits(whole) && AllDigits(fraction)
    ensures AllDigits(whole + fraction) && ReadPlain(whole + ['.'] + fraction) == Some(Dec(FromDigits(whole + fraction), |fraction|))
  {
    var s := whole + ['.'] + fraction;
    assert s[|whole|] == '.';
    assert forall j :: 0 <= j < |whole| ==> s[j] == whole[j];
    assert PointIn(s) == |whole|;
    assert s[..|whole|] == whole && s[|whole| + 1..] == fraction;
  }

  /** Plain notation: digits, or digits around a point, some on at least one side. */
  ghost predicate IsPlain(s: string) {
    || (s != [] && AllDigits(s))
    || exists whole: string, fraction: string :: s == whole + ['.'] + fraction && AllDigits(whole) && AllDigits(fraction) && |whole| + |fraction| > 0
  }

  /** Just that is read, as the digits scaled by how many stand after the point. */
  lemma PlainIsWhatIsRead(s: string, whole: string, fraction: string)
    ensures ReadPlain(s).Some? <==> IsPlain(s)
    ensures s != [] && AllDigits(s) ==> ReadPlain(s) == Some(Dec(FromDigits(s), 0))
    ensures AllDigits(whole) && AllDigits(fraction) && |whole| + |fraction| > 0 ==>
              AllDigits(whole + fraction) && ReadPlain(whole + ['.'] + fraction) == Some(Dec(FromDigits(whole + fraction), |fraction|))
  {
    if s != [] && AllDigits(s) { ReadsWithoutPoint(s); }
    if AllDigits(whole) && AllDigits(fraction) && |whole| + |fraction| > 0 { ReadsAroundPoint(whole, fraction); }
    if ReadPlain(s).Some? { ReadIsPlain(s); }
    hide ReadPlain, FromDigits, AllDigits;
    if IsPlain(s) { PlainIsRead(s); }
  }

  lemma PlainIsRead(s: string)
    requires IsPlain(s)
    ensures ReadPlain(s).Some?
  {
    hide ReadPlain, FromDigits, AllDigits;
    if s != [] && AllDigits(s) {
      ReadsWithoutPoint(s);
    } else {
      var whole: string, fraction: string :| s == whole + ['.'] + fraction && AllDigits(whole) && AllDigits(fraction) && |whole| + |fraction| > 0;
      ReadsAroundPoint(whole, fraction);
    }
  }

  lemma ReadIsPlain(s: string)
    requires ReadPlain(s).Some?
    ensures IsPlain(s)
  {
    var p := PointIn(s);
    if p < |s| {
      assert s == s[..p] + ['.'] + s[p + 1..];
    } else {
      assert s[..p] == s;
    }
  }

  lemma PaddingKeepsTheValue(ds: string, scale: nat)
    requires AllDigits(ds)
    ensures FromDigits(Padded(ds, scale)) == FromDigits(ds)
  {
    hide FromDigits, Zeros, AllDigits;
    if |ds| <= scale { LeadingZeros(scale + 1 - |ds|, ds); }
  }

  lemma Recombine(s: string, cut: nat, whole: string, fraction: string)
    requires cut <= |s| && AllDigits(s) && whole == s[..cut] && fraction == s[cut..]
    ensures AllDigits(whole) && AllDigits(fraction) && whole + fraction == s
  {
  }

  lemma WithPointReads(s: string, scale: nat)
    requires AllDigits(s) && scale < |s|
    ensures ReadPlain(WithPoint(s, scale)) == Some(Dec(FromDigits(s), scale))
  {
    var whole, fraction := s[..|s| - scale], s[|s| - scale..];
    assert WithPoint(s, scale) == whole + ['.'] + fraction;
    Recombine(s, |s| - scale, whole, fraction);
    hide AllDigits, WithPoint, FromDigits;
    ReadsAroundPoint(whole, fraction);
  }

  /** What was formatted reads back as the same decimal, trailing zeros and all. */
  lemma FormatReadsBack(d: Dec)
    requires d.coefficient >= 0
    ensures ReadPlain(Format(d)) == Some(d)
  {
    var ds := Digits(d.coefficient);
    DigitsReadBack(d.coefficient);
    if d.scale == 0 {
      ReadsWithoutPoint(ds);
    } else {
      PaddingKeepsTheValue(ds, d.scale);
      WithPointReads(Padded(ds, d.scale), d.scale);
    }
  }
}
