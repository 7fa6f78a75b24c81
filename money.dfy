/**
 * Amounts of money. Every figure the console shows passes through
 * `Number.prototype.toFixed(2)`; here an amount is an exact real and
 * `toFixed(2)` is rounding to whole cents, half away from zero, plus the
 * string it prints.
 */
module Money {
  import opened Common
  import opened Text
  import opened JsValues

  /** The whole number of cents `toFixed(2)` rounds `x` to. */
  function Cents(x: real): (c: int)
    ensures x >= 0.0 ==> c >= 0
  {
    if x >= 0.0 then
      assert x * 100.0 >= 0.0;
      (x * 100.0 + 0.5).Floor
    else
      assert (-x) * 100.0 > 0.0;
      -((-x) * 100.0 + 0.5).Floor
  }

  /** `parseFloat(x.toFixed(2))`: `x` rounded to cents, halves away from zero. */
  function RoundCents(x: real): real {
    Cents(x) as real / 100.0
  }

  /** `x` is a whole number of cents. */
  predicate IsCents(x: real) {
    (x * 100.0).Floor as real == x * 100.0
  }

  /** The unsigned text `toFixed(2)` prints for `m` cents. */
  function CentsText(m: nat): (s: string)
    ensures |s| >= 4 && IsDigit(s[0])
  {
    NatToString(m / 100) + ("." + [DigitChar(m % 100 / 10), DigitChar(m % 10)])
  }

  /** The text `toFixed(2)` prints for `m` cents, with a minus sign when `neg`. */
  function SignedCentsText(neg: bool, m: nat): string {
    if neg then "-" + CentsText(m) else CentsText(m)
  }

  /** The text `x.toFixed(2)` prints. */
  function Fixed2(x: real): string {
    var c := Cents(x);
    SignedCentsText(x < 0.0, if c < 0 then -c else c)
  }

  /** A non-negative amount rounds to the whole number of cents it lies nearest, halves going up. */
  lemma CentsNearest(x: real, c: int)
    requires x >= 0.0 && c as real <= x * 100.0 + 0.5 < c as real + 1.0
    ensures Cents(x) == c && RoundCents(x) == c as real / 100.0
  {
    var y := x * 100.0 + 0.5;
    assert y.Floor == c;
  }

  /** Rounding moves an amount by at most half a cent. */
  lemma RoundCentsError(x: real)
    ensures -0.005 <= RoundCents(x) - x <= 0.005
  {
  }

  /** The rounded amount is a whole number of cents. */
  lemma RoundCentsIsCents(x: real)
    ensures IsCents(RoundCents(x))
  {
    assert RoundCents(x) * 100.0 == Cents(x) as real;
  }

  /** Rounding an amount that is already in cents changes nothing, so a second `toFixed(2)` is a no-op. */
  lemma RoundCentsOfCents(x: real)
    requires IsCents(x)
    ensures RoundCents(x) == x
  {
    var c := (x * 100.0).Floor;
    if x >= 0.0 {
      assert (x * 100.0 + 0.5).Floor == c;
    } else {
      assert ((-x) * 100.0 + 0.5).Floor == -c;
    }
  }

  lemma RoundCentsIdempotent(x: real)
    ensures RoundCents(RoundCents(x)) == RoundCents(x)
  {
    RoundCentsIsCents(x);
    RoundCentsOfCents(RoundCents(x));
  }

  /** A sum of amounts in cents is in cents. */
  lemma CentsSum(x: real, y: real)
    requires IsCents(x) && IsCents(y)
    ensures IsCents(x + y)
  {
    var a := (x * 100.0).Floor;
    var b := (y * 100.0).Floor;
    assert (x + y) * 100.0 == (a + b) as real;
  }

  lemma CentsNeg(x: real)
    requires IsCents(x)
    ensures IsCents(-x)
  {
    var a := (x * 100.0).Floor;
    assert (-x) * 100.0 == (-a) as real;
  }

  lemma DigitPairValue(d1: nat, d0: nat)
    requires d1 < 10 && d0 < 10
    ensures DigitsValue([DigitChar(d1), DigitChar(d0)]) == 10 * d1 + d0
  {
    var frac := [DigitChar(d1), DigitChar(d0)];
    DigitCharValue(d1);
    DigitCharValue(d0);
    assert frac[..1] == [DigitChar(d1)];
    assert [DigitChar(d1)][..0] == [];
    assert DigitsValue(frac[..1]) == d1;
    assert DigitsValue(frac) == DigitsValue(frac[..1]) * 10 + d0;
  }

  lemma LastTwoDigits(m: nat)
    ensures m % 100 == 10 * (m % 100 / 10) + m % 10
  {
    var q, a := m / 100, m % 100;
    assert m == 10 * (10 * q + a / 10) + a % 10;
  }

  lemma TwoDigitsValue(m: nat)
    ensures DigitsValue([DigitChar(m % 100 / 10), DigitChar(m % 10)]) == m % 100
  {
    DigitPairValue(m % 100 / 10, m % 10);
    LastTwoDigits(m);
  }

  /** Where the whole digits, the point and the two fractional digits of such a numeral lie. */
  lemma PointNumeralParts(u: string, w: string, frac: string)
    requires |w| > 0 && forall i :: 0 <= i < |w| ==> IsDigit(w[i])
    requires |frac| == 2 && IsDigit(frac[0]) && IsDigit(frac[1])
    requires u == w + ("." + frac)
    ensures DigitRun(u) == |w| && |w| < |u| && u[|w|] == '.' && u[..|w|] == w && u[|w| + 1..] == frac
  {
    DigitRunConcat(w, "." + frac);
    assert u[|w| + 1..] == frac;
    assert u[..|w|] == w;
  }

  lemma TwoDigitRun(frac: string)
    requires |frac| == 2 && IsDigit(frac[0]) && IsDigit(frac[1])
    ensures DigitRun(frac) == 2 && frac[..2] == frac
  {
    DigitRunConcat(frac, "");
    assert frac + "" == frac;
  }

  /** Digits, a point and two more digits read back as the whole part plus hundredths. */
  lemma ParseUnsignedParts(u: string, w: string, frac: string, v: real)
    requires |w| > 0 && forall i :: 0 <= i < |w| ==> IsDigit(w[i])
    requires |frac| == 2 && IsDigit(frac[0]) && IsDigit(frac[1])
    requires u == w + ("." + frac)
    requires v == DigitsValue(w) as real + DigitsValue(frac) as real / 100.0
    ensures ParseUnsigned(u) == Some(v)
  {
    PointNumeralParts(u, w, frac);
    TwoDigitRun(frac);
    ParseUnsignedPoint(u, |w|, 2);
    DecimalShiftTwo(DigitsValue(frac) as real);
  }

  lemma CentsAsReal(m: nat, rupees: nat, paisa: nat)
    requires rupees == m / 100 && paisa == m % 100
    ensures rupees as real + paisa as real / 100.0 == m as real / 100.0
  {
    assert m == 100 * rupees + paisa;
  }

  lemma CentsTextParse(m: nat, u: string, v: real)
    requires u == CentsText(m) && v == m as real / 100.0
    ensures ParseUnsigned(u) == Some(v)
  {
    var w := NatToString(m / 100);
    var d1, d0 := m % 100 / 10, m % 10;
    var frac := [DigitChar(d1), DigitChar(d0)];
    DigitCharValue(d1);
    DigitCharValue(d0);
    NatToStringValue(m / 100);
    TwoDigitsValue(m);
    CentsAsReal(m, DigitsValue(w), DigitsValue(frac));
    ParseUnsignedParts(u, w, frac, v);
  }

  /** The digits `toFixed(2)` prints for `m` cents read back as `m / 100`. */
  lemma ParseCentsText(m: nat)
    ensures ParseUnsigned(CentsText(m)) == Some(m as real / 100.0)
  {
    CentsTextParse(m, CentsText(m), m as real / 100.0);
  }

  lemma {:induction false} ParseCentsPlain(m: nat)
    ensures ParseDecimal(CentsText(m)) == Some(m as real / 100.0)
  {
    ParseCentsText(m);
    var u := CentsText(m);
    assert !IsWhitespace(u[0]);
    TrimStartKeeps(u);
  }

  lemma {:induction false} ParseCentsMinus(m: nat)
    ensures ParseDecimal("-" + CentsText(m)) == Some(-(m as real / 100.0))
  {
    ParseCentsText(m);
    var u := CentsText(m);
    var s := "-" + u;
    assert s[0] == '-';
    TrimStartKeeps(s);
    assert s[1..] == u;
    assert ParseDecimal(s) == Negate(ParseUnsigned(s[1..]));
  }

  lemma {:induction false} ParseSignedCents(neg: bool, m: nat)
    ensures ParseDecimal(SignedCentsText(neg, m)) == Some(if neg then -(m as real / 100.0) else m as real / 100.0)
  {
    if neg {
      ParseCentsMinus(m);
    } else {
      ParseCentsPlain(m);
    }
  }

  /** The magnitude of the cents and the sign recover the rounded amount. */
  lemma CentsMagnitude(x: real, m: nat)
    requires m == if Cents(x) < 0 then -Cents(x) else Cents(x)
    ensures (if x < 0.0 then -(m as real / 100.0) else m as real / 100.0) == RoundCents(x)
  {
    if x < 0.0 {
      assert Cents(x) <= 0;
    } else {
      assert Cents(x) >= 0;
    }
  }

  /** `parseFloat(x.toFixed(2))` reads back exactly the rounded amount. */
  lemma {:induction false} ParseFixed2(x: real)
    ensures ParseDecimal(Fixed2(x)) == Some(RoundCents(x))
  {
    var m: nat := if Cents(x) < 0 then -Cents(x) else Cents(x);
    ParseSignedCents(x < 0.0, m);
    CentsMagnitude(x, m);
  }
}
