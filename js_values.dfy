/**
 * The JavaScript values the console passes around: JSON-shaped data, optional
 * property access, truthiness and `||` defaults, and `parseFloat`.
 */
module JsValues {
  import opened Common
  import opened Text

  /** A JSON value; numbers are exact reals (floating point is not modelled). */
  datatype Json =
    | JNull
    | JBool(b: bool)
    | JNum(n: real)
    | JStr(s: string)
    | JArr(elems: seq<Json>)
    | JObj(fields: map<string, Json>)

  /** `v?.[key]`: absent for a missing key and for a value that is not an object. */
  function Prop(v: Option<Json>, key: string): Option<Json> {
    if v.Some? && v.value.JObj? && key in v.value.fields then Some(v.value.fields[key]) else None
  }

  /** JavaScript truthiness; `None` is `undefined`. */
  predicate Truthy(v: Option<Json>) {
    match v
    case None => false
    case Some(j) =>
      match j
      case JNull => false
      case JBool(b) => b
      case JNum(n) => n != 0.0
      case JStr(s) => s != ""
      case JArr(_) => true
      case JObj(_) => true
  }

  /** `v || d`: the left operand when it is truthy, otherwise the default; truthy when either is. */
  function OrElse(v: Option<Json>, d: Json): (r: Json)
    ensures Some(r) == v || r == d
    ensures Truthy(Some(r)) <==> Truthy(v) || Truthy(Some(d))
    ensures Truthy(v) ==> Some(r) == v
    ensures !Truthy(v) ==> r == d
  {
    if Truthy(v) then v.value else d
  }

  /** `v || ''` for a value that is read as text; a truthy non-string is left out as `''`. */
  function StrOr(v: Option<Json>, d: string): string {
    if v.Some? && v.value.JStr? && v.value.s != "" then v.value.s else d
  }

  // ---------------------------------------------------------------- parseFloat

  /** `x` divided by ten `k` times: the value of `x` read after a decimal point with `k` places. */
  function DecimalShift(x: real, k: nat): real {
    if k == 0 then x else DecimalShift(x, k - 1) / 10.0
  }

  /** The length of the run of decimal digits at the start of `s`. */
  function DigitRun(s: string): (k: nat)
    ensures k <= |s|
    ensures forall i :: 0 <= i < k ==> IsDigit(s[i])
    ensures k < |s| ==> !IsDigit(s[k])
  {
    if |s| > 0 && IsDigit(s[0]) then 1 + DigitRun(s[1..]) else 0
  }

  /** The longest prefix of the form `digits [. digits]` with at least one digit, read as a number. */
  function ParseUnsigned(u: string): Option<real> {
    var i := DigitRun(u);
    var whole := DigitsValue(u[..i]) as real;
    if i < |u| && u[i] == '.' then
      var f := DigitRun(u[i + 1..]);
      if i == 0 && f == 0 then None
      else Some(whole + DecimalShift(DigitsValue(u[i + 1..][..f]) as real, f))
    else if i == 0 then None
    else Some(whole)
  }

  /** `ParseUnsigned` on a numeral with a point, given where its whole and its fractional digits end. */
  lemma ParseUnsignedPoint(u: string, i: nat, f: nat)
    requires i == DigitRun(u) && i < |u| && u[i] == '.' && f == DigitRun(u[i + 1..]) && (i > 0 || f > 0)
    ensures ParseUnsigned(u) == Some(DigitsValue(u[..i]) as real + DecimalShift(DigitsValue(u[i + 1..][..f]) as real, f))
  {
  }

  lemma DecimalShiftTwo(x: real)
    ensures DecimalShift(x, 2) == x / 100.0
  {
    assert DecimalShift(x, 1) == x / 10.0;
  }

  function Negate(r: Option<real>): Option<real> {
    if r.Some? then Some(-r.value) else None
  }

  /**
   * `parseFloat` on a string: leading white space skipped, an optional sign,
   * then the longest decimal prefix; `None` is `NaN`.
   */
  function ParseDecimal(s: string): Option<real> {
    var t := TrimStart(s);
    if |t| > 0 && t[0] == '-' then Negate(ParseUnsigned(t[1..]))
    else if |t| > 0 && t[0] == '+' then ParseUnsigned(t[1..])
    else ParseUnsigned(t)
  }

  /** `parseFloat(v)`: numbers are themselves, strings are parsed, everything else is `NaN`. */
  function ParseFloat(v: Option<Json>): (r: Option<real>)
    ensures v.Some? && v.value.JNum? ==> r == Some(v.value.n)
    ensures v.None? || !(v.value.JNum? || v.value.JStr?) ==> r.None?
    ensures v == Some(JStr("")) ==> r.None?
  {
    match v
    case Some(JNum(n)) => Some(n)
    case Some(JStr(s)) => ParseDecimal(s)
    case _ => None
  }

  /** `parseFloat(v) || d`: the parsed number unless it is `NaN` or zero. */
  function NumberOr(v: Option<Json>, d: real): (r: real)
    ensures Some(r) == ParseFloat(v) || r == d
    ensures d != 0.0 ==> r != 0.0
    ensures ParseFloat(v).Some? && ParseFloat(v).value != 0.0 ==> r == ParseFloat(v).value
    ensures ParseFloat(v).None? || ParseFloat(v).value == 0.0 ==> r == d
  {
    var p := ParseFloat(v);
    if p.Some? && p.value != 0.0 then p.value else d
  }

  /** The digit run of a numeral followed by a non-digit is exactly the numeral. */
  lemma {:induction false} DigitRunConcat(a: string, b: string)
    requires forall i :: 0 <= i < |a| ==> IsDigit(a[i])
    requires b == [] || !IsDigit(b[0])
    ensures DigitRun(a + b) == |a|
  {
    if a != [] {
      assert (a + b)[1..] == a[1..] + b;
      DigitRunConcat(a[1..], b);
    }
  }

  /** `parseFloat(String(n))` is `n` for every whole number. */
  lemma {:induction false} ParseNatNumeral(n: nat)
    ensures ParseDecimal(NatToString(n)) == Some(n as real)
  {
    var s := NatToString(n);
    assert IsDigit(s[0]);
    assert !IsWhitespace(s[0]);
    assert TrimStart(s) == s;
    assert s[0] != '-' && s[0] != '+';
    DigitRunConcat(s, "");
    assert s + "" == s;
    assert s[..|s|] == s;
    NatToStringValue(n);
    assert ParseUnsigned(s) == Some(n as real);
  }
}
