/**
 * Strings as JavaScript sees them: whitespace, `trim`, case mapping,
 * `includes`, `split` and the decimal rendering of whole numbers.
 */
module Text {

  /** The characters JavaScript's `\s` class and `String.prototype.trim` treat as white space. */
  predicate IsWhitespace(c: char) {
    var n := c as int;
    n == 0x09 || n == 0x0A || n == 0x0B || n == 0x0C || n == 0x0D || n == 0x20 ||
    n == 0xA0 || n == 0x1680 || (0x2000 <= n <= 0x200A) || n == 0x2028 || n == 0x2029 ||
    n == 0x202F || n == 0x205F || n == 0x3000 || n == 0xFEFF
  }

  predicate NoWhitespace(s: string) {
    forall i :: 0 <= i < |s| ==> !IsWhitespace(s[i])
  }

  // ---------------------------------------------------------------- trim

  function TrimStart(s: string): (r: string)
    ensures |r| <= |s| && r == s[|s| - |r|..]
    ensures r == [] || !IsWhitespace(r[0])
    ensures forall i :: 0 <= i < |s| - |r| ==> IsWhitespace(s[i])
  {
    if |s| > 0 && IsWhitespace(s[0]) then
      var r := TrimStart(s[1..]);
      assert s[|s| - |r|..] == s[1..][|s| - 1 - |r|..];
      assert forall i :: 1 <= i < |s| - |r| ==> s[i] == s[1..][i - 1];
      r
    else s
  }

  function TrimEnd(s: string): (r: string)
    ensures |r| <= |s| && r == s[..|r|]
    ensures r == [] || !IsWhitespace(r[|r| - 1])
    ensures forall i :: |r| <= i < |s| ==> IsWhitespace(s[i])
  {
    if |s| > 0 && IsWhitespace(s[|s| - 1]) then TrimEnd(s[..|s| - 1]) else s
  }

  /** Text that starts with a non-white-space character is its own `trimStart`. */
  lemma TrimStartKeeps(s: string)
    requires s != [] && !IsWhitespace(s[0])
    ensures TrimStart(s) == s
  {
  }

  /** `s.trim()`: white space removed from both ends. */
  function Trim(s: string): (r: string)
    ensures Trimmed(r) && |r| <= |s|
    ensures Trimmed(s) ==> r == s
  {
    TrimEnd(TrimStart(s))
  }

  /** A string that starts and ends with no white space. */
  predicate Trimmed(s: string) {
    s == [] || (!IsWhitespace(s[0]) && !IsWhitespace(s[|s| - 1]))
  }

  /** Trimming a trimmed string preceded by white space gives that string back. */
  lemma {:induction false} TrimAfterWhitespace(ws: string, s: string)
    requires forall i :: 0 <= i < |ws| ==> IsWhitespace(ws[i])
    requires Trimmed(s)
    ensures Trim(ws + s) == s
  {
    TrimStartPrefix(ws, s);
    assert TrimStart(s) == s;
    assert TrimEnd(s) == s;
  }

  lemma {:induction false} TrimStartPrefix(ws: string, s: string)
    requires forall i :: 0 <= i < |ws| ==> IsWhitespace(ws[i])
    requires s == [] || !IsWhitespace(s[0])
    ensures TrimStart(ws + s) == s
  {
    if ws != [] {
      assert (ws + s)[1..] == ws[1..] + s;
      TrimStartPrefix(ws[1..], s);
    }
  }

  // ---------------------------------------------------------------- case

  /** `toLowerCase` on one character (ASCII letters only). */
  function LowerChar(c: char): char {
    if 'A' <= c <= 'Z' then (c as int + 32) as char else c
  }

  /** `toUpperCase` on one character (ASCII letters only). */
  function UpperChar(c: char): char {
    if 'a' <= c <= 'z' then (c as int - 32) as char else c
  }

  function Lower(s: string): (r: string)
    ensures |r| == |s|
    ensures forall i :: 0 <= i < |s| ==> r[i] == LowerChar(s[i])
  {
    if s == [] then [] else [LowerChar(s[0])] + Lower(s[1..])
  }

  function Upper(s: string): (r: string)
    ensures |r| == |s|
    ensures forall i :: 0 <= i < |s| ==> r[i] == UpperChar(s[i])
  {
    if s == [] then [] else [UpperChar(s[0])] + Upper(s[1..])
  }

  // ---------------------------------------------------------------- substrings

  /** `needle` occurs in `s` starting at index `k`. */
  predicate OccursAt(s: string, needle: string, k: int) {
    0 <= k && k + |needle| <= |s| && s[k..k + |needle|] == needle
  }

  ghost predicate Occurs(s: string, needle: string) {
    exists k :: OccursAt(s, needle, k)
  }

  /** The empty text occurs in every text. */
  lemma OccursEmpty(s: string)
    ensures Occurs(s, "")
  {
    assert OccursAt(s, "", 0);
  }

  /** Past a position where `needle` does not start, it occurs in `s` exactly when it occurs in `s[1..]`. */
  lemma OccursTail(s: string, needle: string)
    requires |s| > 0 && !OccursAt(s, needle, 0)
    ensures Occurs(s, needle) <==> Occurs(s[1..], needle)
  {
    forall k | OccursAt(s[1..], needle, k) ensures OccursAt(s, needle, k + 1) {
      assert s[1..][k..k + |needle|] == s[k + 1..k + 1 + |needle|];
    }
    if Occurs(s, needle) {
      var k :| OccursAt(s, needle, k);
      assert s[1..][k - 1..k - 1 + |needle|] == s[k..k + |needle|];
      assert OccursAt(s[1..], needle, k - 1);
    }
  }

  /** `hay.includes(needle)`, by scanning from the left. */
  function Contains(hay: string, needle: string): (r: bool)
    ensures r <==> Occurs(hay, needle)
    decreases |hay|
  {
    if |needle| > |hay| then
      assert forall k :: !OccursAt(hay, needle, k);
      false
    else if hay[..|needle|] == needle then
      assert OccursAt(hay, needle, 0);
      true
    else
      OccursTail(hay, needle);
      Contains(hay[1..], needle)
  }

  /** In JavaScript every string includes the empty string. */
  lemma ContainsEmpty(hay: string)
    ensures Contains(hay, "")
  {
    assert OccursAt(hay, "", 0);
  }

  // ---------------------------------------------------------------- split

  /**
   * `String.prototype.split` with a non-empty separator: the string is scanned
   * from the left and cut at each non-overlapping occurrence of `sep`;
   * `cur` is the part collected since the last cut.
   */
  function SplitFrom(s: string, sep: string, cur: string): (parts: seq<string>)
    requires |sep| > 0
    ensures |parts| >= 1
    decreases |s|
  {
    if |s| < |sep| then [cur + s]
    else if s[..|sep|] == sep then [cur] + SplitFrom(s[|sep|..], sep, "")
    else SplitFrom(s[1..], sep, cur + [s[0]])
  }

  function Split(s: string, sep: string): (parts: seq<string>)
    requires |sep| > 0
    ensures |parts| >= 1
  {
    SplitFrom(s, sep, "")
  }

  function Last<T>(s: seq<T>): T
    requires |s| > 0
  {
    s[|s| - 1]
  }

  /** Without an occurrence of the separator there is exactly one part, the whole string. */
  lemma {:induction false} SplitWithout(s: string, sep: string, cur: string)
    requires |sep| > 0 && !Occurs(s, sep)
    ensures SplitFrom(s, sep, cur) == [cur + s]
    decreases |s|
  {
    if |s| >= |sep| {
      assert !OccursAt(s, sep, 0);
      OccursTail(s, sep);
      SplitWithout(s[1..], sep, cur + [s[0]]);
      assert (cur + [s[0]]) + s[1..] == cur + s;
    }
  }

  /** `split` yields two or more parts exactly when the separator occurs. */
  lemma {:induction false} SplitCount(s: string, sep: string, cur: string)
    requires |sep| > 0
    ensures |SplitFrom(s, sep, cur)| >= 2 <==> Occurs(s, sep)
    decreases |s|
  {
    if |s| < |sep| {
      assert forall k :: !OccursAt(s, sep, k);
    } else if s[..|sep|] == sep {
      assert OccursAt(s, sep, 0);
    } else {
      OccursTail(s, sep);
      SplitCount(s[1..], sep, cur + [s[0]]);
    }
  }

  /**
   * The last part after splitting `u + sep + r`, where the character just before
   * the separator cannot belong to it, is the last part of splitting `r` alone:
   * whatever `u` holds, the scan reaches the appended separator and cuts there.
   */
  lemma {:induction false} SplitLastAfter(u: string, sep: string, r: string, cur: string)
    requires |sep| > 0
    requires |u| > 0 ==> u[|u| - 1] !in sep
    ensures Last(SplitFrom(u + sep + r, sep, cur)) == Last(Split(r, sep))
    decreases |u|
  {
    var s := u + sep + r;
    if u == [] {
      assert s[..|sep|] == sep;
      assert s[|sep|..] == r;
    } else {
      assert s[|u| - 1] == u[|u| - 1];
      if s[..|sep|] == sep {
        assert |sep| < |u|;
        assert s[|sep|..] == u[|sep|..] + sep + r;
        SplitLastAfter(u[|sep|..], sep, r, "");
      } else {
        assert s[1..] == u[1..] + sep + r;
        SplitLastAfter(u[1..], sep, r, cur + [s[0]]);
      }
    }
  }

  /** Cutting at a one-character separator distributes over concatenation. */
  lemma {:induction false} SplitCharConcat(a: string, c: char, b: string, cur: string)
    ensures SplitFrom(a + [c] + b, [c], cur) == SplitFrom(a, [c], cur) + Split(b, [c])
    decreases |a|
  {
    var s := a + [c] + b;
    if a == [] {
      assert s[..1] == [c];
      assert s[1..] == b;
      assert cur + a == cur;
    } else {
      assert s[1..] == a[1..] + [c] + b;
      SplitCharConcat(a[1..], c, b, if a[0] == c then "" else cur + [a[0]]);
    }
  }

  lemma {:induction false} SplitCharFree(s: string, c: char)
    requires c !in s
    ensures Split(s, [c]) == [s]
  {
    forall k | 0 <= k && k + 1 <= |s| ensures !OccursAt(s, [c], k) {
      assert s[k..k + 1] == [s[k]];
      assert s[k] in s;
    }
    SplitWithout(s, [c], "");
    assert "" + s == s;
  }

  // ---------------------------------------------------------------- numerals

  function DigitChar(d: nat): char
    requires d < 10
  {
    "0123456789"[d]
  }

  lemma DigitCharValue(d: nat)
    requires d < 10
    ensures IsDigit(DigitChar(d)) && DigitValue(DigitChar(d)) == d
  {
  }

  predicate IsDigit(c: char) {
    '0' <= c <= '9'
  }

  function DigitValue(c: char): nat
    requires IsDigit(c)
  {
    c as int - '0' as int
  }

  /** The decimal numeral of `n`, as `String(n)` prints a whole number. */
  function NatToString(n: nat): (s: string)
    ensures |s| >= 1
    ensures forall i :: 0 <= i < |s| ==> IsDigit(s[i])
    ensures n >= 10 ==> s[0] != '0'
  {
    if n < 10 then [DigitChar(n)] else NatToString(n / 10) + [DigitChar(n % 10)]
  }

  function IntToString(i: int): string {
    if i < 0 then "-" + NatToString(-i) else NatToString(i)
  }

  /** The value of a string of decimal digits, most significant first. */
  function DigitsValue(s: string): nat
    requires forall i :: 0 <= i < |s| ==> IsDigit(s[i])
  {
    if s == [] then 0 else DigitsValue(s[..|s| - 1]) * 10 + DigitValue(s[|s| - 1])
  }

  /** Reading back a numeral gives the number: `NatToString` is injective. */
  lemma {:induction false} NatToStringValue(n: nat)
    ensures DigitsValue(NatToString(n)) == n
  {
    var s := NatToString(n);
    if n < 10 {
      DigitCharValue(n);
      assert s[..0] == [];
    } else {
      NatToStringValue(n / 10);
      DigitCharValue(n % 10);
      assert s[..|s| - 1] == NatToString(n / 10);
      assert s[|s| - 1] == DigitChar(n % 10);
    }
  }
}
