/**
 * The invoice preview: the rupee amount in English words with Indian
 * grouping (Crore, Lakh, Thousand, Hundred), the recomputed invoice values
 * with default tax rates, and the rows it shows.
 */
module InvoicePreview {
  import opened Common
  import opened Text
  import opened Seqs
  import InvoiceForm

  // ---------------------------------------------------------------- amount in words

  const Ones: seq<string> := ["", "One", "Two", "Three", "Four", "Five", "Six", "Seven", "Eight", "Nine", "Ten",
    "Eleven", "Twelve", "Thirteen", "Fourteen", "Fifteen", "Sixteen", "Seventeen", "Eighteen", "Nineteen"]
  const Tens: seq<string> := ["", "", "Twenty", "Thirty", "Forty", "Fifty", "Sixty", "Seventy", "Eighty", "Ninety"]

  const Crore: nat := 10000000
  const Lakh: nat := 100000

  /** `convertTens`: a word below twenty, else the tens word and, unless the units are zero, the units word. */
  function ConvertTens(n: nat): (r: string)
    requires n < 100
    ensures r == "" <==> n == 0
  {
    if n < 20 then Ones[n] else Tens[n / 10] + (if n % 10 != 0 then " " + Ones[n % 10] else "")
  }

  /** `convertHundreds`: above 99, the hundreds word, " Hundred " and the rest below a hundred. */
  function ConvertHundreds(n: nat): (r: string)
    requires n < 1000
    ensures r == "" <==> n == 0
  {
    if n > 99 then Ones[n / 100] + " Hundred " + ConvertTens(n % 100) else ConvertTens(n)
  }

  /** `convertMillions`: Crore, then Lakh, then Thousand groups, each on a smaller number. */
  function ConvertMillions(n: nat): (r: string)
    ensures r == "" <==> n == 0
    decreases n
  {
    if n >= Crore then ConvertMillions(n / Crore) + " Crore " + ConvertMillions(n % Crore)
    else if n >= Lakh then ConvertMillions(n / Lakh) + " Lakh " + ConvertMillions(n % Lakh)
    else if n >= 1000 then ConvertHundreds(n / 1000) + " Thousand " + ConvertHundreds(n % 1000)
    else ConvertHundreds(n)
  }

  /**
   * `numberToWords(num)` for the whole number `Math.round` gives it. A
   * negative number reaches `ones[num]`, which is `undefined`.
   */
  function NumberToWords(num: int): (s: string)
    ensures num == 0 ==> s == "Zero"
    ensures num != 0 ==> |s| >= 5 && s[|s| - 5..] == " Only"
    ensures num < 0 ==> s == "undefined Only"
  {
    if num == 0 then "Zero"
    else if num < 0 then "undefined" + " Only"
    else ConvertMillions(num) + " Only"
  }

  // ---------------------------------------------------------------- reading the words back

  predicate NonBlank(t: string) {
    t != ""
  }

  /** The words of a text: its parts between spaces, empty parts dropped. */
  function Tokens(s: string): seq<string> {
    Filter(Split(s, " "), NonBlank)
  }

  /** The value of a number word; any other word counts nothing. */
  function WordValue(w: string): nat {
    if w == "One" then 1 else if w == "Two" then 2 else if w == "Three" then 3 else if w == "Four" then 4
    else if w == "Five" then 5 else if w == "Six" then 6 else if w == "Seven" then 7 else if w == "Eight" then 8
    else if w == "Nine" then 9 else if w == "Ten" then 10 else if w == "Eleven" then 11 else if w == "Twelve" then 12
    else if w == "Thirteen" then 13 else if w == "Fourteen" then 14 else if w == "Fifteen" then 15
    else if w == "Sixteen" then 16 else if w == "Seventeen" then 17 else if w == "Eighteen" then 18
    else if w == "Nineteen" then 19 else if w == "Twenty" then 20 else if w == "Thirty" then 30
    else if w == "Forty" then 40 else if w == "Fifty" then 50 else if w == "Sixty" then 60
    else if w == "Seventy" then 70 else if w == "Eighty" then 80 else if w == "Ninety" then 90 else 0
  }

  /**
   * A reader of Indian number words, left to right: `done` holds what a
   * Crore already scaled, `part` the Lakh and Thousand groups below it, and
   * `group` the group being read.
   */
  datatype Reading = Reading(done: nat, part: nat, group: nat)

  function Value(r: Reading): nat {
    r.done + r.part + r.group
  }

  function Step(r: Reading, w: string): Reading {
    if w == "Crore" then Reading(Value(r) * Crore, 0, 0)
    else if w == "Lakh" then Reading(r.done, r.part + r.group * Lakh, 0)
    else if w == "Thousand" then Reading(r.done, r.part + r.group * 1000, 0)
    else if w == "Hundred" then r.(group := r.group * 100)
    else r.(group := r.group + WordValue(w))
  }

  function ReadFrom(r: Reading, ws: seq<string>): Reading
    decreases |ws|
  {
    if ws == [] then r else ReadFrom(Step(r, ws[0]), ws[1..])
  }

  /** The number a text of words denotes. */
  function ReadWords(s: string): nat {
    Value(ReadFrom(Reading(0, 0, 0), Tokens(s)))
  }

  lemma {:induction false} ReadConcat(r: Reading, a: seq<string>, b: seq<string>)
    ensures ReadFrom(r, a + b) == ReadFrom(ReadFrom(r, a), b)
    decreases |a|
  {
    if a != [] {
      assert (a + b)[0] == a[0];
      assert (a + b)[1..] == a[1..] + b;
      ReadConcat(Step(r, a[0]), a[1..], b);
    } else {
      assert a + b == b;
    }
  }

  lemma TokensJoin(a: string, b: string)
    ensures Tokens(a + " " + b) == Tokens(a) + Tokens(b)
  {
    assert a + " " + b == a + [' '] + b;
    SplitCharConcat(a, ' ', b, "");
    FilterConcat(Split(a, " "), Split(b, " "), NonBlank);
  }

  /** Reading two texts joined by a space reads the first, then the second. */
  lemma ReadJoin(r: Reading, a: string, b: string)
    ensures ReadFrom(r, Tokens(a + " " + b)) == ReadFrom(ReadFrom(r, Tokens(a)), Tokens(b))
  {
    TokensJoin(a, b);
    ReadConcat(r, Tokens(a), Tokens(b));
  }

  /** A single word: not empty and without a space. */
  predicate PlainWord(w: string) {
    w != "" && ' ' !in w
  }

  predicate IsScale(w: string) {
    w == "Crore" || w == "Lakh" || w == "Thousand" || w == "Hundred"
  }

  lemma TokensWord(w: string)
    requires PlainWord(w)
    ensures Tokens(w) == [w]
  {
    SplitCharFree(w, ' ');
    assert Split(w, " ") == [w];
  }

  lemma TokensEmpty()
    ensures Tokens("") == []
  {
    assert SplitFrom("", " ", "") == ["" + ""];
  }

  /** Reading one word that is not a scale adds its value to the group. */
  lemma ReadWord(r: Reading, w: string)
    requires PlainWord(w) && !IsScale(w)
    ensures ReadFrom(r, Tokens(w)) == r.(group := r.group + WordValue(w))
  {
    TokensWord(w);
  }

  /** Reading one scale word is one step. */
  lemma ReadScale(r: Reading, w: string)
    requires IsScale(w)
    ensures ReadFrom(r, Tokens(w)) == Step(r, w)
  {
    assert PlainWord(w);
    TokensWord(w);
  }

  lemma OnesWordBelowTen(k: nat)
    requires 1 <= k < 10
    ensures PlainWord(Ones[k]) && !IsScale(Ones[k]) && WordValue(Ones[k]) == k
  {
  }

  lemma OnesWordFromTen(k: nat)
    requires 10 <= k < 20
    ensures PlainWord(Ones[k]) && !IsScale(Ones[k]) && WordValue(Ones[k]) == k
  {
  }

  /** Each units word is one plain word, not a scale, worth its index. */
  lemma OnesWord(k: nat)
    requires 1 <= k < 20
    ensures PlainWord(Ones[k]) && !IsScale(Ones[k]) && WordValue(Ones[k]) == k
  {
    if k < 10 {
      OnesWordBelowTen(k);
    } else {
      OnesWordFromTen(k);
    }
  }

  lemma TensWordBelowSix(k: nat)
    requires 2 <= k < 6
    ensures PlainWord(Tens[k]) && !IsScale(Tens[k]) && WordValue(Tens[k]) == 10 * k
  {
  }

  lemma TensWordFromSix(k: nat)
    requires 6 <= k < 10
    ensures PlainWord(Tens[k]) && !IsScale(Tens[k]) && WordValue(Tens[k]) == 10 * k
  {
  }

  /** Each tens word is one plain word, not a scale, worth ten times its index. */
  lemma TensWord(k: nat)
    requires 2 <= k < 10
    ensures PlainWord(Tens[k]) && !IsScale(Tens[k]) && WordValue(Tens[k]) == 10 * k
  {
    if k < 6 {
      TensWordBelowSix(k);
    } else {
      TensWordFromSix(k);
    }
  }

  lemma ReadOnes(r: Reading, k: nat)
    requires 1 <= k < 20
    ensures ReadFrom(r, Tokens(Ones[k])) == r.(group := r.group + k)
  {
    OnesWord(k);
    ReadWord(r, Ones[k]);
  }

  lemma ReadTensWord(r: Reading, k: nat)
    requires 2 <= k < 10
    ensures ReadFrom(r, Tokens(Tens[k])) == r.(group := r.group + 10 * k)
  {
    TensWord(k);
    ReadWord(r, Tens[k]);
  }

  lemma TensText(n: nat, k: nat, u: nat)
    requires 20 <= n < 100 && k == n / 10 && u == n % 10 && u != 0
    ensures 2 <= k < 10 && 1 <= u < 10
    ensures ConvertTens(n) == Tens[k] + " " + Ones[u]
  {
  }

  /** A tens word followed by a units word adds `m`, their sum, to the group. */
  lemma ReadTwoWords(r: Reading, k: nat, u: nat, m: nat)
    requires 2 <= k < 10 && 1 <= u < 10 && m == 10 * k + u
    ensures ReadFrom(r, Tokens(Tens[k] + " " + Ones[u])) == r.(group := r.group + m)
  {
    ReadJoin(r, Tens[k], Ones[u]);
    ReadTensWord(r, k);
    ReadOnes(r.(group := r.group + 10 * k), u);
  }

  /** Reading the words below a hundred adds their value to the group. */
  lemma ReadTens(r: Reading, n: nat)
    requires n < 100
    ensures ReadFrom(r, Tokens(ConvertTens(n))) == r.(group := r.group + n)
  {
    if n == 0 {
      assert ConvertTens(n) == "";
      TokensEmpty();
    } else if n < 20 {
      ReadOnes(r, n);
    } else if n % 10 == 0 {
      assert ConvertTens(n) == Tens[n / 10];
      ReadTensWord(r, n / 10);
    } else {
      TensText(n, n / 10, n % 10);
      ReadTwoWords(r, n / 10, n % 10, n);
    }
  }

  /** Reading the words below a thousand into an empty group leaves their value there. */
  lemma ReadHundreds(r: Reading, n: nat)
    requires n < 1000 && r.group == 0
    ensures ReadFrom(r, Tokens(ConvertHundreds(n))) == r.(group := n)
  {
    if n > 99 {
      var h, t := Ones[n / 100], ConvertTens(n % 100);
      assert ConvertHundreds(n) == h + " " + ("Hundred" + " " + t);
      ReadJoin(r, h, "Hundred" + " " + t);
      OnesWord(n / 100);
      ReadWord(r, h);
      var r1 := r.(group := n / 100);
      ReadJoin(r1, "Hundred", t);
      ReadScale(r1, "Hundred");
      ReadTens(r1.(group := n / 100 * 100), n % 100);
    } else {
      ReadTens(r, n);
    }
  }

  lemma SpacedAssoc(x: string, w: string, y: string)
    ensures x + " " + w + " " + y == x + " " + (w + " " + y)
  {
  }

  /** Reading a group's words, a scale word and the rest. */
  lemma ReadScaled(r: Reading, x: string, w: string, y: string, a: nat, e: Reading)
    requires IsScale(w) && ReadFrom(r, Tokens(x)) == r.(group := a)
    requires ReadFrom(Step(r.(group := a), w), Tokens(y)) == e
    ensures ReadFrom(r, Tokens(x + " " + w + " " + y)) == e
  {
    var wy := w + " " + y;
    SpacedAssoc(x, w, y);
    ReadJoin(r, x, wy);
    var r1 := r.(group := a);
    assert ReadFrom(r, Tokens(x + " " + wy)) == ReadFrom(r1, Tokens(wy));
    ReadJoin(r1, w, y);
    ReadScale(r1, w);
  }

  /** Below a Crore, reading into an empty group adds the number to the Lakh and Thousand part and the group, leaving `done` alone. */
  lemma {:induction false} ReadBelowCrore(r: Reading, n: nat)
    requires n < Crore && r.group == 0
    ensures var e := ReadFrom(r, Tokens(ConvertMillions(n)));
      e.done == r.done && e.part + e.group == r.part + n
    decreases n
  {
    if n >= Lakh {
      ReadLakhs(r, n);
    } else if n >= 1000 {
      ReadThousands(r, n);
    } else {
      assert ConvertMillions(n) == ConvertHundreds(n);
      ReadHundreds(r, n);
    }
  }

  lemma CroresText(n: nat)
    requires n >= Crore
    ensures ConvertMillions(n) == ConvertMillions(n / Crore) + " " + "Crore" + " " + ConvertMillions(n % Crore)
  {
  }

  lemma Spaced(x: string, w: string, y: string)
    ensures x + (" " + w + " ") + y == x + " " + w + " " + y
  {
  }

  lemma ScaleWordsSpaced()
    ensures " Lakh " == " " + "Lakh" + " "
    ensures " Thousand " == " " + "Thousand" + " "
  {
  }

  lemma LakhsText(n: nat)
    requires Lakh <= n < Crore
    ensures ConvertMillions(n) == ConvertHundreds(n / Lakh) + " " + "Lakh" + " " + ConvertMillions(n % Lakh)
  {
    var x, y := ConvertHundreds(n / Lakh), ConvertMillions(n % Lakh);
    assert n / Lakh < 100;
    assert ConvertMillions(n / Lakh) == x;
    assert ConvertMillions(n) == x + " Lakh " + y;
    ScaleWordsSpaced();
    Spaced(x, "Lakh", y);
  }

  lemma ThousandsText(n: nat)
    requires 1000 <= n < Lakh
    ensures ConvertMillions(n) == ConvertHundreds(n / 1000) + " " + "Thousand" + " " + ConvertHundreds(n % 1000)
  {
    var x, y := ConvertHundreds(n / 1000), ConvertHundreds(n % 1000);
    assert ConvertMillions(n) == x + " Thousand " + y;
    ScaleWordsSpaced();
    Spaced(x, "Thousand", y);
  }

  /** What each scale word does to a reading. */
  lemma ScaleSteps(r: Reading)
    ensures IsScale("Crore") && Step(r, "Crore") == Reading(Value(r) * Crore, 0, 0)
    ensures IsScale("Lakh") && Step(r, "Lakh") == Reading(r.done, r.part + r.group * Lakh, 0)
    ensures IsScale("Thousand") && Step(r, "Thousand") == Reading(r.done, r.part + r.group * 1000, 0)
  {
  }

  lemma {:induction false} ReadLakhs(r: Reading, n: nat)
    requires Lakh <= n < Crore && r.group == 0
    ensures var e := ReadFrom(r, Tokens(ConvertMillions(n)));
      e.done == r.done && e.part + e.group == r.part + n
    decreases n, 0
  {
    var a, b := n / Lakh, n % Lakh;
    var x, y := ConvertMillions(a), ConvertMillions(b);
    LakhsText(n);
    var r2 := Reading(r.done, r.part + a * Lakh, 0);
    ReadHundreds(r, a);
    ReadBelowCrore(r2, b);
    var e := ReadFrom(r2, Tokens(y));
    ScaleSteps(r.(group := a));
    assert Step(r.(group := a), "Lakh") == r2;
    ReadScaled(r, x, "Lakh", y, a, e);
    assert n == a * Lakh + b;
  }

  lemma ReadThousands(r: Reading, n: nat)
    requires 1000 <= n < Lakh && r.group == 0
    ensures var e := ReadFrom(r, Tokens(ConvertMillions(n)));
      e.done == r.done && e.part + e.group == r.part + n
  {
    var a, b := n / 1000, n % 1000;
    var x, y := ConvertHundreds(a), ConvertHundreds(b);
    ThousandsText(n);
    var r2 := Reading(r.done, r.part + a * 1000, 0);
    var e := r2.(group := b);
    ReadHundreds(r, a);
    ReadHundreds(r2, b);
    ScaleSteps(r.(group := a));
    assert Step(r.(group := a), "Thousand") == r2;
    ReadScaled(r, x, "Thousand", y, a, e);
    assert n == a * 1000 + b;
  }

  /** The words of every whole number read back as that number. */
  lemma {:induction false} ReadMillions(n: nat)
    ensures Value(ReadFrom(Reading(0, 0, 0), Tokens(ConvertMillions(n)))) == n
    decreases n
  {
    var z := Reading(0, 0, 0);
    if n >= Crore {
      var a, b := n / Crore, n % Crore;
      var x, y := ConvertMillions(a), ConvertMillions(b);
      CroresText(n);
      SpacedAssoc(x, "Crore", y);
      ReadMillions(a);
      var r1 := ReadFrom(z, Tokens(x));
      ReadJoin(z, x, "Crore" + " " + y);
      ReadJoin(r1, "Crore", y);
      ReadScale(r1, "Crore");
      ScaleSteps(r1);
      var r2 := Reading(a * Crore, 0, 0);
      assert Step(r1, "Crore") == r2;
      ReadBelowCrore(r2, b);
      var e := ReadFrom(r2, Tokens(y));
      assert ReadFrom(z, Tokens(ConvertMillions(n))) == e;
      assert n == a * Crore + b;
    } else {
      ReadBelowCrore(z, n);
    }
  }

  lemma OnlyWord()
    ensures PlainWord("Only") && !IsScale("Only") && WordValue("Only") == 0
  {
  }

  lemma ZeroWord()
    ensures PlainWord("Zero") && !IsScale("Zero") && WordValue("Zero") == 0
  {
  }

  /** Appending " Only" to words adds nothing to what they read as. */
  lemma ReadOnly(x: string)
    ensures ReadWords(x + " " + "Only") == ReadWords(x)
  {
    var z := Reading(0, 0, 0);
    ReadJoin(z, x, "Only");
    OnlyWord();
    var r := ReadFrom(z, Tokens(x));
    ReadWord(r, "Only");
    assert ReadFrom(z, Tokens(x + " " + "Only")) == r;
  }

  /** `numberToWords` loses nothing: reading its words back gives the number, for zero and every positive amount. */
  lemma WordsRoundTrip(n: nat)
    ensures ReadWords(NumberToWords(n)) == n
  {
    if n == 0 {
      ZeroWord();
      ReadWord(Reading(0, 0, 0), "Zero");
    } else {
      var x := ConvertMillions(n);
      assert NumberToWords(n) == x + " " + "Only";
      ReadOnly(x);
      ReadMillions(n);
    }
  }

  /** A whole Lakh prints with two spaces before "Only": the Lakh group's remainder is empty. */
  lemma OneLakh()
    ensures NumberToWords(100000) == "One Lakh  Only"
  {
  }

  // ---------------------------------------------------------------- invoice values

  /** A stored invoice: its rows and its settings. */
  datatype Invoice = Invoice(items: seq<InvoiceForm.InvoiceItem>, settings: InvoiceForm.TaxSettings)

  datatype Values =
    | NoValues
    | Values(subtotal: real, taxableAmount: real, cgst: real, sgst: real, igst: real, totalAmount: real, taxAmount: real)

  /** `x || d` on a number. */
  function OrDefault(x: real, d: real): real {
    if x != 0.0 then x else d
  }

  /** `calculateValues(invoice)`: like the editor's totals, but a zero rate falls back to 9, 9 or 18 per cent. */
  function CalculateValues(invoice: Option<Invoice>): (v: Values)
    ensures v.NoValues? <==> invoice.None?
    ensures v.Values? ==> v.taxAmount == v.cgst + v.sgst + v.igst
    ensures v.Values? ==> v.totalAmount == v.taxableAmount + v.taxAmount - invoice.value.settings.advance
    ensures v.Values? ==> (v.subtotal == InvoiceForm.SumTotals(invoice.value.items)
      && v.taxableAmount == v.subtotal - invoice.value.settings.discount)
    ensures v.Values? && invoice.value.settings.gstType == "cgst_sgst" ==>
      var s := invoice.value.settings;
      v.cgst == v.taxableAmount * (OrDefault(s.cgstRate, 9.0) / 100.0)
      && v.sgst == v.taxableAmount * (OrDefault(s.sgstRate, 9.0) / 100.0) && v.igst == 0.0
    ensures v.Values? && invoice.value.settings.gstType != "cgst_sgst" ==>
      v.igst == v.taxableAmount * (OrDefault(invoice.value.settings.igstRate, 18.0) / 100.0)
      && v.cgst == 0.0 && v.sgst == 0.0
  {
    if invoice.None? then NoValues
    else
      var s := invoice.value.settings;
      var subtotal := InvoiceForm.SumTotals(invoice.value.items);
      var taxable := subtotal - s.discount;
      var tx := InvoiceForm.Taxes(taxable, s.gstType, OrDefault(s.cgstRate, 9.0), OrDefault(s.sgstRate, 9.0), OrDefault(s.igstRate, 18.0));
      Values(subtotal, taxable, tx.0, tx.1, tx.2, taxable + tx.0 + tx.1 + tx.2 - s.advance, tx.0 + tx.1 + tx.2)
  }

  /** With the rates it charges non-zero, the preview reproduces the editor's totals. */
  lemma PreviewMatchesEditor(inv: Invoice)
    requires inv.settings.gstType == "cgst_sgst" ==> inv.settings.cgstRate != 0.0 && inv.settings.sgstRate != 0.0
    requires inv.settings.gstType != "cgst_sgst" ==> inv.settings.igstRate != 0.0
    ensures var v, t := CalculateValues(Some(inv)), InvoiceForm.CalculateTotals(inv.items, inv.settings);
      v.subtotal == t.subtotal && v.taxableAmount == t.taxableAmount && v.cgst == t.cgst
      && v.sgst == t.sgst && v.igst == t.igst && v.totalAmount == t.totalAmount
  {
  }

  /** A stored zero CGST rate is charged at 9 per cent by the preview and at nothing by the editor. */
  lemma ZeroRateDiffers(inv: Invoice)
    requires inv.settings.gstType == "cgst_sgst" && inv.settings.cgstRate == 0.0
    requires InvoiceForm.SumTotals(inv.items) - inv.settings.discount != 0.0
    ensures InvoiceForm.CalculateTotals(inv.items, inv.settings).cgst == 0.0
    ensures CalculateValues(Some(inv)).cgst != 0.0
  {
    var x := InvoiceForm.SumTotals(inv.items) - inv.settings.discount;
    assert CalculateValues(Some(inv)).cgst == x * (9.0 / 100.0);
  }

  /** The rows the preview lists: those with a name or a description, in order. */
  function ShownRows(items: seq<InvoiceForm.InvoiceItem>): (r: seq<InvoiceForm.InvoiceItem>)
    ensures forall it :: it in r <==> it in items && (it.itemName != "" || it.description != "")
    ensures forall it :: multiset(r)[it] == if it.itemName != "" || it.description != "" then multiset(items)[it] else 0
    ensures IsSubsequence(r, items)
  {
    Filter(items, (it: InvoiceForm.InvoiceItem) => it.itemName != "" || it.description != "")
  }
}
