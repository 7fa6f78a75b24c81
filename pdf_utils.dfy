/**
 * The quotation PDF helpers: the tax-on-top pricing engine behind the PDF
 * download (`calculateTotals`), the rupee/paisa digits formatter
 * (`convertToWords`), the per-item field fallbacks, and the artifact the
 * export writes (PDF bytes, a marker, the serialised record) with its name.
 */
module PdfUtils {
  import opened Common
  import opened Text
  import opened JsValues
  import opened Money

  // ---------------------------------------------------------------- line inputs

  /** The numbers one line contributes, after the `parseFloat(x) || d` defaults. */
  datatype LineInput = LineInput(quantity: real, rate: real, discount: real, gst: real, withTax: bool)

  /** What `calculateTotals` reads from one item of the array that is not `null`. */
  function ReadLine(item: Json): (li: LineInput)
    ensures li.quantity != 0.0
    ensures Prop(Some(item), "quantity").None? ==> li.quantity == 1.0
    ensures Prop(Some(item), "rate").None? ==> li.rate == 0.0
    ensures Prop(Some(item), "discount").None? ==> li.discount == 0.0
    ensures Prop(Some(item), "taxGST").None? ==> li.gst == 0.0
    ensures li.withTax == Truthy(Prop(Some(item), "withTax"))
  {
    var o := Some(item);
    LineInput(
      NumberOr(Prop(o, "quantity"), 1.0),
      NumberOr(Prop(o, "rate"), 0.0),
      NumberOr(Prop(o, "discount"), 0.0),
      NumberOr(Prop(o, "taxGST"), 0.0),
      Truthy(Prop(o, "withTax")))
  }

  /**
   * The lines of an items array: `None` when some item is `null`, whose
   * `item.quantity` throws a TypeError, and otherwise one line per item in order.
   */
  function ReadLines(es: seq<Json>): (ls: Option<seq<LineInput>>)
    ensures ls.None? <==> JNull in es
    ensures ls.Some? ==> |ls.value| == |es| && forall k :: 0 <= k < |es| ==> ls.value[k] == ReadLine(es[k])
  {
    if JNull in es then None else Some(seq(|es|, k requires 0 <= k < |es| => ReadLine(es[k])))
  }

  // ---------------------------------------------------------------- per-line figures

  /** The unrounded figures of one line: GST is added on top of the rate only for `withTax` lines. */
  datatype Figures = Figures(subTotal: real, discount: real, taxable: real, gst: real, total: real)

  function LineFigures(li: LineInput): (f: Figures)
    ensures f.taxable == f.subTotal - f.discount && f.total == f.taxable + f.gst
    ensures !li.withTax ==> f.gst == 0.0 && f.total == f.taxable
  {
    var sub := li.quantity * li.rate;
    var disc := sub * li.discount / 100.0;
    var taxable := sub - disc;
    var gst := if li.withTax then taxable * li.gst / 100.0 else 0.0;
    Figures(sub, disc, taxable, gst, sub - disc + gst)
  }

  /** A line's total is its taxable amount grown by the GST rate when it carries tax, and the taxable amount otherwise. */
  lemma LineTotal(li: LineInput)
    ensures LineFigures(li).total == if li.withTax then LineFigures(li).taxable * (1.0 + li.gst / 100.0) else LineFigures(li).taxable
    ensures LineFigures(li).taxable == li.quantity * li.rate * (1.0 - li.discount / 100.0)
  {
    var f := LineFigures(li);
    assert f.taxable == li.quantity * li.rate * (1.0 - li.discount / 100.0);
  }

  /** With a discount between 0 and 100 per cent and non-negative quantity and rate, the taxable amount lies between 0 and the subtotal. */
  lemma TaxableBounds(li: LineInput)
    requires li.quantity >= 0.0 && li.rate >= 0.0 && 0.0 <= li.discount <= 100.0
    ensures 0.0 <= LineFigures(li).taxable <= LineFigures(li).subTotal
  {
    var sub := li.quantity * li.rate;
    assert sub >= 0.0;
    assert 0.0 <= sub * li.discount / 100.0 <= sub;
  }

  // ---------------------------------------------------------------- accumulators

  /** The four running sums of the loop, unrounded. */
  datatype Sums = Sums(subTotal: real, discount: real, gst: real, grand: real)

  function Accumulate(ls: seq<LineInput>): Sums
    decreases |ls|
  {
    if ls == [] then Sums(0.0, 0.0, 0.0, 0.0)
    else
      var s := Accumulate(ls[..|ls| - 1]);
      var f := LineFigures(ls[|ls| - 1]);
      Sums(s.subTotal + f.subTotal, s.discount + f.discount, s.gst + f.gst, s.grand + f.total)
  }

  /** The grand total is the subtotal less the discount plus the GST, all unrounded. */
  lemma {:induction false} GrandTotalIdentity(ls: seq<LineInput>)
    ensures Accumulate(ls).grand == Accumulate(ls).subTotal - Accumulate(ls).discount + Accumulate(ls).gst
    decreases |ls|
  {
    if ls != [] {
      GrandTotalIdentity(ls[..|ls| - 1]);
    }
  }

  /** When no line carries tax, no GST is charged. */
  lemma {:induction false} NoTaxNoGst(ls: seq<LineInput>)
    requires forall j :: 0 <= j < |ls| ==> !ls[j].withTax
    ensures Accumulate(ls).gst == 0.0
    ensures Accumulate(ls).grand == Accumulate(ls).subTotal - Accumulate(ls).discount
    decreases |ls|
  {
    if ls != [] {
      NoTaxNoGst(ls[..|ls| - 1]);
    }
  }

  // ---------------------------------------------------------------- GST breakdown

  /** One rate's entry of `gstBreakdown`. */
  datatype Bucket = Bucket(taxable: real, gst: real, sgst: real, cgst: real)

  const EmptyBucket := Bucket(0.0, 0.0, 0.0, 0.0)

  /** A line enters the breakdown only when it carries tax at a positive rate. */
  predicate InBreakdown(li: LineInput) {
    li.withTax && li.gst > 0.0
  }

  function AddToBucket(b: Bucket, f: Figures): Bucket {
    Bucket(b.taxable + f.taxable, b.gst + f.gst, b.sgst + f.gst / 2.0, b.cgst + f.gst / 2.0)
  }

  /** `gstBreakdown`, keyed by the exact rate. */
  function Breakdown(ls: seq<LineInput>): map<real, Bucket>
    decreases |ls|
  {
    if ls == [] then map[]
    else
      var m := Breakdown(ls[..|ls| - 1]);
      var li := ls[|ls| - 1];
      if InBreakdown(li) then
        m[li.gst := AddToBucket(if li.gst in m then m[li.gst] else EmptyBucket, LineFigures(li))]
      else m
  }

  /** A rate has a bucket exactly when some line carries tax at that positive rate. */
  lemma {:induction false} BreakdownKeys(ls: seq<LineInput>, k: real)
    ensures k in Breakdown(ls) <==> exists j :: 0 <= j < |ls| && InBreakdown(ls[j]) && ls[j].gst == k
    decreases |ls|
  {
    if ls != [] {
      var p := ls[..|ls| - 1];
      BreakdownKeys(p, k);
      if exists j :: 0 <= j < |p| && InBreakdown(p[j]) && p[j].gst == k {
        var j :| 0 <= j < |p| && InBreakdown(p[j]) && p[j].gst == k;
        assert ls[j] == p[j];
      }
      forall j | 0 <= j < |ls| - 1 ensures ls[j] == p[j] {
      }
    }
  }

  /** In every bucket SGST and CGST are equal halves of the bucket's GST, and the GST is the rate applied to the bucket's taxable amount. */
  lemma {:induction false} BucketShape(ls: seq<LineInput>, k: real)
    requires k in Breakdown(ls)
    ensures Breakdown(ls)[k].sgst == Breakdown(ls)[k].cgst == Breakdown(ls)[k].gst / 2.0
    ensures Breakdown(ls)[k].gst == Breakdown(ls)[k].taxable * k / 100.0
    decreases |ls|
  {
    var p := ls[..|ls| - 1];
    var li := ls[|ls| - 1];
    var m := Breakdown(p);
    if InBreakdown(li) && li.gst == k {
      var b := if k in m then m[k] else EmptyBucket;
      if k in m {
        BucketShape(p, k);
      }
      var f := LineFigures(li);
      assert f.gst == f.taxable * k / 100.0;
      assert (b.taxable + f.taxable) * k / 100.0 == b.taxable * k / 100.0 + f.taxable * k / 100.0;
    } else {
      BucketShape(p, k);
    }
  }

  /**
   * The breakdown's rates, each once, listed in the order the lines first
   * bring them. The list is only a device for adding the buckets up; it is
   * not the key order of the source's object, where JavaScript lists
   * integer-like keys such as `18` in ascending order before the others.
   */
  function KeysInOrder(ls: seq<LineInput>): (ks: seq<real>)
    ensures forall k :: k in ks <==> k in Breakdown(ls)
    ensures forall i :: 0 <= i < |ks| ==> ks[i] in Breakdown(ls)
    ensures forall a, b :: 0 <= a < b < |ks| ==> ks[a] != ks[b]
    decreases |ls|
  {
    if ls == [] then []
    else
      var ks := KeysInOrder(ls[..|ls| - 1]);
      var li := ls[|ls| - 1];
      if InBreakdown(li) && li.gst !in ks then ks + [li.gst] else ks
  }

  /** The GST of the buckets listed in `ks`, added up in that order. */
  function BucketGstSum(ks: seq<real>, m: map<real, Bucket>): real
    requires forall i :: 0 <= i < |ks| ==> ks[i] in m
    decreases |ks|
  {
    if ks == [] then 0.0 else BucketGstSum(ks[..|ks| - 1], m) + m[ks[|ks| - 1]].gst
  }

  /** Changing one listed bucket's GST by `delta` changes the sum by `delta`; other buckets are not listed twice. */
  lemma {:induction false} BucketGstSumBump(ks: seq<real>, m: map<real, Bucket>, k: real, b: Bucket)
    requires forall i :: 0 <= i < |ks| ==> ks[i] in m
    requires forall i, j :: 0 <= i < j < |ks| ==> ks[i] != ks[j]
    requires k in m
    ensures BucketGstSum(ks, m[k := b]) == BucketGstSum(ks, m) + (if k in ks then b.gst - m[k].gst else 0.0)
    decreases |ks|
  {
    if ks != [] {
      var p := ks[..|ks| - 1];
      BucketGstSumBump(p, m, k, b);
      if ks[|ks| - 1] == k {
        assert k !in p;
      }
      assert k in ks <==> k in p || ks[|ks| - 1] == k;
    }
  }

  /** An unlisted key's bucket does not enter the sum. */
  lemma {:induction false} BucketGstSumFresh(ks: seq<real>, m: map<real, Bucket>, k: real, b: Bucket)
    requires forall i :: 0 <= i < |ks| ==> ks[i] in m
    requires k !in ks
    ensures BucketGstSum(ks, m[k := b]) == BucketGstSum(ks, m)
    decreases |ks|
  {
    if ks != [] {
      BucketGstSumFresh(ks[..|ks| - 1], m, k, b);
    }
  }

  /** Adding one line with a non-negative rate adds its GST to the buckets' sum. */
  lemma BucketGstSumStep(p: seq<LineInput>, li: LineInput)
    requires li.gst >= 0.0
    ensures BucketGstSum(KeysInOrder(p + [li]), Breakdown(p + [li]))
         == BucketGstSum(KeysInOrder(p), Breakdown(p)) + LineFigures(li).gst
  {
    var ls := p + [li];
    assert ls[..|ls| - 1] == p && ls[|ls| - 1] == li;
    var f := LineFigures(li);
    var ks, m := KeysInOrder(p), Breakdown(p);
    if InBreakdown(li) {
      var b := AddToBucket(if li.gst in m then m[li.gst] else EmptyBucket, f);
      assert Breakdown(ls) == m[li.gst := b];
      if li.gst in m {
        assert KeysInOrder(ls) == ks;
        BucketGstSumBump(ks, m, li.gst, b);
      } else {
        assert KeysInOrder(ls) == ks + [li.gst];
        BucketGstSumFresh(ks, m, li.gst, b);
        assert (ks + [li.gst])[..|ks|] == ks;
      }
    } else {
      assert li.withTax ==> li.gst == 0.0;
      assert f.gst == 0.0;
    }
  }

  /** With no negative rate, the buckets' GST adds up to the total GST. */
  lemma {:induction false} BreakdownSumsToGst(ls: seq<LineInput>)
    requires forall j :: 0 <= j < |ls| ==> ls[j].gst >= 0.0
    ensures BucketGstSum(KeysInOrder(ls), Breakdown(ls)) == Accumulate(ls).gst
    decreases |ls|
  {
    if ls != [] {
      var p := ls[..|ls| - 1];
      assert ls == p + [ls[|ls| - 1]];
      BreakdownSumsToGst(p);
      BucketGstSumStep(p, ls[|ls| - 1]);
    }
  }

  // ---------------------------------------------------------------- totals

  /**
   * The result object of `calculateTotals`; `NoTotals` is `{}` and `Throws` the
   * TypeError a `null` item raises. Each figure is
   * the amount its printed `toFixed(2)` text denotes (see `Money.ParseFixed2`);
   * the breakdown holds unrounded amounts.
   */
  datatype PdfTotals =
    | NoTotals
    | Throws
    | Totals(subTotal: real, totalDiscount: real, totalGST: real, grandTotal: real,
             totalSGST: real, totalCGST: real, youSaved: real, gstBreakdown: map<real, Bucket>)

  function Summarize(ls: seq<LineInput>): PdfTotals {
    var s := Accumulate(ls);
    Totals(RoundCents(s.subTotal), RoundCents(s.discount), RoundCents(s.gst), RoundCents(s.grand),
           RoundCents(s.gst / 2.0), RoundCents(s.gst / 2.0), RoundCents(s.discount), Breakdown(ls))
  }

  /** `calculateTotals(items)` as a value. */
  function TotalsOf(items: Option<Json>): (t: PdfTotals)
    ensures t.NoTotals? <==> !(items.Some? && items.value.JArr?)
    ensures t.Throws? <==> items.Some? && items.value.JArr? && JNull in items.value.elems
    ensures t.Totals? ==> t.totalSGST == t.totalCGST && t.youSaved == t.totalDiscount
  {
    if !(items.Some? && items.value.JArr?) then NoTotals
    else match ReadLines(items.value.elems)
      case None => Throws
      case Some(ls) => Summarize(ls)
  }

  /** One more line moves the accumulators and the breakdown on by that line alone. */
  lemma StepLine(ls: seq<LineInput>, i: nat)
    requires i < |ls|
    ensures var s, f := Accumulate(ls[..i]), LineFigures(ls[i]);
      Accumulate(ls[..i + 1]) == Sums(s.subTotal + f.subTotal, s.discount + f.discount, s.gst + f.gst, s.grand + f.total)
    ensures var m, li := Breakdown(ls[..i]), ls[i];
      Breakdown(ls[..i + 1])
        == if InBreakdown(li) then m[li.gst := AddToBucket(if li.gst in m then m[li.gst] else EmptyBucket, LineFigures(li))] else m
  {
    assert ls[..i + 1][..i] == ls[..i];
    assert ls[..i + 1][i] == ls[i];
  }

  /** The loop's state after line `i`, given its state before it. */
  lemma StepTotals(ls: seq<LineInput>, i: nat, li: LineInput, f: Figures,
                   subTotal: real, totalDiscount: real, totalGST: real, grandTotal: real, m: map<real, Bucket>)
    requires i < |ls| && li == ls[i] && f == LineFigures(li)
    requires Sums(subTotal, totalDiscount, totalGST, grandTotal) == Accumulate(ls[..i])
    requires m == Breakdown(ls[..i])
    ensures Sums(subTotal + f.subTotal, totalDiscount + f.discount, totalGST + f.gst, grandTotal + f.total)
      == Accumulate(ls[..i + 1])
    ensures (if li.withTax && li.gst > 0.0
             then m[li.gst := AddToBucket(if li.gst in m then m[li.gst] else EmptyBucket, f)] else m)
      == Breakdown(ls[..i + 1])
  {
    StepLine(ls, i);
  }

  /** The rounded result built from the loop's final state is the summary of the lines. */
  lemma SummaryOf(ls: seq<LineInput>, subTotal: real, totalDiscount: real, totalGST: real, grandTotal: real, m: map<real, Bucket>)
    requires Sums(subTotal, totalDiscount, totalGST, grandTotal) == Accumulate(ls) && m == Breakdown(ls)
    ensures Summarize(ls) == Totals(RoundCents(subTotal), RoundCents(totalDiscount), RoundCents(totalGST), RoundCents(grandTotal),
                                    RoundCents(totalGST / 2.0), RoundCents(totalGST / 2.0), RoundCents(totalDiscount), m)
    ensures grandTotal == subTotal - totalDiscount + totalGST
  {
    GrandTotalIdentity(ls);
  }

  /** The loop of `calculateTotals`: one pass over the lines updating four accumulators and the breakdown. */
  method SumLines(ls: seq<LineInput>) returns (t: PdfTotals)
    ensures t == Summarize(ls)
    ensures t.Totals? && t.totalSGST == t.totalCGST && t.youSaved == t.totalDiscount
    ensures t.grandTotal == RoundCents(Accumulate(ls).subTotal - Accumulate(ls).discount + Accumulate(ls).gst)
  {
    var subTotal, totalDiscount, totalGST, grandTotal := 0.0, 0.0, 0.0, 0.0;
    var gstBreakdown: map<real, Bucket> := map[];
    var i := 0;
    while i < |ls|
      invariant 0 <= i <= |ls|
      invariant Sums(subTotal, totalDiscount, totalGST, grandTotal) == Accumulate(ls[..i])
      invariant gstBreakdown == Breakdown(ls[..i])
    {
      var li := ls[i];
      var f := LineFigures(li);
      StepTotals(ls, i, li, f, subTotal, totalDiscount, totalGST, grandTotal, gstBreakdown);
      subTotal := subTotal + f.subTotal;
      totalDiscount := totalDiscount + f.discount;
      totalGST := totalGST + f.gst;
      grandTotal := grandTotal + f.total;
      if li.withTax && li.gst > 0.0 {
        var b := if li.gst in gstBreakdown then gstBreakdown[li.gst] else EmptyBucket;
        gstBreakdown := gstBreakdown[li.gst := AddToBucket(b, f)];
      }
      i := i + 1;
    }
    assert ls[..|ls|] == ls;
    SummaryOf(ls, subTotal, totalDiscount, totalGST, grandTotal, gstBreakdown);
    t := Totals(RoundCents(subTotal), RoundCents(totalDiscount), RoundCents(totalGST), RoundCents(grandTotal),
                RoundCents(totalGST / 2.0), RoundCents(totalGST / 2.0), RoundCents(totalDiscount), gstBreakdown);
  }

  /**
   * `calculateTotals(items)`: `{}` unless `items` is an array; a `null` item
   * throws; otherwise the items read line by line and summed.
   */
  method CalculateTotals(items: Option<Json>) returns (t: PdfTotals)
    ensures t == TotalsOf(items)
    ensures t.NoTotals? <==> !(items.Some? && items.value.JArr?)
    ensures t.Throws? <==> items.Some? && items.value.JArr? && JNull in items.value.elems
  {
    if !(items.Some? && items.value.JArr?) {
      return NoTotals;
    }
    var lines := ReadLines(items.value.elems);
    if lines.None? {
      return Throws;
    }
    t := SumLines(lines.value);
  }

  // ---------------------------------------------------------------- amount in words

  /** `Math.round`: halves go up. */
  function RoundHalfUp(x: real): int {
    (x + 0.5).Floor
  }

  /** `convertToWords(amount)`: whole rupees and rounded paisa as digits. */
  function ConvertToWords(amount: Option<Json>): (w: string)
    ensures ParseFloat(amount).None? ==> w == "NaN Rupees Only"
    ensures ParseFloat(amount) == Some(0.0) ==> w == "Zero Rupees Only"
    ensures |w| >= 5 && w[|w| - 5..] == " Only"
  {
    NumberWords(ParseFloat(amount))
  }

  /** The words `convertToWords` prints once its argument has gone through `parseFloat`. */
  function NumberWords(num: Option<real>): string {
    if num.None? then "NaN Rupees Only"
    else if num.value == 0.0 then "Zero Rupees Only"
    else DigitWords(num.value.Floor, RoundHalfUp((num.value - num.value.Floor as real) * 100.0))
  }

  /** The rupees as digits, then the paisa when there are some, then " Only". */
  function DigitWords(rupees: int, paisa: int): string {
    IntToString(rupees) + " Rupees" + (if paisa > 0 then " and " + IntToString(paisa) + " Paisa" else "") + " Only"
  }

  /** Splitting `v`, a whole number `c` of cents, into rupees and paisa. */
  lemma CentsSplit(c: nat, v: real)
    requires v == c as real / 100.0
    ensures v.Floor == c / 100
    ensures RoundHalfUp((v - (c / 100) as real) * 100.0) == c % 100
  {
    var q, r := c / 100, c % 100;
    assert v == q as real + r as real / 100.0;
    assert (v - q as real) * 100.0 == r as real;
  }

  /** The words for a non-zero number, given its whole part and its rounded hundredths. */
  lemma NonZeroWords(num: real, rupees: int, paisa: int)
    requires num != 0.0 && num.Floor == rupees && RoundHalfUp((num - rupees as real) * 100.0) == paisa
    ensures NumberWords(Some(num)) == DigitWords(rupees, paisa)
  {
    var r := num.Floor;
    var p := RoundHalfUp((num - r as real) * 100.0);
    assert NumberWords(Some(num)) == DigitWords(r, p);
    SameDigitWords(r, p, rupees, paisa);
  }

  lemma SameDigitWords(r: int, p: int, rupees: int, paisa: int)
    requires r == rupees && p == paisa
    ensures DigitWords(r, p) == DigitWords(rupees, paisa)
  {
  }

  /** The words for `v`, a whole number `c` of cents. */
  lemma WordsOfCents(c: nat, v: real)
    requires v == c as real / 100.0
    ensures c == 0 ==> NumberWords(Some(v)) == "Zero Rupees Only"
    ensures c > 0 ==> NumberWords(Some(v)) == CentsWords(c)
  {
    if c > 0 {
      assert v > 0.0;
      CentsSplit(c, v);
      NonZeroWords(v, c / 100, c % 100);
    }
  }

  /** The words for a text that `parseFloat` reads as `v`, a whole number `c` of cents. */
  lemma WordsOfText(t: string, v: real, c: nat)
    requires ParseDecimal(t) == Some(v) && v == c as real / 100.0
    ensures c == 0 ==> ConvertToWords(Some(JStr(t))) == "Zero Rupees Only"
    ensures c > 0 ==> ConvertToWords(Some(JStr(t))) == CentsWords(c)
  {
    assert ParseFloat(Some(JStr(t))) == Some(v);
    WordsOfCents(c, v);
  }

  /** The words the digits formatter prints for `c > 0` cents: `c / 100` rupees and `c % 100` paisa. */
  function CentsWords(c: nat): string {
    DigitWords(c / 100, c % 100)
  }

  /**
   * The words for a printed non-negative total `x.toFixed(2)`, the only input
   * the callers give: the rupees, then the paisa exactly when there are some,
   * then " Only"; zero cents reads "Zero Rupees Only".
   */
  lemma WordsOfFixedAmount(x: real)
    requires x >= 0.0
    ensures Cents(x) == 0 ==> ConvertToWords(Some(JStr(Fixed2(x)))) == "Zero Rupees Only"
    ensures Cents(x) > 0 ==> ConvertToWords(Some(JStr(Fixed2(x)))) == CentsWords(Cents(x))
  {
    var c: nat := Cents(x);
    ParseFixed2(x);
    assert RoundCents(x) == c as real / 100.0;
    WordsOfText(Fixed2(x), RoundCents(x), c);
  }

  // ---------------------------------------------------------------- export

  /** The marker written between the PDF bytes and the serialised record. */
  const Separator: string := "\n\n__QUOTATION_DATA__\n\n"

  /** The downloaded file's content: the PDF, the marker, then `JSON.stringify(quotation)`. */
  function Artifact(pdf: string, quotation: Json, stringify: Json -> string): (a: string)
    ensures |a| == |pdf| + |Separator| + |stringify(quotation)|
    ensures a[..|pdf|] == pdf
    ensures a[|pdf|..|pdf| + |Separator|] == Separator
    ensures a[|pdf| + |Separator|..] == stringify(quotation)
  {
    pdf + Separator + stringify(quotation)
  }

  /** `quotation-${refNo || 'unknown'}.pdf`, with the reference number as text and `""` when it is falsy. */
  function Filename(refNo: string): (name: string)
    ensures |name| >= 15 && name[..10] == "quotation-" && name[|name| - 4..] == ".pdf"
    ensures |name| == 14 + if refNo != "" then |refNo| else 7
  {
    "quotation-" + (if refNo != "" then refNo else "unknown") + ".pdf"
  }

  /** The reference number a download name carries: the text between `quotation-` and `.pdf`. */
  function NameRef(name: string): Option<string> {
    if |name| >= 14 && name[..10] == "quotation-" && name[|name| - 4..] == ".pdf" then Some(name[10..|name| - 4])
    else None
  }

  /** A reference number can be read back from its download name. */
  lemma FilenameRoundTrip(refNo: string)
    ensures NameRef(Filename(refNo)) == Some(if refNo != "" then refNo else "unknown")
  {
    var m := if refNo != "" then refNo else "unknown";
    var name := "quotation-" + m + ".pdf";
    assert name == Filename(refNo);
    assert name[..10] == "quotation-" && name[|name| - 4..] == ".pdf";
    assert name[10..|name| - 4] == m;
  }

  /** Two quotations with reference numbers download under different names. */
  lemma FilenameInjective(a: string, b: string)
    requires a != "" && b != "" && Filename(a) == Filename(b)
    ensures a == b
  {
    FilenameRoundTrip(a);
    FilenameRoundTrip(b);
  }

  /** A quotation without a reference number downloads under the same name as one numbered `unknown`. */
  lemma UnknownCollides()
    ensures Filename("") == Filename("unknown")
  {
  }

  // ---------------------------------------------------------------- per-item fallbacks

  /** The fields the PDF table shows for one item, after its fallbacks. */
  datatype PdfItem = PdfItem(
    description: Json, hsnCode: Json, itemName: Json, itemUnit: Json,
    quantity: Json, rate: Json, discount: Json, taxGST: Json, withTax: Json)

  /** The catalogue value first, then the item's own value, then the default. */
  function Fallback(item: Json, catalogueKey: string, ownKey: string, default: Json): Json {
    var o := Some(item);
    OrElse(Prop(Prop(o, "itemId"), catalogueKey), OrElse(Prop(o, ownKey), default))
  }

  /** The item with its fallbacks; `None` for a `null` item, on which `item.itemId` throws. */
  function ResolveItem(item: Json): (r: Option<PdfItem>)
    ensures r.None? <==> item.JNull?
  {
    var o := Some(item);
    if item.JNull? then None else Some(PdfItem(
      Fallback(item, "description", "description", JStr("No description available")),
      Fallback(item, "hsn", "hsnCode", JStr("N/A")),
      Fallback(item, "itemName", "itemName", JStr("N/A")),
      Fallback(item, "itemUnit", "itemUnit", JStr("Nos")),
      OrElse(Prop(o, "quantity"), JNum(1.0)),
      OrElse(Prop(o, "rate"), JNum(0.0)),
      OrElse(Prop(o, "discount"), JNum(0.0)),
      OrElse(Prop(o, "taxGST"), JNum(0.0)),
      OrElse(Prop(o, "withTax"), JBool(false))))
  }

  /** The text fields and the quantity are never blank; each comes from the catalogue, else the item, else the default. */
  lemma ResolveItemFallbacks(item: Json)
    ensures ResolveItem(item).None? <==> item.JNull?
    ensures !item.JNull? ==> var r := ResolveItem(item).value;
      Truthy(Some(r.description)) && Truthy(Some(r.hsnCode)) && Truthy(Some(r.itemName))
      && Truthy(Some(r.itemUnit)) && Truthy(Some(r.quantity))
    ensures !item.JNull? ==> var r := ResolveItem(item).value; var cat := Prop(Some(item), "itemId");
      (Truthy(Prop(cat, "description")) ==> Some(r.description) == Prop(cat, "description"))
      && (!Truthy(Prop(cat, "description")) && Truthy(Prop(Some(item), "description"))
          ==> Some(r.description) == Prop(Some(item), "description"))
      && (!Truthy(Prop(cat, "description")) && !Truthy(Prop(Some(item), "description"))
          ==> r.description == JStr("No description available"))
  {
  }

  /** An item that carries none of the fields gets every default. */
  lemma ResolveEmptyItem()
    ensures ResolveItem(JObj(map[])) == Some(PdfItem(
      JStr("No description available"), JStr("N/A"), JStr("N/A"), JStr("Nos"),
      JNum(1.0), JNum(0.0), JNum(0.0), JNum(0.0), JBool(false)))
  {
  }
}
