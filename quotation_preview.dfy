/**
 * The quotation preview screen: its own pricing engine, which charges GST on
 * every line whatever the `withTax` flag says (the flag only decides whether
 * the GST cell shows the amount or "N/A"), and its document totals, summed
 * from the per-line figures after they were printed to two decimals.
 */
module QuotationPreview {
  import opened Common
  import opened JsValues
  import opened Money
  import PdfUtils

  /** The unrounded figures of a line: the PDF engine's, with the tax flag forced on. */
  function PreviewFigures(item: Json): PdfUtils.Figures {
    PdfUtils.LineFigures(PdfUtils.ReadLine(item).(withTax := true))
  }

  /**
   * `calculateItemAmounts(item)` of an item that is not `null` (on `null`,
   * `item.quantity` throws, which `TotalsOf` reports): each figure is the
   * amount its `toFixed(2)` text denotes.
   */
  datatype Amounts = Amounts(
    subTotal: real, discountAmount: real, taxableAmount: real, gstAmount: real,
    totalAmount: real, sgst: real, cgst: real)

  function ItemAmounts(item: Json): (a: Amounts)
    ensures a.sgst == a.cgst
  {
    var f := PreviewFigures(item);
    Amounts(RoundCents(f.subTotal), RoundCents(f.discount), RoundCents(f.taxable), RoundCents(f.gst),
            RoundCents(f.total), RoundCents(f.gst / 2.0), RoundCents(f.gst / 2.0))
  }

  /** GST is the rate on the taxable amount, and the total is taxable plus GST. */
  predicate ChargesGst(f: PdfUtils.Figures, li: PdfUtils.LineInput) {
    f.gst == f.taxable * li.gst / 100.0
    && f.total == f.subTotal - f.discount + f.gst
    && f.total == f.taxable * (1.0 + li.gst / 100.0)
    && f.taxable == li.quantity * li.rate * (1.0 - li.discount / 100.0)
  }

  /** GST is charged on every line: it is the rate on the taxable amount, and the total is taxable plus GST. */
  lemma ItemAmountsAlwaysTaxed(item: Json)
    ensures ChargesGst(PreviewFigures(item), PdfUtils.ReadLine(item))
  {
    TaxedLine(PdfUtils.ReadLine(item));
  }

  /** The figures of a line with its tax flag forced on. */
  lemma TaxedLine(li: PdfUtils.LineInput)
    ensures ChargesGst(PdfUtils.LineFigures(li.(withTax := true)), li)
  {
    PdfUtils.LineTotal(li.(withTax := true));
  }

  /** Changing the `withTax` flag of an item changes none of its amounts. */
  lemma FlagIgnored(fields: map<string, Json>, flag: Json)
    ensures ItemAmounts(JObj(fields["withTax" := flag])) == ItemAmounts(JObj(fields))
  {
    var a, b := JObj(fields["withTax" := flag]), JObj(fields);
    assert PreviewFigures(a) == PreviewFigures(b) by {
      assert Prop(Some(a), "quantity") == Prop(Some(b), "quantity");
      assert Prop(Some(a), "rate") == Prop(Some(b), "rate");
      assert Prop(Some(a), "discount") == Prop(Some(b), "discount");
      assert Prop(Some(a), "taxGST") == Prop(Some(b), "taxGST");
      assert PdfUtils.ReadLine(a).(withTax := true) == PdfUtils.ReadLine(b).(withTax := true);
    }
  }

  /** On a line that carries tax the preview and the PDF engine agree. */
  lemma AgreesWithPdfOnTaxedLines(item: Json)
    requires Truthy(Prop(Some(item), "withTax"))
    ensures PreviewFigures(item) == PdfUtils.LineFigures(PdfUtils.ReadLine(item))
  {
    var li := PdfUtils.ReadLine(item);
    assert li.(withTax := true) == li;
  }

  /** Forcing the flag on charges GST on an untaxed line with a non-zero taxable amount and GST rate. */
  lemma ForcedTaxCharges(li: PdfUtils.LineInput)
    requires !li.withTax && PdfUtils.LineFigures(li).taxable != 0.0 && li.gst != 0.0
    ensures PdfUtils.LineFigures(li).gst == 0.0
    ensures PdfUtils.LineFigures(li.(withTax := true)).gst != 0.0
    ensures PdfUtils.LineFigures(li.(withTax := true)).total != PdfUtils.LineFigures(li).total
  {
    var t := PdfUtils.LineFigures(li).taxable;
    var g := PdfUtils.LineFigures(li.(withTax := true)).gst;
    assert g == t * li.gst / 100.0;
    assert t * li.gst != 0.0;
  }

  /** On an untaxed line with a non-zero taxable amount and GST rate, the preview charges GST the PDF does not. */
  lemma DisagreesWithPdfOnUntaxedLines(item: Json)
    requires !Truthy(Prop(Some(item), "withTax"))
    requires PdfUtils.LineFigures(PdfUtils.ReadLine(item)).taxable != 0.0 && PdfUtils.ReadLine(item).gst != 0.0
    ensures PdfUtils.LineFigures(PdfUtils.ReadLine(item)).gst == 0.0
    ensures PreviewFigures(item).gst != 0.0
    ensures PreviewFigures(item).total != PdfUtils.LineFigures(PdfUtils.ReadLine(item)).total
  {
    ForcedTaxCharges(PdfUtils.ReadLine(item));
  }

  /** The GST cell of a row: the amount when the flag is set, "N/A" (`None`) otherwise. */
  function GstCell(item: Json): (cell: Option<real>)
    ensures cell.Some? <==> Truthy(Prop(Some(item), "withTax"))
    ensures cell.Some? ==> cell.value == ItemAmounts(item).gstAmount
  {
    if Truthy(Prop(Some(item), "withTax")) then Some(ItemAmounts(item).gstAmount) else None
  }

  // ---------------------------------------------------------------- totals

  /** The printed amounts of the items, in order. */
  function AmountsOf(es: seq<Json>): (r: seq<Amounts>)
    ensures |r| == |es|
    ensures forall k :: 0 <= k < |es| ==> r[k] == ItemAmounts(es[k])
  {
    seq(|es|, k requires 0 <= k < |es| => ItemAmounts(es[k]))
  }

  /** One line's printed amounts added to the four running sums. */
  function AddAmounts(s: PdfUtils.Sums, a: Amounts): PdfUtils.Sums {
    PdfUtils.Sums(s.subTotal + a.subTotal, s.discount + a.discountAmount, s.gst + a.gstAmount, s.grand + a.totalAmount)
  }

  /** The four running sums, over the printed per-line amounts. */
  function PrintedSums(ams: seq<Amounts>): PdfUtils.Sums
    decreases |ams|
  {
    if ams == [] then PdfUtils.Sums(0.0, 0.0, 0.0, 0.0)
    else AddAmounts(PrintedSums(ams[..|ams| - 1]), ams[|ams| - 1])
  }

  /**
   * `calculateTotals()`: `NoTotals` (the empty object) when the quotation has no
   * items, `Throws` when its items are truthy but not an array (`forEach` is
   * then undefined) or hold a `null` item (whose `quantity` cannot be read),
   * and otherwise the printed totals.
   */
  datatype PreviewTotals =
    | NoTotals
    | Throws
    | Totals(subTotal: real, totalDiscount: real, totalGST: real, grandTotal: real,
             totalSGST: real, totalCGST: real, youSaved: real)

  function Summarize(s: PdfUtils.Sums): PreviewTotals {
    Totals(RoundCents(s.subTotal), RoundCents(s.discount), RoundCents(s.gst), RoundCents(s.grand),
           RoundCents(s.gst / 2.0), RoundCents(s.gst / 2.0), RoundCents(s.discount))
  }

  /** `calculateTotals()` as a value; `items` is `quotation?.items`. */
  function TotalsOf(items: Option<Json>): (t: PreviewTotals)
    ensures t.NoTotals? <==> !Truthy(items)
    ensures t.Throws? <==> Truthy(items) && (!items.value.JArr? || JNull in items.value.elems)
    ensures t.Totals? ==> t.totalSGST == t.totalCGST && t.youSaved == t.totalDiscount
  {
    if !Truthy(items) then NoTotals
    else if !items.value.JArr? || JNull in items.value.elems then Throws
    else Summarize(PrintedSums(AmountsOf(items.value.elems)))
  }

  lemma StepItem(ams: seq<Amounts>, i: nat)
    requires i < |ams|
    ensures PrintedSums(ams[..i + 1]) == AddAmounts(PrintedSums(ams[..i]), ams[i])
  {
    assert ams[..i + 1][..i] == ams[..i];
    assert ams[..i + 1][i] == ams[i];
  }

  /** The loop of `calculateTotals`: four accumulators over the printed amounts of the lines. */
  method SumPrinted(ams: seq<Amounts>) returns (t: PreviewTotals)
    ensures t == Summarize(PrintedSums(ams))
    ensures t.Totals? && t.totalSGST == t.totalCGST && t.youSaved == t.totalDiscount
  {
    var subTotal, totalDiscount, totalGST, grandTotal := 0.0, 0.0, 0.0, 0.0;
    var i := 0;
    while i < |ams|
      invariant 0 <= i <= |ams|
      invariant PdfUtils.Sums(subTotal, totalDiscount, totalGST, grandTotal) == PrintedSums(ams[..i])
    {
      var a := ams[i];
      StepItem(ams, i);
      subTotal := subTotal + a.subTotal;
      totalDiscount := totalDiscount + a.discountAmount;
      totalGST := totalGST + a.gstAmount;
      grandTotal := grandTotal + a.totalAmount;
      i := i + 1;
    }
    assert ams[..|ams|] == ams;
    t := Totals(RoundCents(subTotal), RoundCents(totalDiscount), RoundCents(totalGST), RoundCents(grandTotal),
                RoundCents(totalGST / 2.0), RoundCents(totalGST / 2.0), RoundCents(totalDiscount));
  }

  /** `calculateTotals()`: no totals without items, a throw for items that are not an array or hold `null`, otherwise the loop. */
  method CalculateTotals(items: Option<Json>) returns (t: PreviewTotals)
    ensures t == TotalsOf(items)
    ensures t.NoTotals? <==> !Truthy(items)
    ensures t.Throws? <==> Truthy(items) && (!items.value.JArr? || JNull in items.value.elems)
  {
    if !Truthy(items) {
      return NoTotals;
    }
    if !items.value.JArr? || JNull in items.value.elems {
      return Throws;
    }
    t := SumPrinted(AmountsOf(items.value.elems));
  }

  /** The four printed figures the totals add are whole cents. */
  predicate AmountsInCents(a: Amounts) {
    IsCents(a.subTotal) && IsCents(a.discountAmount) && IsCents(a.gstAmount) && IsCents(a.totalAmount)
  }

  predicate SumsInCents(s: PdfUtils.Sums) {
    IsCents(s.subTotal) && IsCents(s.discount) && IsCents(s.gst) && IsCents(s.grand)
  }

  /** Every figure of a row is printed to two decimals, so it is whole cents. */
  lemma ItemAmountsInCents(item: Json)
    ensures AmountsInCents(ItemAmounts(item))
  {
    var f := PreviewFigures(item);
    RoundCentsIsCents(f.subTotal);
    RoundCentsIsCents(f.discount);
    RoundCentsIsCents(f.gst);
    RoundCentsIsCents(f.total);
  }

  lemma AddInCents(s: PdfUtils.Sums, a: Amounts)
    requires SumsInCents(s) && AmountsInCents(a)
    ensures SumsInCents(AddAmounts(s, a))
  {
    CentsSum(s.subTotal, a.subTotal);
    CentsSum(s.discount, a.discountAmount);
    CentsSum(s.gst, a.gstAmount);
    CentsSum(s.grand, a.totalAmount);
  }

  /** Every printed sum is in whole cents. */
  lemma {:induction false} PrintedSumsInCents(ams: seq<Amounts>)
    requires forall k :: 0 <= k < |ams| ==> AmountsInCents(ams[k])
    ensures SumsInCents(PrintedSums(ams))
    decreases |ams|
  {
    if ams == [] {
      assert IsCents(0.0);
    } else {
      PrintedSumsInCents(ams[..|ams| - 1]);
      AddInCents(PrintedSums(ams[..|ams| - 1]), ams[|ams| - 1]);
    }
  }

  /** The final rounding changes nothing: each document total is exactly the sum of the printed line figures. */
  lemma TotalsAreExactSums(es: seq<Json>)
    ensures JNull in es <==> TotalsOf(Some(JArr(es))).Throws?
    ensures var t, s := TotalsOf(Some(JArr(es))), PrintedSums(AmountsOf(es));
      JNull !in es ==> (t.Totals? && t.subTotal == s.subTotal && t.totalDiscount == s.discount
      && t.totalGST == s.gst && t.grandTotal == s.grand)
  {
    var ams := AmountsOf(es);
    forall k | 0 <= k < |ams| ensures AmountsInCents(ams[k]) {
      ItemAmountsInCents(es[k]);
    }
    var s := PrintedSums(ams);
    PrintedSumsInCents(ams);
    RoundCentsOfCents(s.subTotal);
    RoundCentsOfCents(s.discount);
    RoundCentsOfCents(s.gst);
    RoundCentsOfCents(s.grand);
  }
}
