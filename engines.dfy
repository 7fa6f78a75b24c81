/**
 * The form and the PDF download price a `withTax` line differently: the form
 * reads the rate as already including GST and backs it out, the PDF adds GST
 * on top. The PDF's line total is the form's grown once more by the GST rate.
 */
module Engines {
  import opened Money
  import PdfUtils
  import QuotationForm

  /** The form's total of a taxed line is the PDF's taxable amount; the PDF's total adds GST to it again. */
  lemma FormAndPdfTotals(li: PdfUtils.LineInput)
    requires li.withTax && 1.0 + li.gst / 100.0 != 0.0
    ensures QuotationForm.ExactFigures(li).Some?
    ensures QuotationForm.ExactFigures(li).value.total == PdfUtils.LineFigures(li).taxable
    ensures PdfUtils.LineFigures(li).total == QuotationForm.ExactFigures(li).value.total * (1.0 + li.gst / 100.0)
  {
    QuotationForm.ReverseMode(li);
    PdfUtils.LineTotal(li);
    var e := QuotationForm.ExactFigures(li).value;
    var g := 1.0 + li.gst / 100.0;
    assert e.taxable == e.subtotal * (1.0 - li.discount / 100.0);
    assert e.total == e.subtotal * (1.0 - li.discount / 100.0) * g;
    assert e.total == li.quantity * li.rate * (1.0 - li.discount / 100.0);
  }

  /** With a non-zero GST rate and a non-zero form total the two engines print different totals for the same taxed line. */
  lemma FormAndPdfDisagree(li: PdfUtils.LineInput)
    requires li.withTax && li.gst != 0.0 && 1.0 + li.gst / 100.0 != 0.0
    requires QuotationForm.ExactFigures(li).Some? && QuotationForm.ExactFigures(li).value.total != 0.0
    ensures PdfUtils.LineFigures(li).total != QuotationForm.ExactFigures(li).value.total
  {
    FormAndPdfTotals(li);
    var t := QuotationForm.ExactFigures(li).value.total;
    assert t * (1.0 + li.gst / 100.0) - t == t * (li.gst / 100.0);
    assert t * (li.gst / 100.0) != 0.0;
  }

  /** One unit at 118 with 18 per cent GST marked as included. */
  const Unit118 := PdfUtils.LineInput(1.0, 118.0, 0.0, 18.0, true)

  /** The form quotes that line at 118.00, the rate the customer was given. */
  lemma FormQuotes118()
    ensures QuotationForm.ExactFigures(Unit118).Some?
    ensures RoundCents(QuotationForm.ExactFigures(Unit118).value.total) == 118.0
  {
    var li := Unit118;
    assert li.quantity == 1.0 && li.rate == 118.0 && li.discount == 0.0 && li.gst == 18.0 && li.withTax;
    QuotationForm.ReverseRoundTrip(li);
    var t := QuotationForm.ExactFigures(li).value.total;
    assert t == 118.0;
    CentsNearest(t, 11800);
  }

  /** The PDF prices the same line at 139.24. */
  lemma PdfQuotes13924()
    ensures RoundCents(PdfUtils.LineFigures(Unit118).total) == 139.24
  {
    var t := PdfUtils.LineFigures(Unit118).total;
    assert t == 139.24;
    CentsNearest(t, 13924);
  }
}
