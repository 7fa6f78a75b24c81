/**
 * The quotation editor: its reverse pricing engine (a `withTax` rate already
 * includes GST, which is backed out), the summary, the line-item editing
 * handlers, the catalogue search and the submit guard and payload.
 */
module QuotationForm {
  import opened Common
  import opened Text
  import opened JsValues
  import opened Money
  import opened Seqs
  import opened Images
  import PdfUtils

  // ---------------------------------------------------------------- state shapes

  /** One editable line of the form. */
  datatype FormLine = FormLine(
    itemId: string, itemName: string, hsnCode: string,
    quantity: Json, rate: Json, withTax: Json, discount: Json, taxGST: Json,
    itemImage: string, itemImageFile: Option<ImageFile>)

  /** The row `addLineItem` appends and a new quotation starts with. */
  const BlankLine := FormLine("", "", "", JNum(1.0), JStr(""), JBool(false), JStr(""), JNum(18.0), "", None)

  /** A catalogue entry as the form keeps it after loading the items. */
  datatype CatalogItem = CatalogItem(id: string, name: string, hsnCode: string, price: Json, unit: Json, itemImage: string)

  datatype NoticeKind = Error | Success
  datatype Notice = Notice(kind: NoticeKind, message: string)

  const AtLeastOneLineMessage := "At least one line item is required."
  const SubmitGuardMessage := "Customer name and at least one line item are required."

  // ---------------------------------------------------------------- pricing

  /** The numbers of a line, with missing or zero quantity read as 1 and the rest as 0. */
  function ReadFormLine(line: FormLine): (li: PdfUtils.LineInput)
    ensures li.quantity != 0.0
    ensures li.withTax == Truthy(Some(line.withTax))
    ensures ParseFloat(Some(line.quantity)).None? ==> li.quantity == 1.0
    ensures ParseFloat(Some(line.rate)).None? ==> li.rate == 0.0
    ensures ParseFloat(Some(line.discount)).None? ==> li.discount == 0.0
    ensures ParseFloat(Some(line.taxGST)).None? ==> li.gst == 0.0
  {
    PdfUtils.LineInput(
      NumberOr(Some(line.quantity), 1.0), NumberOr(Some(line.rate), 0.0),
      NumberOr(Some(line.discount), 0.0), NumberOr(Some(line.taxGST), 0.0),
      Truthy(Some(line.withTax)))
  }

  /** The unrounded figures of one line. */
  datatype Exact = Exact(subtotal: real, discount: real, taxable: real, gst: real, total: real, original: real)

  /**
   * The form's engine. A `withTax` line's rate includes GST: the subtotal is
   * the quantity times the rate divided by `1 + g/100`, and GST is charged on
   * the discounted subtotal. Otherwise no GST is charged. `None` stands for the
   * division by zero a rate of exactly -100 per cent makes.
   */
  function ExactFigures(li: PdfUtils.LineInput): (r: Option<Exact>)
    ensures r.None? <==> li.withTax && 1.0 + li.gst / 100.0 == 0.0
    ensures r.Some? ==> (r.value.taxable == r.value.subtotal - r.value.discount
      && r.value.total == r.value.taxable + r.value.gst && r.value.original == li.quantity * li.rate)
    ensures r.Some? && !li.withTax ==> r.value.gst == 0.0
  {
    if li.withTax then
      var totalWithTax := li.quantity * li.rate;
      var divisor := 1.0 + li.gst / 100.0;
      if divisor == 0.0 then None
      else
        var sub := totalWithTax / divisor;
        var disc := sub * li.discount / 100.0;
        var taxable := sub - disc;
        var gst := taxable * (li.gst / 100.0);
        Some(Exact(sub, disc, taxable, gst, sub - disc + gst, totalWithTax))
    else
      var sub := li.quantity * li.rate;
      var disc := sub * li.discount / 100.0;
      var taxable := sub - disc;
      Some(Exact(sub, disc, taxable, 0.0, taxable, sub))
  }

  /** Reverse mode: grossing the subtotal back up by the rate gives quantity times rate, and GST is the rate on the taxable amount. */
  lemma ReverseMode(li: PdfUtils.LineInput)
    requires li.withTax && 1.0 + li.gst / 100.0 != 0.0
    ensures ExactFigures(li).Some?
    ensures var e := ExactFigures(li).value;
      e.subtotal * (1.0 + li.gst / 100.0) == li.quantity * li.rate
      && e.discount == e.subtotal * li.discount / 100.0
      && e.gst == e.taxable * li.gst / 100.0
      && e.total == e.taxable * (1.0 + li.gst / 100.0)
      && e.original == li.quantity * li.rate
  {
    var divisor := 1.0 + li.gst / 100.0;
    var sub := li.quantity * li.rate / divisor;
    assert sub * divisor == li.quantity * li.rate;
  }

  /** With no discount, backing the tax out and adding it back returns exactly what the customer was quoted. */
  lemma ReverseRoundTrip(li: PdfUtils.LineInput)
    requires li.withTax && 1.0 + li.gst / 100.0 != 0.0 && li.discount == 0.0
    ensures ExactFigures(li).Some? && ExactFigures(li).value.total == li.quantity * li.rate
  {
    ReverseMode(li);
  }

  /** Forward mode: no GST, and the total is quantity times rate less the discount. */
  lemma ForwardMode(li: PdfUtils.LineInput)
    requires !li.withTax
    ensures ExactFigures(li).Some?
    ensures var e := ExactFigures(li).value;
      e.gst == 0.0 && e.total == e.taxable && e.total == li.quantity * li.rate * (1.0 - li.discount / 100.0)
  {
  }

  /** `lineItemTotals[i]`: the printed figures of one line, as the amounts the text denotes. */
  datatype LineTotals = LineTotals(
    subtotal: real, discountAmount: real, taxableAmount: real, gstAmount: real,
    sgst: real, cgst: real, totalAmount: real, originalTotalWithTax: real, unit: string)

  /** `items.find(item => item.id === id)?.unit || ''`. */
  function UnitOf(catalog: seq<CatalogItem>, id: string): string {
    var k := FindIndex(catalog, (it: CatalogItem) => it.id == id);
    if k < 0 then "" else StrOr(Some(catalog[k].unit), "")
  }

  function LineItemTotals(line: FormLine, catalog: seq<CatalogItem>): (r: Option<LineTotals>)
    ensures r.None? <==> ExactFigures(ReadFormLine(line)).None?
  {
    var li := ReadFormLine(line);
    var e := ExactFigures(li);
    if e.None? then None else Some(Printed(e.value, li.withTax, UnitOf(catalog, line.itemId)))
  }

  /** The exact figures of a line printed with `toFixed(2)`; SGST and CGST are "0.00" without tax. */
  function Printed(x: Exact, withTax: bool, unit: string): LineTotals {
    var half := if withTax then RoundCents(x.gst / 2.0) else 0.0;
    LineTotals(RoundCents(x.subtotal), RoundCents(x.discount), RoundCents(x.taxable), RoundCents(x.gst),
               half, half, RoundCents(x.total), RoundCents(x.original), unit)
  }

  /** Every printed figure of a line is in whole cents and its SGST equals its CGST. */
  predicate PrintedInCents(t: LineTotals) {
    IsCents(t.subtotal) && IsCents(t.discountAmount) && IsCents(t.gstAmount)
    && IsCents(t.sgst) && IsCents(t.cgst) && IsCents(t.totalAmount) && t.sgst == t.cgst
  }

  lemma LineTotalsInCents(line: FormLine, catalog: seq<CatalogItem>, t: LineTotals)
    requires LineItemTotals(line, catalog) == Some(t)
    ensures PrintedInCents(t)
  {
    var li := ReadFormLine(line);
    PrintedInCentsOf(ExactFigures(li).value, li.withTax, UnitOf(catalog, line.itemId));
  }

  lemma PrintedInCentsOf(x: Exact, withTax: bool, unit: string)
    ensures PrintedInCents(Printed(x, withTax, unit))
  {
    RoundCentsIsCents(x.subtotal);
    RoundCentsIsCents(x.discount);
    RoundCentsIsCents(x.gst);
    RoundCentsIsCents(x.gst / 2.0);
    RoundCentsIsCents(x.total);
    assert IsCents(0.0);
  }

  /** All lines' figures, or `None` when some line divides by zero. */
  function AllLineTotals(lines: seq<FormLine>, catalog: seq<CatalogItem>): (r: Option<seq<LineTotals>>)
    ensures r.Some? ==> |r.value| == |lines|
    ensures r.Some? ==> forall i :: 0 <= i < |lines| ==> Some(r.value[i]) == LineItemTotals(lines[i], catalog)
    ensures r.None? ==> exists i :: 0 <= i < |lines| && LineItemTotals(lines[i], catalog).None?
    decreases |lines|
  {
    if lines == [] then Some([])
    else
      var rest := AllLineTotals(lines[1..], catalog);
      var first := LineItemTotals(lines[0], catalog);
      if first.None? then None
      else if rest.None? then
        var i :| 0 <= i < |lines[1..]| && LineItemTotals(lines[1..][i], catalog).None?;
        assert LineItemTotals(lines[i + 1], catalog).None?;
        None
      else Some([first.value] + rest.value)
  }

  // ---------------------------------------------------------------- summary

  datatype Summary = Summary(subtotal: real, totalDiscount: real, totalGST: real, totalSGST: real, totalCGST: real, grandTotal: real)

  /** The summed columns of `lineItemTotals`. */
  datatype Column = SubtotalCol | DiscountCol | GstCol | SgstCol | CgstCol | TotalCol

  function Col(t: LineTotals, c: Column): real {
    match c
    case SubtotalCol => t.subtotal
    case DiscountCol => t.discountAmount
    case GstCol => t.gstAmount
    case SgstCol => t.sgst
    case CgstCol => t.cgst
    case TotalCol => t.totalAmount
  }

  /** `lineItemTotals.reduce((sum, t) => sum + parseFloat(t.column), 0)`. */
  function SumOf(ts: seq<LineTotals>, c: Column): real
    decreases |ts|
  {
    if ts == [] then 0.0 else SumOf(ts[..|ts| - 1], c) + Col(ts[|ts| - 1], c)
  }

  /** The summary: sums of the printed per-line figures, printed again. */
  function SummaryOf(ts: seq<LineTotals>): (r: Summary)
    ensures IsCents(r.subtotal) && IsCents(r.totalDiscount) && IsCents(r.totalGST)
      && IsCents(r.totalSGST) && IsCents(r.totalCGST) && IsCents(r.grandTotal)
  {
    RoundCentsIsCents(SumOf(ts, SubtotalCol)); RoundCentsIsCents(SumOf(ts, DiscountCol));
    RoundCentsIsCents(SumOf(ts, GstCol)); RoundCentsIsCents(SumOf(ts, SgstCol));
    RoundCentsIsCents(SumOf(ts, CgstCol)); RoundCentsIsCents(SumOf(ts, TotalCol));
    Summary(
      RoundCents(SumOf(ts, SubtotalCol)), RoundCents(SumOf(ts, DiscountCol)),
      RoundCents(SumOf(ts, GstCol)), RoundCents(SumOf(ts, SgstCol)),
      RoundCents(SumOf(ts, CgstCol)), RoundCents(SumOf(ts, TotalCol)))
  }

  lemma {:induction false} SumOfCents(ts: seq<LineTotals>, c: Column)
    requires forall i :: 0 <= i < |ts| ==> IsCents(Col(ts[i], c))
    ensures IsCents(SumOf(ts, c))
    decreases |ts|
  {
    if ts == [] {
      assert IsCents(0.0);
    } else {
      SumOfCents(ts[..|ts| - 1], c);
      CentsSum(SumOf(ts[..|ts| - 1], c), Col(ts[|ts| - 1], c));
    }
  }

  lemma {:induction false} SumOfEqual(ts: seq<LineTotals>, c: Column, d: Column)
    requires forall i :: 0 <= i < |ts| ==> Col(ts[i], c) == Col(ts[i], d)
    ensures SumOf(ts, c) == SumOf(ts, d)
    decreases |ts|
  {
    if ts != [] {
      SumOfEqual(ts[..|ts| - 1], c, d);
    }
  }

  /** Summing a column of whole cents and rounding again gives the plain sum. */
  lemma ColumnSumExact(ts: seq<LineTotals>, c: Column)
    requires forall i :: 0 <= i < |ts| ==> IsCents(Col(ts[i], c))
    ensures RoundCents(SumOf(ts, c)) == SumOf(ts, c)
  {
    SumOfCents(ts, c);
    RoundCentsOfCents(SumOf(ts, c));
  }

  /** Over printed line figures, the summary's second rounding changes nothing. */
  lemma SummaryOfPrinted(ts: seq<LineTotals>)
    requires forall i :: 0 <= i < |ts| ==> PrintedInCents(ts[i])
    ensures SummaryOf(ts).grandTotal == SumOf(ts, TotalCol)
    ensures SummaryOf(ts).subtotal == SumOf(ts, SubtotalCol)
    ensures SummaryOf(ts).totalGST == SumOf(ts, GstCol)
    ensures SummaryOf(ts).totalSGST == SummaryOf(ts).totalCGST
  {
    ColumnSumExact(ts, TotalCol);
    ColumnSumExact(ts, SubtotalCol);
    ColumnSumExact(ts, GstCol);
    SumOfEqual(ts, SgstCol, CgstCol);
  }

  /**
   * The second rounding changes nothing: the grand total is exactly the sum of
   * the printed line totals, likewise subtotal and GST, and the SGST and CGST totals agree.
   */
  lemma SummaryIsExactSum(lines: seq<FormLine>, catalog: seq<CatalogItem>)
    requires AllLineTotals(lines, catalog).Some?
    ensures var ts := AllLineTotals(lines, catalog).value;
      SummaryOf(ts).grandTotal == SumOf(ts, TotalCol)
      && SummaryOf(ts).subtotal == SumOf(ts, SubtotalCol)
      && SummaryOf(ts).totalGST == SumOf(ts, GstCol)
      && SummaryOf(ts).totalSGST == SummaryOf(ts).totalCGST
  {
    var ts := AllLineTotals(lines, catalog).value;
    forall i | 0 <= i < |ts|
      ensures PrintedInCents(ts[i])
    {
      LineTotalsInCents(lines[i], catalog, ts[i]);
    }
    SummaryOfPrinted(ts);
  }

  // ---------------------------------------------------------------- search

  predicate MatchesTerm(it: CatalogItem, term: string) {
    Contains(Lower(it.name), Lower(term)) || Contains(Lower(it.hsnCode), Lower(term))
  }

  /** `filteredItems`: everything for an empty term, else the items whose name or HSN code contains it, ignoring case, in order. */
  function FilteredItems(items: seq<CatalogItem>, term: string): (r: seq<CatalogItem>)
    ensures term == "" ==> r == items
    ensures term != "" ==> forall x :: x in r <==> x in items && (Occurs(Lower(x.name), Lower(term)) || Occurs(Lower(x.hsnCode), Lower(term)))
    ensures term != "" ==> forall x :: multiset(r)[x] == if MatchesTerm(x, term) then multiset(items)[x] else 0
    ensures IsSubsequence(r, items)
  {
    if term == "" then
      SubsequenceOfSelf(items);
      items
    else Filter(items, (it: CatalogItem) => MatchesTerm(it, term))
  }

  /** `isItemInDatabase`: some catalogue name equals the given name, ignoring case. */
  function IsItemInDatabase(items: seq<CatalogItem>, name: string): (r: bool)
    ensures r <==> exists i :: 0 <= i < |items| && Lower(items[i].name) == Lower(name)
    decreases |items|
  {
    if items == [] then false
    else if Lower(items[0].name) == Lower(name) then true
    else
      var r := IsItemInDatabase(items[1..], name);
      assert forall i :: 1 <= i < |items| ==> items[i] == items[1..][i - 1];
      r
  }

  // ---------------------------------------------------------------- the editor

  /** The editor's state slots, updated by its handlers. */
  class QuotationFormState {
    var lineItems: seq<FormLine>
    var searchTerm: string
    var showSuggestions: bool
    var selectedItemIndex: Option<nat>
    var notification: Option<Notice>

    /** The editor always shows at least one line. */
    ghost predicate Valid()
      reads this
    {
      |lineItems| >= 1
    }

    /** A new quotation starts with one blank line. */
    constructor ()
      ensures lineItems == [BlankLine] && searchTerm == "" && !showSuggestions
      ensures selectedItemIndex == None && notification == None
      ensures Valid()
    {
      lineItems := [BlankLine];
      searchTerm := "";
      showSuggestions := false;
      selectedItemIndex := None;
      notification := None;
    }

    /** Typing a name: the line becomes a custom entry (no id, no image) but keeps its rate and HSN code; the suggestions open for it. */
    method HandleItemSearch(index: nat, value: string)
      requires index < |lineItems|
      modifies this
      ensures lineItems == old(lineItems)[index := old(lineItems)[index].(itemName := value, itemId := "", itemImage := "", itemImageFile := None)]
      ensures lineItems[index].rate == old(lineItems)[index].rate && lineItems[index].hsnCode == old(lineItems)[index].hsnCode
      ensures searchTerm == value && selectedItemIndex == Some(index) && showSuggestions
      ensures notification == old(notification)
      ensures old(Valid()) ==> Valid()
    {
      var line := lineItems[index];
      lineItems := lineItems[index := line.(itemName := value, itemId := "", itemImage := "", itemImageFile := None)];
      searchTerm := value;
      selectedItemIndex := Some(index);
      showSuggestions := true;
    }

    /** Picking a suggestion fills id, name, HSN code, rate and image from the catalogue and keeps quantity, discount, tax flag and GST rate. */
    method SelectItem(index: nat, item: CatalogItem)
      requires index < |lineItems|
      modifies this
      ensures lineItems == old(lineItems)[index := old(lineItems)[index].(
        itemId := item.id, itemName := item.name, hsnCode := item.hsnCode,
        rate := item.price, itemImage := item.itemImage, itemImageFile := None)]
      ensures var l, o := lineItems[index], old(lineItems)[index];
        l.quantity == o.quantity && l.discount == o.discount && l.withTax == o.withTax && l.taxGST == o.taxGST
      ensures searchTerm == "" && !showSuggestions && selectedItemIndex == None
      ensures notification == old(notification)
      ensures old(Valid()) ==> Valid()
    {
      var line := lineItems[index];
      lineItems := lineItems[index := line.(itemId := item.id, itemName := item.name, hsnCode := item.hsnCode,
                                            rate := item.price, itemImage := item.itemImage, itemImageFile := None)];
      searchTerm := "";
      showSuggestions := false;
      selectedItemIndex := None;
    }

    /** `handleLineItemChange`: quantity and GST rate are parsed (`|| 0`), rate, discount and tax flag stored as given, a name goes to the search. */
    method HandleLineItemChange(index: nat, field: string, value: Json)
      requires index < |lineItems|
      modifies this
      ensures field == "quantity" ==> lineItems == old(lineItems)[index := old(lineItems)[index].(quantity := JNum(NumberOr(Some(value), 0.0)))]
      ensures field == "taxGST" ==> lineItems == old(lineItems)[index := old(lineItems)[index].(taxGST := JNum(NumberOr(Some(value), 0.0)))]
      ensures field == "rate" ==> lineItems == old(lineItems)[index := old(lineItems)[index].(rate := value)]
      ensures field == "discount" ==> lineItems == old(lineItems)[index := old(lineItems)[index].(discount := value)]
      ensures field == "withTax" ==> lineItems == old(lineItems)[index := old(lineItems)[index].(withTax := value)]
      ensures field == "itemName" && value.JStr? ==>
        (lineItems == old(lineItems)[index := old(lineItems)[index].(itemName := value.s, itemId := "", itemImage := "", itemImageFile := None)]
         && searchTerm == value.s && selectedItemIndex == Some(index) && showSuggestions)
      ensures field !in {"quantity", "taxGST", "rate", "discount", "withTax", "itemName"} ==> lineItems == old(lineItems)
      ensures field != "itemName" ==> searchTerm == old(searchTerm) && selectedItemIndex == old(selectedItemIndex) && showSuggestions == old(showSuggestions)
      ensures |lineItems| == |old(lineItems)|
      ensures old(Valid()) ==> Valid()
    {
      var line := lineItems[index];
      if field == "quantity" {
        lineItems := lineItems[index := line.(quantity := JNum(NumberOr(Some(value), 0.0)))];
      } else if field == "taxGST" {
        lineItems := lineItems[index := line.(taxGST := JNum(NumberOr(Some(value), 0.0)))];
      } else if field == "rate" {
        lineItems := lineItems[index := line.(rate := value)];
      } else if field == "discount" {
        lineItems := lineItems[index := line.(discount := value)];
      } else if field == "withTax" {
        lineItems := lineItems[index := line.(withTax := value)];
      } else if field == "itemName" {
        HandleItemSearch(index, if value.JStr? then value.s else "");
      }
    }

    /** `addLineItem`: one blank row appended, the others unchanged. */
    method AddLineItem()
      modifies this
      ensures lineItems == old(lineItems) + [BlankLine]
      ensures searchTerm == old(searchTerm) && showSuggestions == old(showSuggestions)
      ensures selectedItemIndex == old(selectedItemIndex) && notification == old(notification)
      ensures Valid()
    {
      lineItems := lineItems + [BlankLine];
    }

    /** `removeLineItem`: the row goes only when another remains; otherwise the list stays and an error shows. */
    method RemoveLineItem(index: int)
      modifies this
      ensures |old(lineItems)| > 1 ==> lineItems == RemoveIndex(old(lineItems), index) && notification == old(notification)
      ensures |old(lineItems)| <= 1 ==> lineItems == old(lineItems) && notification == Some(Notice(Error, AtLeastOneLineMessage))
      ensures searchTerm == old(searchTerm) && showSuggestions == old(showSuggestions) && selectedItemIndex == old(selectedItemIndex)
      ensures old(Valid()) ==> Valid()
    {
      if |lineItems| > 1 {
        lineItems := RemoveIndex(lineItems, index);
      } else {
        notification := Some(Notice(Error, AtLeastOneLineMessage));
      }
    }

    /** `handleImageUpload`: a rejected file only raises the error; an accepted one becomes the line's pending image. */
    method HandleImageUpload(index: nat, file: ImageFile)
      requires index < |lineItems|
      modifies this
      ensures CheckImage(file) == Accepted ==>
        lineItems == old(lineItems)[index := old(lineItems)[index].(itemImageFile := Some(file))] && notification == old(notification)
      ensures CheckImage(file) != Accepted ==>
        lineItems == old(lineItems) && notification == Some(Notice(Error, VerdictMessage(CheckImage(file))))
      ensures searchTerm == old(searchTerm) && showSuggestions == old(showSuggestions) && selectedItemIndex == old(selectedItemIndex)
      ensures old(Valid()) ==> Valid()
    {
      var verdict := CheckImage(file);
      if verdict != Accepted {
        notification := Some(Notice(Error, VerdictMessage(verdict)));
        return;
      }
      var line := lineItems[index];
      lineItems := lineItems[index := line.(itemImageFile := Some(file))];
    }

    /** `removeImage`: the line's pending file is dropped. */
    method RemoveImage(index: nat)
      requires index < |lineItems|
      modifies this
      ensures lineItems == old(lineItems)[index := old(lineItems)[index].(itemImageFile := None)]
      ensures searchTerm == old(searchTerm) && showSuggestions == old(showSuggestions)
      ensures selectedItemIndex == old(selectedItemIndex) && notification == old(notification)
      ensures old(Valid()) ==> Valid()
    {
      var line := lineItems[index];
      lineItems := lineItems[index := line.(itemImageFile := None)];
    }
  }

  // ---------------------------------------------------------------- submit

  /** One line of the saved quotation. */
  datatype PayloadItem = PayloadItem(
    itemId: Option<string>, itemName: string, quantity: Json, rate: Json, withTax: Json,
    subTotal: string, discount: Json, taxGST: Json, hsnCode: string,
    sgst: string, cgst: string, itemImage: Option<string>)

  /** The saved quotation; `id` is present only when an existing quotation is edited. */
  datatype QuotationPayload = QuotationPayload(
    customerName: string, date: string, totalAmount: string, items: seq<PayloadItem>, id: Option<Json>)

  datatype SubmitOutcome = Rejected(message: string) | Save(payload: QuotationPayload)

  function PayloadLine(line: FormLine, t: LineTotals): PayloadItem {
    PayloadItem(
      if line.itemId != "" then Some(line.itemId) else None, line.itemName,
      line.quantity, line.rate, line.withTax, Fixed2(t.totalAmount), line.discount, line.taxGST,
      line.hsnCode, Fixed2(t.sgst), Fixed2(t.cgst),
      if line.itemImage != "" then Some(line.itemImage) else None)
  }

  /** `quoteToEdit?._id || quoteToEdit?.id`, when that is truthy. */
  function EditId(quoteToEdit: Option<Json>): Option<Json> {
    var a, b := Prop(quoteToEdit, "_id"), Prop(quoteToEdit, "id");
    if Truthy(a) || Truthy(b) then Some(OrElse(a, OrElse(b, JNull))) else None
  }

  /**
   * `handleSubmit` up to the save call. `date` is the already formatted date;
   * a line that divides by zero leaves no figures, and the model then does not save.
   */
  function Submit(customerName: string, date: string, lines: seq<FormLine>, catalog: seq<CatalogItem>,
                  quoteToEdit: Option<Json>): (o: SubmitOutcome)
    ensures customerName == "" || |lines| == 0 ==> o == Rejected(SubmitGuardMessage)
    ensures o.Save? ==> customerName != "" && |lines| > 0
    ensures o.Save? ==> (AllLineTotals(lines, catalog).Some?
      && o.payload.totalAmount == Fixed2(SummaryOf(AllLineTotals(lines, catalog).value).grandTotal))
    ensures o.Save? ==> o.payload.customerName == customerName && |o.payload.items| == |lines|
    ensures o.Save? ==> (o.payload.id.Some? <==> Truthy(Prop(quoteToEdit, "_id")) || Truthy(Prop(quoteToEdit, "id")))
    ensures customerName != "" && |lines| > 0 && AllLineTotals(lines, catalog).Some? ==> o.Save?
  {
    if customerName == "" || |lines| == 0 then Rejected(SubmitGuardMessage)
    else
      var all := AllLineTotals(lines, catalog);
      if all.None? then Rejected("Failed to save quotation. Please try again.")
      else
        var ts := all.value;
        var items := seq(|lines|, i requires 0 <= i < |lines| => PayloadLine(lines[i], ts[i]));
        Save(QuotationPayload(customerName, date, Fixed2(SummaryOf(ts).grandTotal), items, EditId(quoteToEdit)))
  }
}
