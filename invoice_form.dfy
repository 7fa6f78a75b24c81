/**
 * The invoice editor: its item rows (edited in place, filled from the
 * catalogue, added and removed with at least one row kept), its totals with
 * either CGST plus SGST or IGST and flat discount and advance, the catalogue
 * search and the numbering of a new invoice.
 */
module InvoiceForm {
  import opened Common
  import opened Text
  import opened JsValues
  import opened Seqs

  // ---------------------------------------------------------------- rows

  /** One item row; quantity and rate arrive as numbers, parsed by the inputs. */
  datatype InvoiceItem = InvoiceItem(
    itemId: string, itemName: string, description: string, hsnCode: string,
    quantity: real, unit: string, rate: real, total: real)

  /** The row a new invoice starts with and `addEmptyItem` appends. */
  const BlankItem := InvoiceItem("", "", "", "", 1.0, "nos", 0.0, 0.0)

  /** One field edit, as `handleItemChange(index, field, value)` receives it. */
  datatype ItemEdit =
    | SetItemName(name: string)
    | SetDescription(description: string)
    | SetHsnCode(hsnCode: string)
    | SetQuantity(quantity: real)
    | SetUnit(unit: string)
    | SetRate(rate: real)

  /** The row after one edit: the field is set, and a quantity or rate edit recomputes the total. */
  function ApplyEdit(it: InvoiceItem, e: ItemEdit): (r: InvoiceItem)
    ensures e.SetQuantity? || e.SetRate? ==> r.total == r.quantity * r.rate
    ensures !(e.SetQuantity? || e.SetRate?) ==> r.total == it.total && r.quantity == it.quantity && r.rate == it.rate
    ensures r.itemId == it.itemId
  {
    match e
    case SetItemName(s) => it.(itemName := s)
    case SetDescription(s) => it.(description := s)
    case SetHsnCode(s) => it.(hsnCode := s)
    case SetUnit(s) => it.(unit := s)
    case SetQuantity(q) => var u := it.(quantity := q); u.(total := u.quantity * u.rate)
    case SetRate(x) => var u := it.(rate := x); u.(total := u.quantity * u.rate)
  }

  /** A catalogue entry; the text fields may be missing. */
  datatype CatalogEntry = CatalogEntry(
    id: string, itemName: Option<string>, description: Option<string>, hsn: Option<string>,
    itemUnit: string, rate: Json)

  /** The row `addItemFromCatalog` builds: quantity 1, the parsed rate as both rate and total. */
  function RowFromCatalog(entry: CatalogEntry): (r: InvoiceItem)
    ensures r.quantity == 1.0 && r.total == r.rate && r.total == r.quantity * r.rate
    ensures r.rate == NumberOr(Some(entry.rate), 0.0)
    ensures r.unit == if entry.itemUnit == "" then "nos" else entry.itemUnit
  {
    var rate := NumberOr(Some(entry.rate), 0.0);
    InvoiceItem(entry.id, entry.itemName.GetOr(""), entry.description.GetOr(""), entry.hsn.GetOr(""),
                1.0, if entry.itemUnit == "" then "nos" else entry.itemUnit, rate, rate)
  }

  /** A row with neither a name nor a description, which a catalogue pick fills. */
  predicate IsEmptyRow(it: InvoiceItem) {
    it.itemName == "" && it.description == ""
  }

  // ---------------------------------------------------------------- totals

  /** The document-level settings the totals read. */
  datatype TaxSettings = TaxSettings(
    gstType: string, cgstRate: real, sgstRate: real, igstRate: real, discount: real, advance: real)

  const DefaultSettings := TaxSettings("cgst_sgst", 9.0, 9.0, 18.0, 0.0, 0.0)

  datatype Totals = Totals(subtotal: real, taxableAmount: real, cgst: real, sgst: real, igst: real, totalAmount: real)

  /** `items.reduce((sum, item) => sum + (item.total || 0), 0)`. */
  function SumTotals(items: seq<InvoiceItem>): (r: real)
    ensures (forall i :: 0 <= i < |items| ==> items[i].total >= 0.0) ==> r >= 0.0
    ensures |items| == 1 ==> r == items[0].total
    decreases |items|
  {
    if items == [] then 0.0 else SumTotals(items[..|items| - 1]) + items[|items| - 1].total
  }

  /** Changing one row's total moves the subtotal by exactly the difference. */
  lemma {:induction false} SumTotalsUpdate(items: seq<InvoiceItem>, i: nat, it: InvoiceItem)
    requires i < |items|
    ensures SumTotals(items[i := it]) == SumTotals(items) - items[i].total + it.total
    decreases |items|
  {
    var n := |items| - 1;
    if i < n {
      assert items[i := it][..n] == items[..n][i := it];
      SumTotalsUpdate(items[..n], i, it);
    } else {
      assert items[i := it][..n] == items[..n];
    }
  }

  /** Appending a row adds its total to the subtotal. */
  lemma SumTotalsAppend(items: seq<InvoiceItem>, it: InvoiceItem)
    ensures SumTotals(items + [it]) == SumTotals(items) + it.total
  {
    assert (items + [it])[..|items|] == items;
  }

  /** The taxes for a taxable amount: CGST and SGST for `cgst_sgst`, IGST for any other type. */
  function Taxes(taxable: real, gstType: string, cgstRate: real, sgstRate: real, igstRate: real): (t: (real, real, real))
    ensures gstType == "cgst_sgst" ==> t.2 == 0.0
    ensures gstType != "cgst_sgst" ==> t.0 == 0.0 && t.1 == 0.0
  {
    if gstType == "cgst_sgst" then (taxable * (cgstRate / 100.0), taxable * (sgstRate / 100.0), 0.0)
    else (0.0, 0.0, taxable * (igstRate / 100.0))
  }

  /** The rate a document charges in total: CGST plus SGST, or IGST. */
  function EffectiveRate(gstType: string, cgstRate: real, sgstRate: real, igstRate: real): real {
    if gstType == "cgst_sgst" then cgstRate + sgstRate else igstRate
  }

  /** `calculateTotals()`. */
  function CalculateTotals(items: seq<InvoiceItem>, s: TaxSettings): (t: Totals)
    ensures t.subtotal == SumTotals(items) && t.taxableAmount == t.subtotal - s.discount
    ensures s.gstType == "cgst_sgst" ==> t.igst == 0.0
    ensures s.gstType != "cgst_sgst" ==> t.cgst == 0.0 && t.sgst == 0.0
  {
    var subtotal := SumTotals(items);
    var taxable := subtotal - s.discount;
    var tx := Taxes(taxable, s.gstType, s.cgstRate, s.sgstRate, s.igstRate);
    Totals(subtotal, taxable, tx.0, tx.1, tx.2, taxable + tx.0 + tx.1 + tx.2 - s.advance)
  }

  /** The total is the taxable amount grown by the one tax regime's rate, less the advance. */
  lemma TotalInOneRegime(items: seq<InvoiceItem>, s: TaxSettings)
    ensures var t := CalculateTotals(items, s);
      t.totalAmount == t.taxableAmount * (1.0 + EffectiveRate(s.gstType, s.cgstRate, s.sgstRate, s.igstRate) / 100.0) - s.advance
  {
    var t := CalculateTotals(items, s);
    var x := t.taxableAmount;
    assert x * (s.cgstRate / 100.0) + x * (s.sgstRate / 100.0) == x * ((s.cgstRate + s.sgstRate) / 100.0);
  }

  // ---------------------------------------------------------------- search

  /** `filteredItems`: name or description containing the term ignoring case, or an HSN code containing it exactly. */
  predicate MatchesSearch(entry: CatalogEntry, term: string)
    ensures term == "" ==> (MatchesSearch(entry, term) <==> entry.itemName.Some? || entry.description.Some? || entry.hsn.Some?)
  {
    OccursEmpty(Lower(if entry.itemName.Some? then entry.itemName.value else ""));
    OccursEmpty(Lower(if entry.description.Some? then entry.description.value else ""));
    OccursEmpty(if entry.hsn.Some? then entry.hsn.value else "");
    (entry.itemName.Some? && Contains(Lower(entry.itemName.value), Lower(term)))
    || (entry.description.Some? && Contains(Lower(entry.description.value), Lower(term)))
    || (entry.hsn.Some? && Contains(entry.hsn.value, term))
  }

  function FilteredItems(entries: seq<CatalogEntry>, term: string): (r: seq<CatalogEntry>)
    ensures forall e :: e in r <==> e in entries && MatchesSearch(e, term)
    ensures forall e :: multiset(r)[e] == if MatchesSearch(e, term) then multiset(entries)[e] else 0
    ensures IsSubsequence(r, entries)
  {
    Filter(entries, (e: CatalogEntry) => MatchesSearch(e, term))
  }

  /** The HSN code is matched case-sensitively: "ab" does not find the code "AB12" unless the name or description holds it. */
  lemma HsnCaseSensitive()
    ensures !MatchesSearch(CatalogEntry("1", None, None, Some("AB12"), "", JNum(1.0)), "ab")
  {
    var code := "AB12";
    forall k | 0 <= k && k + 2 <= |code|
      ensures !OccursAt(code, "ab", k)
    {
      assert code[k..k + 2][0] == code[k];
      assert k == 0 || k == 1 || k == 2;
      assert code[k] != 'a';
    }
  }

  // ---------------------------------------------------------------- numbering

  /** `s.slice(-k)`: the last `k` characters, or all of a shorter string. */
  function TakeLast(s: string, k: nat): (r: string)
    ensures |r| == if |s| <= k then |s| else k
    ensures r == s[|s| - |r|..]
  {
    if |s| <= k then s else s[|s| - k..]
  }

  /** The three digits of `m < 1000`, with leading zeros. */
  function ThreeDigits(m: nat): string
    requires m < 1000
  {
    [DigitChar(m / 100), DigitChar(m / 10 % 10), DigitChar(m % 10)]
  }

  /**
   * `timestamp.toString().slice(-3)`, the reference number of a new invoice:
   * the timestamp's last three digits, zeros kept, or all of a shorter numeral.
   */
  function ReferenceNumber(timestamp: nat): (r: string)
    ensures timestamp >= 100 ==> r == ThreeDigits(timestamp % 1000)
    ensures timestamp < 100 ==> r == NatToString(timestamp)
  {
    if timestamp >= 100 then
      NumeralEndsInThreeDigits(timestamp);
      TakeLast(NatToString(timestamp), 3)
    else
      ShortNumeral(timestamp);
      TakeLast(NatToString(timestamp), 3)
  }

  /** `CHROMA/<reference number>/FY2526`: 17 characters for any timestamp from 100 on. */
  function InvoiceNumber(timestamp: nat): (s: string)
    ensures timestamp >= 100 ==> s == "CHROMA/" + ThreeDigits(timestamp % 1000) + "/FY2526" && |s| == 17
    ensures timestamp < 100 ==> s == "CHROMA/" + NatToString(timestamp) + "/FY2526"
  {
    "CHROMA/" + ReferenceNumber(timestamp) + "/FY2526"
  }

  /** A timestamp below 100 has at most two digits. */
  lemma ShortNumeral(n: nat)
    requires n < 100
    ensures |NatToString(n)| <= 2
  {
    if n >= 10 {
      NumeralStep(n, n / 10, n % 10);
    }
  }

  lemma HundredsDigit(n: nat)
    ensures n % 1000 / 100 == n / 100 % 10
  {
    var q, m := n / 1000, n % 1000;
    assert n / 100 == 10 * q + m / 100;
  }

  lemma TensDigit(n: nat)
    ensures n % 1000 / 10 % 10 == n / 10 % 10
  {
    var q, m := n / 1000, n % 1000;
    assert n / 10 == 100 * q + m / 10;
  }

  lemma UnitsDigit(n: nat)
    ensures n % 1000 % 10 == n % 10
  {
    var q, m := n / 1000, n % 1000;
    assert n == 10 * (100 * q) + m;
  }

  /** The last three decimal digits of `n`, read off one at a time, are those of `n % 1000`. */
  lemma LastDigits(n: nat)
    ensures n % 1000 / 100 == n / 100 % 10 && n % 1000 / 10 % 10 == n / 10 % 10 && n % 1000 % 10 == n % 10
  {
    HundredsDigit(n);
    TensDigit(n);
    UnitsDigit(n);
  }

  lemma NumeralStep(n: nat, q: nat, d: nat)
    requires n >= 10 && q == n / 10 && d == n % 10
    ensures NatToString(n) == NatToString(q) + [DigitChar(d)]
  {
  }

  lemma LastDigitChar(n: nat)
    ensures var s := NatToString(n); s[|s| - 1] == DigitChar(n % 10)
  {
    if n >= 10 {
      NumeralStep(n, n / 10, n % 10);
    }
  }

  lemma LastThree(s2: string, c1: char, c0: char)
    requires |s2| >= 1
    ensures var s := s2 + [c1] + [c0]; s[|s| - 3..] == [s2[|s2| - 1], c1, c0]
  {
  }

  lemma ThreeDigitsOf(m: nat, h: nat, t: nat, u: nat)
    requires m < 1000 && m / 100 == h && m / 10 % 10 == t && m % 10 == u
    ensures ThreeDigits(m) == [DigitChar(h), DigitChar(t), DigitChar(u)]
  {
  }

  /** The numeral of `n >= 100` ends in the three digits of `n % 1000`. */
  lemma {:induction false} NumeralEndsInThreeDigits(n: nat)
    requires n >= 100
    ensures var s := NatToString(n); |s| >= 3 && s[|s| - 3..] == ThreeDigits(n % 1000)
  {
    var s1, s2 := NatToString(n / 10), NatToString(n / 100);
    var c1, c0 := DigitChar(n / 10 % 10), DigitChar(n % 10);
    NumeralStep(n, n / 10, n % 10);
    NumeralStep(n / 10, n / 100, n / 10 % 10);
    LastDigitChar(n / 100);
    LastThree(s2, c1, c0);
    LastDigits(n);
    ThreeDigitsOf(n % 1000, n / 100 % 10, n / 10 % 10, n % 10);
  }

  // ---------------------------------------------------------------- the editor

  /** The editor's state: the rows, the settings, the numbers and the catalogue search slots. */
  class InvoiceFormState {
    var items: seq<InvoiceItem>
    var settings: TaxSettings
    var invoiceNo: string
    var referenceNo: string
    var showItemSearch: bool
    var searchTerm: string

    /** There is always at least one row. */
    ghost predicate Valid()
      reads this
    {
      |items| >= 1
    }

    /** A new invoice: one blank row, CGST plus SGST at 9 and 9 (IGST 18), numbered from the clock. */
    constructor New(timestamp: nat)
      ensures items == [BlankItem] && settings == DefaultSettings
      ensures invoiceNo == InvoiceNumber(timestamp) && referenceNo == ReferenceNumber(timestamp)
      ensures !showItemSearch && searchTerm == ""
      ensures Valid()
    {
      items := [BlankItem];
      settings := DefaultSettings;
      invoiceNo := InvoiceNumber(timestamp);
      referenceNo := ReferenceNumber(timestamp);
      showItemSearch := false;
      searchTerm := "";
    }

    /** Editing an existing invoice: its rows, settings and numbers as stored. */
    constructor Edit(rows: seq<InvoiceItem>, stored: TaxSettings, number: string, reference: string)
      ensures items == rows && settings == stored && invoiceNo == number && referenceNo == reference
      ensures !showItemSearch && searchTerm == ""
    {
      items := rows;
      settings := stored;
      invoiceNo := number;
      referenceNo := reference;
      showItemSearch := false;
      searchTerm := "";
    }

    /** `handleItemChange`: only row `index` changes, and only by the edit. */
    method HandleItemChange(index: nat, e: ItemEdit)
      requires index < |items|
      modifies this
      ensures items == old(items)[index := ApplyEdit(old(items)[index], e)]
      ensures settings == old(settings) && invoiceNo == old(invoiceNo) && referenceNo == old(referenceNo)
      ensures showItemSearch == old(showItemSearch) && searchTerm == old(searchTerm)
      ensures SumTotals(items) == SumTotals(old(items)) - old(items)[index].total + items[index].total
      ensures old(Valid()) ==> Valid()
    {
      var row := ApplyEdit(items[index], e);
      SumTotalsUpdate(items, index, row);
      items := items[index := row];
    }

    /** `addItemFromCatalog`: the first empty row takes the pick, else it is appended; the search closes. */
    method AddItemFromCatalog(entry: CatalogEntry)
      modifies this
      ensures var k := FindIndex(old(items), IsEmptyRow);
        items == if k >= 0 then old(items)[k := RowFromCatalog(entry)] else old(items) + [RowFromCatalog(entry)]
      ensures settings == old(settings) && invoiceNo == old(invoiceNo) && referenceNo == old(referenceNo)
      ensures !showItemSearch && searchTerm == ""
      ensures old(Valid()) ==> Valid()
    {
      var row := RowFromCatalog(entry);
      var k := FindIndex(items, IsEmptyRow);
      if k != -1 && items[k].itemName == "" {
        items := items[k := row];
      } else {
        items := items + [row];
      }
      showItemSearch := false;
      searchTerm := "";
    }

    /** `addEmptyItem`: one blank row appended. */
    method AddEmptyItem()
      modifies this
      ensures items == old(items) + [BlankItem]
      ensures settings == old(settings) && invoiceNo == old(invoiceNo) && referenceNo == old(referenceNo)
      ensures showItemSearch == old(showItemSearch) && searchTerm == old(searchTerm)
      ensures Valid()
    {
      items := items + [BlankItem];
    }

    /** `removeItem`: the row goes only when another remains. */
    method RemoveItem(index: int)
      modifies this
      ensures |old(items)| > 1 ==> items == RemoveIndex(old(items), index)
      ensures |old(items)| <= 1 ==> items == old(items)
      ensures settings == old(settings) && invoiceNo == old(invoiceNo) && referenceNo == old(referenceNo)
      ensures showItemSearch == old(showItemSearch) && searchTerm == old(searchTerm)
      ensures old(Valid()) ==> Valid()
    {
      if |items| > 1 {
        items := RemoveIndex(items, index);
      }
    }
  }
}
