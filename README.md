# Quotation and invoice console, modelled in Dafny

The system is a browser console for a small business: quotations, invoices,
products, customers and users, kept by a REST back end. This project models
the parts of it that compute something:

- the quotation pricing engine, in its three versions: the form backs GST
  out of the rate of a `withTax` line (the rate already includes it); the PDF
  download adds GST on top of the rate of a `withTax` line and groups it in
  per-rate buckets; the preview adds GST on top of the rate of every line,
  whatever its `withTax` flag;
- the quotation document codec: the downloaded file is the PDF text, a
  marker and the serialised record, and importing a file recovers the record;
- the invoice form and preview: item edits, catalogue picks, CGST/SGST or
  IGST totals, and the amount in words in the Indian numbering system
  (Thousand, Lakh, Crore), with a reader that proves the words name the number;
- the form handlers and list operations of products, customers, users and
  the sidebar: field edits, validation, filters, sorting and deletes;
- the application hook that holds the view, the item and quotation lists and
  the records being edited.

Each source file is one module. `Common`, `JsValues`, `Text`, `Seqs`, `Money`
and `Images` hold what several of them share:

- `JsValues` holds the JavaScript values they handle: truthiness, `x || d`,
  optional chaining and `parseFloat`.
- `Money` holds amounts as exact reals, with `toFixed(2)` as rounding half
  away from zero to whole paise.

Handlers that change state in place are methods of classes:

- `QuotationForm.QuotationFormState`, `InvoiceForm.InvoiceFormState` and
  `AppHandlers.AppState`. Their arrays and lists are `seq` fields that the
  methods reassign.
- The two `calculateTotals` loops are methods with `while` loops, proved
  against functions of their inputs.

`JSON.stringify` and `JSON.parse` are parameters. A lemma that needs them to
round-trip says so in its `requires`.

## Model

| member | source | states |
|---|---|---|
| PdfUtils.ReadLine | src/utils/pdfutils.js:363-366 | for an item that is not `null`, each of quantity, rate, discount and GST is `parseFloat(x) \|\| d`: a missing quantity reads as 1 and a missing rate, discount or GST as 0, and the quantity is never 0; `withTax` follows the item's truthiness |
| PdfUtils.ReadLines | src/utils/pdfutils.js:362-366 | none exactly when some item is `null`, whose `item.quantity` throws; otherwise one line read per item, in the items' order |
| PdfUtils.LineFigures | src/utils/pdfutils.js:367-372 | a line's taxable amount is its subtotal less its discount and its total is taxable plus GST; a line without `withTax` carries no GST, so its total is its taxable amount (the figures themselves: PdfUtils.LineTotal) |
| PdfUtils.LineTotal | src/utils/pdfutils.js:368-372 | the taxable amount is q·r·(1 − d/100); a line's total is the taxable amount grown by g/100 when it carries tax, and the taxable amount otherwise |
| PdfUtils.TaxableBounds | src/utils/pdfutils.js:368-370 | with 0 ≤ d ≤ 100 and non-negative quantity and rate, the taxable amount lies between 0 and the line's subtotal |
| PdfUtils.GrandTotalIdentity | src/utils/pdfutils.js:374-377 | the unrounded grand total is the subtotal less the discount plus the GST |
| PdfUtils.NoTaxNoGst | src/utils/pdfutils.js:371-377 | with no `withTax` line, no GST is charged and the grand total is the subtotal less the discount |
| PdfUtils.BreakdownKeys | src/utils/pdfutils.js:380-388 | a rate has a bucket exactly when some line carries tax at that rate and the rate is positive |
| PdfUtils.BucketShape | src/utils/pdfutils.js:389-392 | in every bucket SGST equals CGST and both are half the bucket's GST, which is the rate applied to the bucket's taxable amount |
| PdfUtils.KeysInOrder | src/utils/pdfutils.js:380-388 | the breakdown's rates, each once, and only those |
| PdfUtils.BucketGstSumStep | src/utils/pdfutils.js:376-392 | one more line at a non-negative rate adds its GST both to the total GST and to the buckets' sum |
| PdfUtils.BreakdownSumsToGst | src/utils/pdfutils.js:376-392 | with no negative rate, the buckets' GST adds up to the total GST |
| PdfUtils.StepLine | src/utils/pdfutils.js:374-393 | one more line moves the four sums on by that line's figures and enters it in its rate's bucket only when it carries tax at a positive rate |
| PdfUtils.StepTotals | src/utils/pdfutils.js:374-393 | the loop body applied to the state for the first `i` lines gives the state for the first `i + 1` lines |
| PdfUtils.SummaryOf | src/utils/pdfutils.js:396-405 | the rounded result object built from the loop's final state is the summary of all lines, and its grand total is subtotal − discount + GST |
| PdfUtils.TotalsOf | src/utils/pdfutils.js:352-405 | `{}` exactly when `items` is not an array; a throw exactly for an array holding `null`; otherwise SGST equals CGST and `youSaved` equals the discount (the sums: PdfUtils.SumLines, GrandTotalIdentity) |
| PdfUtils.SumLines | src/utils/pdfutils.js:355-405 | the `forEach` loop over the lines yields the summary of the lines; SGST equals CGST, `youSaved` equals the discount, and the grand total is the rounded subtotal − discount + GST |
| PdfUtils.CalculateTotals | src/utils/pdfutils.js:352-405 | `{}` exactly when `items` is null or not an array; a throw exactly when it is an array holding a `null` item; otherwise the loop's summary of the items read line by line |
| PdfUtils.CentsSplit | src/utils/pdfutils.js:339-340 | for an amount that is a whole number of cents, `Math.floor` gives the rupees and the rounded hundredths give the paisa |
| PdfUtils.NonZeroWords | src/utils/pdfutils.js:337-348 | a non-zero number prints "<floor> Rupees", then " and <p> Paisa" when the rounded paisa is positive, then " Only" |
| PdfUtils.ConvertToWords | src/utils/pdfutils.js:335-348 | "NaN Rupees Only" when `parseFloat` gives `NaN`, "Zero Rupees Only" for 0, and the words always end in " Only" (the other amounts: NonZeroWords, WordsOfCents, WordsOfText) |
| PdfUtils.WordsOfCents | src/utils/pdfutils.js:336-348 | 0 prints "Zero Rupees Only"; a positive whole number of cents prints its rupees and its paisa as digits |
| PdfUtils.WordsOfText | src/utils/pdfutils.js:336-348 | the same for a text that `parseFloat` reads as that amount |
| PdfUtils.WordsOfFixedAmount | src/utils/pdfutils.js:336-348 | the words printed for a `toFixed(2)` figure: "Zero Rupees Only" for zero cents, else its rupees and paisa as digits |
| PdfUtils.Artifact | src/utils/pdfutils.js:313-317 | the downloaded file is the PDF, then the separator, then the serialised record (the whole quotation, not its totals), in that order and nothing else |
| PdfUtils.Filename | src/utils/pdfutils.js:322 | a download name is `quotation-`, then the reference number or `unknown`, then `.pdf`, so 14 characters more than the reference number (21 without one) |
| PdfUtils.FilenameRoundTrip | src/utils/pdfutils.js:322 | the reference number, or `unknown`, can be read back from the download name |
| PdfUtils.FilenameInjective | src/utils/pdfutils.js:322 | two non-empty reference numbers with the same download name are equal |
| PdfUtils.UnknownCollides | src/utils/pdfutils.js:322 | a quotation without a reference number downloads under the same name as one numbered `unknown` |
| PdfUtils.ResolveItemFallbacks | src/utils/pdfutils.js:33-51 | a `null` item throws at `item.itemId` (none), and only a `null` one; for any other item, description, HSN, name, unit and quantity are never falsy; the description comes from the catalogue item, else the item, else "No description available" |
| PdfUtils.ResolveEmptyItem | src/utils/pdfutils.js:48-78 | an item with none of the fields gets every default: 'No description available', 'N/A', 'N/A', 'Nos', quantity 1, rate/discount/GST 0, `withTax` false |
| Money.Cents | src/utils/pdfutils.js:397-403 | the whole number of cents `toFixed(2)` rounds to, never negative for a non-negative amount |
| Money.CentsText | src/utils/pdfutils.js:397-403 | the digits `toFixed(2)` prints for a whole number of cents: at least "0.00" long, starting with a digit |
| Money.CentsNearest | src/utils/pdfutils.js:397-403 | `toFixed(2)` rounds a non-negative amount to the nearest cent, halves up |
| Money.RoundCentsError | src/utils/pdfutils.js:397-403 | rounding to cents moves an amount by at most half a cent |
| Money.RoundCentsIsCents | src/utils/pdfutils.js:397-403 | a rounded amount is a whole number of cents |
| Money.RoundCentsOfCents | src/utils/pdfutils.js:397-403 | an amount that already is a whole number of cents does not move |
| Money.RoundCentsIdempotent | src/utils/pdfutils.js:397-403 | rounding twice is rounding once |
| Money.ParseCentsText | src/utils/pdfutils.js:336 | `parseFloat` reads the digits of a whole number of cents back as that amount |
| Money.ParseSignedCents | src/utils/pdfutils.js:336 | the same with or without a leading minus sign |
| Money.ParseFixed2 | src/utils/pdfutils.js:336 | `parseFloat(x.toFixed(2))` is `x` rounded to cents, for every amount: the printed totals read back exactly |
| JsValues.OrElse | src/utils/pdfutils.js:48-51 | `x \|\| d` gives one of its two operands and is truthy exactly when either is; a truthy `x` is kept as it is, otherwise the default is taken |
| JsValues.NumberOr | src/utils/pdfutils.js:363-366 | `parseFloat(x) \|\| d` is either the parsed number or the default, and never 0 when the default is not 0; the parsed number is kept unless it is `NaN` or 0 |
| JsValues.ParseFloat | src/utils/pdfutils.js:363 | a number reads as itself; `undefined`, `null`, a boolean, an object, an array and the empty text read as `NaN` (numerals: JsValues.ParseNatNumeral) |
| JsValues.ParseNatNumeral | src/utils/pdfutils.js:363 | `parseFloat` reads a decimal numeral as its value |
| QuotationForm.ReadFormLine | src/components/Forms/QuotationForm.jsx:116-119 | `parseFloat(x) \|\| d` per field: a missing or zero quantity reads as 1, a missing rate, discount or GST as 0, and `withTax` follows the line's truthiness |
| QuotationForm.ReverseMode | src/components/Forms/QuotationForm.jsx:121-129 | for a `withTax` line the subtotal grossed back up by `1 + g/100` is q·r, the discount is d% of the subtotal, GST is g% of the taxable amount, and the total is the taxable amount grown by g/100 |
| QuotationForm.ReverseRoundTrip | src/components/Forms/QuotationForm.jsx:122-129 | with no discount, backing the tax out and adding it again gives exactly q·r |
| QuotationForm.ForwardMode | src/components/Forms/QuotationForm.jsx:142-155 | without `withTax` no GST is charged and the total is the taxable amount q·r·(1 − d/100) |
| QuotationForm.ExactFigures | src/components/Forms/QuotationForm.jsx:115-158 | a line divides by zero exactly when it is `withTax` with a GST rate of −100; its taxable amount is subtotal − discount, its total taxable + GST and its original total q·r; a line without `withTax` carries no GST (the figures: ReverseMode, ForwardMode) |
| QuotationForm.LineItemTotals | src/components/Forms/QuotationForm.jsx:114-158 | a printed row is missing exactly when the line's exact figures are, that is for a `withTax` line with a GST rate of −100 (whole cents and equal SGST and CGST: LineTotalsInCents) |
| QuotationForm.LineTotalsInCents | src/components/Forms/QuotationForm.jsx:131-158 | every printed figure of a line is a whole number of cents, and its SGST equals its CGST |
| QuotationForm.AllLineTotals | src/components/Forms/QuotationForm.jsx:115-160 | one printed row per line, each that line's own figures; no rows only when some line divides by zero |
| QuotationForm.ColumnSumExact | src/components/Forms/QuotationForm.jsx:162-177 | a column of whole-cent figures sums to a whole number of cents, so the second `toFixed(2)` changes nothing |
| QuotationForm.SummaryOfPrinted | src/components/Forms/QuotationForm.jsx:162-177 | the summary's grand total, subtotal and GST are the exact sums of the rows' printed figures, and its SGST equals its CGST |
| QuotationForm.SummaryOf | src/components/Forms/QuotationForm.jsx:162-177 | every summary figure is a whole number of cents (the sums: SummaryOfPrinted) |
| QuotationForm.SummaryIsExactSum | src/components/Forms/QuotationForm.jsx:114-180 | the same for the rows the form computes from its lines |
| QuotationForm.FilteredItems | src/components/Forms/QuotationForm.jsx:105-111 | every item for an empty term; otherwise, in order, exactly the items whose lower-cased name or HSN code contains the lower-cased term, each as often as in the catalogue |
| QuotationForm.IsItemInDatabase | src/components/Forms/QuotationForm.jsx:314-318 | true exactly when some catalogue item's name equals the given name, ignoring case |
| QuotationForm.QuotationFormState.constructor | src/components/Forms/QuotationForm.jsx:29-45 | a new quotation starts with one blank line (quantity 1, GST 18, `withTax` false), no search and no notification |
| QuotationForm.QuotationFormState.HandleItemSearch | src/components/Forms/QuotationForm.jsx:200-211 | line `index` takes the typed name and loses its catalogue id and images, keeping its rate and HSN code; the search opens on that line; no other line changes |
| QuotationForm.QuotationFormState.SelectItem | src/components/Forms/QuotationForm.jsx:213-228 | line `index` takes the catalogue item's id, name, HSN code, price and image, keeping quantity, discount, `withTax` and GST; the search closes |
| QuotationForm.QuotationFormState.HandleLineItemChange | src/components/Forms/QuotationForm.jsx:230-245 | quantity and GST are stored as `parseFloat \|\| 0`, rate, discount and `withTax` as given, a name goes through the search handler, any other field changes nothing; only line `index` changes |
| QuotationForm.QuotationFormState.AddLineItem | src/components/Forms/QuotationForm.jsx:247-260 | one blank line is appended and the existing lines are unchanged; at least one line remains |
| QuotationForm.QuotationFormState.RemoveLineItem | src/components/Forms/QuotationForm.jsx:262-273 | with more than one line the line at `index` goes; otherwise the lines stay and the error "At least one line item is required." is shown; at least one line remains |
| QuotationForm.QuotationFormState.HandleImageUpload | src/components/Forms/QuotationForm.jsx:275-289 | an accepted picture is attached to line `index`; a wrong type or an oversized file leaves the lines and shows its message |
| QuotationForm.QuotationFormState.RemoveImage | src/components/Forms/QuotationForm.jsx:301-304 | only line `index` loses its picked file |
| QuotationForm.Submit | src/components/Forms/QuotationForm.jsx:320-377 | an empty customer name or no lines is rejected before any save; a saved payload carries the customer name, one item per line, `totalAmount` equal to the summary's grand total as printed, and an `id` exactly when the edited quotation has one |
| QuotationPreview.ItemAmounts | src/components/Lists/QuotationPreview.jsx:74-96 | the printed amounts of an item that is not `null`; its SGST and CGST cells are equal |
| QuotationPreview.ItemAmountsAlwaysTaxed | src/components/Lists/QuotationPreview.jsx:81-85 | GST is g% of the taxable amount on every line, the total is sub − discount + GST, that is the taxable amount grown by g/100 |
| QuotationPreview.FlagIgnored | src/components/Lists/QuotationPreview.jsx:74-96 | a line's amounts do not depend on its `withTax` flag |
| QuotationPreview.AgreesWithPdfOnTaxedLines | src/components/Lists/QuotationPreview.jsx:74-85 | on a `withTax` line the preview's figures are the PDF engine's |
| QuotationPreview.ForcedTaxCharges | src/components/Lists/QuotationPreview.jsx:84 | a line without `withTax`, a non-zero taxable amount and a non-zero rate gets no GST from the PDF engine but GST and a different total once taxed |
| QuotationPreview.DisagreesWithPdfOnUntaxedLines | src/components/Lists/QuotationPreview.jsx:84 | on such a line the preview charges GST and totals differently from the PDF engine |
| QuotationPreview.GstCell | src/components/Lists/QuotationPreview.jsx:331-336 | the GST cell shows the line's GST exactly when the line has `withTax`, and "N/A" otherwise |
| QuotationPreview.AmountsOf | src/components/Lists/QuotationPreview.jsx:107-108 | the amounts of each item, in order |
| QuotationPreview.StepItem | src/components/Lists/QuotationPreview.jsx:108-112 | one more item adds its printed amounts to the four sums |
| QuotationPreview.SumPrinted | src/components/Lists/QuotationPreview.jsx:102-123 | the `forEach` loop yields the summary of the sums of the printed amounts; SGST equals CGST and `youSaved` equals the discount |
| QuotationPreview.TotalsOf | src/components/Lists/QuotationPreview.jsx:99-124 | `{}` exactly when the items are falsy; a throw exactly when they are truthy but not an array or hold `null`; otherwise SGST equals CGST and `youSaved` equals the discount (the sums: TotalsAreExactSums) |
| QuotationPreview.CalculateTotals | src/components/Lists/QuotationPreview.jsx:99-124 | `{}` exactly when the items are falsy; a throw exactly when they are truthy but not an array, or an array holding a `null` item; otherwise the loop's totals |
| QuotationPreview.ItemAmountsInCents | src/components/Lists/QuotationPreview.jsx:88-92 | every printed amount of a line is a whole number of cents |
| QuotationPreview.PrintedSumsInCents | src/components/Lists/QuotationPreview.jsx:107-113 | sums of printed amounts are whole numbers of cents |
| QuotationPreview.TotalsAreExactSums | src/components/Lists/QuotationPreview.jsx:107-119 | an items array throws exactly when it holds `null`; otherwise the totals printed are the exact sums of the rows' printed amounts: the final `toFixed(2)` changes nothing |
| Engines.FormAndPdfTotals | src/components/Forms/QuotationForm.jsx:121-129 | on a `withTax` line the form's total equals the PDF engine's taxable amount, and the PDF's total is the form's grown once more by g/100 |
| Engines.FormAndPdfDisagree | src/utils/pdfutils.js:368-372 | on every `withTax` line with a non-zero rate and a non-zero total, the form and the PDF quote different totals |
| Engines.FormQuotes118 | src/components/Forms/QuotationForm.jsx:121-138 | one unit at 118 with 18% GST included is quoted 118.00 by the form |
| Engines.PdfQuotes13924 | src/utils/pdfutils.js:368-372 | the same line is quoted 139.24 by the PDF |
| QuotationList.Strip | src/components/Lists/QuotationList.jsx:141 | an object loses exactly `_id`, `createdAt` and `updatedAt` and keeps every other field unchanged; `null` cannot be destructured |
| QuotationList.ExtractImport | src/components/Lists/QuotationList.jsx:126-159 | "No embedded quotation data found" exactly when the text holds no marker; with a marker the file is corrupted exactly when the trimmed last part does not parse or parses to `null`, and otherwise the record created is the stripped parse |
| QuotationList.ArtifactShape | src/utils/pdfutils.js:313-317 | the downloaded text holds the marker right after the PDF and two newlines |
| QuotationList.LastPartOfArtifact | src/components/Lists/QuotationList.jsx:128-137 | whatever the PDF bytes hold, even markers of their own, the last part of a downloaded file is the two newlines and the serialised record |
| QuotationList.ImportRoundTrip | src/components/Lists/QuotationList.jsx:127-141 | importing a downloaded file creates exactly the record it was made from less the three fields, provided the serialised record parses back, holds no marker and has no surrounding white space |
| QuotationList.ImportWithoutMarker | src/components/Lists/QuotationList.jsx:130-134 | a text without the marker is rejected before anything is parsed |
| QuotationList.AfterDelete | src/components/Lists/QuotationList.jsx:47-49 | when the server reports success exactly the quotations with that `_id` go, the rest keep their order and their number of copies; otherwise the list is unchanged |
| InvoiceForm.ApplyEdit | src/components/Forms/InvoiceForm.jsx:82-90 | the edited field is set; a quantity or rate edit makes the row's total quantity·rate, any other edit leaves total, quantity and rate as they were |
| InvoiceForm.RowFromCatalog | src/components/Forms/InvoiceForm.jsx:101-110 | a catalogue pick gives quantity 1 and total equal to the rate, which is `parseFloat(rate) \|\| 0`, and unit `itemUnit \|\| 'nos'` |
| InvoiceForm.SumTotalsUpdate | src/components/Forms/InvoiceForm.jsx:159 | changing one row's total moves the subtotal by exactly the difference |
| InvoiceForm.SumTotalsAppend | src/components/Forms/InvoiceForm.jsx:159 | appending a row adds its total to the subtotal |
| InvoiceForm.SumTotals | src/components/Forms/InvoiceForm.jsx:159 | the subtotal of rows whose totals are not negative is not negative, and a single row's subtotal is its total (updates: SumTotalsUpdate, SumTotalsAppend) |
| InvoiceForm.Taxes | src/components/Forms/InvoiceForm.jsx:162-169 | with `cgst_sgst` IGST is 0; with any other type CGST and SGST are 0 |
| InvoiceForm.CalculateTotals | src/components/Forms/InvoiceForm.jsx:158-174 | the subtotal is the sum of the rows' totals, the taxable amount is the subtotal less the discount, and the taxes follow the one regime |
| InvoiceForm.TotalInOneRegime | src/components/Forms/InvoiceForm.jsx:162-171 | the total is the taxable amount grown by the regime's rate (CGST plus SGST, or IGST), less the advance |
| InvoiceForm.FilteredItems | src/components/Forms/InvoiceForm.jsx:66-70 | in order, exactly the catalogue entries whose name or description contains the term ignoring case, or whose HSN code contains it exactly, each as often as in the catalogue |
| InvoiceForm.MatchesSearch | src/components/Forms/InvoiceForm.jsx:66-70 | an empty search term matches exactly the entries that have a name, a description or an HSN code (the filter: FilteredItems) |
| InvoiceForm.HsnCaseSensitive | src/components/Forms/InvoiceForm.jsx:69 | the HSN code is matched case-sensitively: "ab" does not find "AB12" |
| InvoiceForm.TakeLast | src/components/Forms/InvoiceForm.jsx:59-60 | `slice(-k)`: the last `k` characters, or the whole of a shorter string |
| InvoiceForm.InvoiceNumber | src/components/Forms/InvoiceForm.jsx:56-59 | from a timestamp of 100 on, `CHROMA/`, the timestamp's last three digits with zeros kept, and `/FY2526`: 17 characters; below 100 the whole numeral |
| InvoiceForm.NumeralEndsInThreeDigits | src/components/Forms/InvoiceForm.jsx:59-60 | the decimal numeral of a number of at least 100 ends in the three digits of its value mod 1000 |
| InvoiceForm.ReferenceNumber | src/components/Forms/InvoiceForm.jsx:56-60 | from a timestamp of 100 on, the reference number is the timestamp mod 1000 written as three digits, zeros kept; below 100 it is the whole numeral |
| InvoiceForm.InvoiceFormState.New | src/components/Forms/InvoiceForm.jsx:13-32 | a new invoice has one blank row, the default rates 9/9/18 with `cgst_sgst`, and its number and reference from the clock (lines 56-61) |
| InvoiceForm.InvoiceFormState.Edit | src/components/Forms/InvoiceForm.jsx:53-54 | editing shows the stored invoice as it is |
| InvoiceForm.InvoiceFormState.HandleItemChange | src/components/Forms/InvoiceForm.jsx:80-96 | only row `index` changes, by that edit; the subtotal moves by that row's change in total alone; at least one row remains |
| InvoiceForm.InvoiceFormState.AddItemFromCatalog | src/components/Forms/InvoiceForm.jsx:99-127 | the pick fills the first row with neither a name nor a description, or is appended when there is none; the search closes and clears |
| InvoiceForm.InvoiceFormState.AddEmptyItem | src/components/Forms/InvoiceForm.jsx:129-146 | one blank row is appended; the other rows and settings are unchanged |
| InvoiceForm.InvoiceFormState.RemoveItem | src/components/Forms/InvoiceForm.jsx:148-156 | with more than one row the row at `index` goes; otherwise nothing changes, so at least one row remains |
| InvoicePreview.NumberToWords | src/components/Lists/InvoicePreview.jsx:44-80 | 0 gives "Zero" with no suffix; every other number ends in " Only"; a negative number reads `ones[num]`, which is `undefined` |
| InvoicePreview.TensText | src/components/Lists/InvoicePreview.jsx:70-76 | from 20 to 99 with a non-zero unit digit, `convertTens` is the tens word, a space and the ones word |
| InvoicePreview.ConvertTens | src/components/Lists/InvoicePreview.jsx:70-76 | the words are empty exactly for 0 (read back: ReadTens) |
| InvoicePreview.ReadTens | src/components/Lists/InvoicePreview.jsx:70-76 | reading the words `convertTens` gives for n < 100 adds back exactly n: below 20 `ones[n]`, then `tens[n/10]` and `ones[n%10]` only when n%10 ≠ 0 |
| InvoicePreview.ReadHundreds | src/components/Lists/InvoicePreview.jsx:62-68 | the words of n < 1000, `ones[n/100] + " Hundred " + convertTens(n%100)` above 99, read back as n |
| InvoicePreview.ConvertHundreds | src/components/Lists/InvoicePreview.jsx:62-68 | the words are empty exactly for 0 (read back: ReadHundreds) |
| InvoicePreview.CroresText | src/components/Lists/InvoicePreview.jsx:51-52 | from 10^7 on the text is the crores, " Crore ", then the remainder |
| InvoicePreview.LakhsText | src/components/Lists/InvoicePreview.jsx:53-54 | from 10^5 to below 10^7 the text is the lakhs, " Lakh ", then the remainder |
| InvoicePreview.ThousandsText | src/components/Lists/InvoicePreview.jsx:55-56 | from 10^3 to below 10^5 the text is the thousands, " Thousand ", then the hundreds |
| InvoicePreview.ReadThousands | src/components/Lists/InvoicePreview.jsx:55-58 | the words of n below 10^5 read back as n |
| InvoicePreview.ReadLakhs | src/components/Lists/InvoicePreview.jsx:53-58 | the words of n below 10^7 read back as n |
| InvoicePreview.ReadBelowCrore | src/components/Lists/InvoicePreview.jsx:53-58 | the same, for any n below 10^7 |
| InvoicePreview.ReadMillions | src/components/Lists/InvoicePreview.jsx:50-60 | `convertMillions(n)` read back with the Indian scale words gives n for every natural number; each recursive call is on a smaller number |
| InvoicePreview.ConvertMillions | src/components/Lists/InvoicePreview.jsx:50-60 | the words are empty exactly for 0, which is why a round lakh prints two spaces before " Only" (read back: ReadMillions) |
| InvoicePreview.ReadOnly | src/components/Lists/InvoicePreview.jsx:78-79 | the " Only" suffix adds nothing to the reading |
| InvoicePreview.WordsRoundTrip | src/components/Lists/InvoicePreview.jsx:44-80 | reading back `numberToWords(n)` gives n for every natural number, so no two amounts print the same words |
| InvoicePreview.OneLakh | src/components/Lists/InvoicePreview.jsx:52-58 | 100000 prints "One Lakh  Only", with two spaces, since the empty remainder still gets its separating space |
| InvoicePreview.CalculateValues | src/components/Lists/InvoicePreview.jsx:83-114 | `{}` exactly for no invoice; otherwise the subtotal is the rows' totals and the taxable amount is that less the discount; for `cgst_sgst` CGST and SGST are the taxable amount at the stored rate or 9 per cent when it is 0, and IGST is 0; otherwise IGST is at the stored rate or 18 per cent, and CGST and SGST are 0; the tax amount is their sum and the total adds it and takes off the advance |
| InvoicePreview.PreviewMatchesEditor | src/components/Lists/InvoicePreview.jsx:95-103 | with the rates it charges non-zero, the preview reproduces the editor's totals |
| InvoicePreview.ZeroRateDiffers | src/components/Lists/InvoicePreview.jsx:96 | a stored zero CGST rate is charged at 9% by the preview and at nothing by the editor |
| InvoicePreview.ShownRows | src/components/Lists/InvoicePreview.jsx:217 | the rows listed are, in order, exactly those with a name or a description, each as often as in the invoice |
| UserForm.AddTabAccess | src/components/Forms/UserForm.jsx:63-68 | one row `{tabName: '', access: 'read'}` is appended; nothing else in the form changes |
| UserForm.RemoveTabAccess | src/components/Forms/UserForm.jsx:70-77 | with more than one row the row at `index` goes and the others keep their order; otherwise, or for an index out of range, the form is unchanged |
| UserForm.HandleTabAccessChange | src/components/Forms/UserForm.jsx:54-61 | only field `field` of row `index` changes; every other row and field stays |
| UserForm.RowEditsKeepARow | src/components/Forms/UserForm.jsx:54-77 | adding, removing and editing rows never leaves the form without a row |
| UserForm.RemoveUndoesAdd | src/components/Forms/UserForm.jsx:63-77 | removing the row just added gives the form back |
| UserForm.SelectedTabs | src/components/Forms/UserForm.jsx:80 | the non-empty tab names chosen in some row |
| UserForm.AvailableTabOptions | src/components/Forms/UserForm.jsx:79-85 | in the tab list's order, exactly the tabs chosen in no row plus row `index`'s own choice |
| UserForm.TakenTabNotOffered | src/components/Forms/UserForm.jsx:81-83 | a tab another row has chosen is not offered to this row |
| UserForm.OwnAndFreeTabsOffered | src/components/Forms/UserForm.jsx:81-83 | a row's own tab and every tab no row has chosen are offered |
| UserForm.TextOr | src/components/Forms/UserForm.jsx:37-40 | `x \|\| d` on a text field gives the text or the default, and is non-empty exactly when one of them is; a non-empty text is kept |
| UserForm.Hydrate | src/components/Forms/UserForm.jsx:34-42 | editing a user blanks the password, defaults a missing role to 'user', and replaces a missing or empty tab list by one default row |
| UserForm.Granted | src/components/Forms/UserForm.jsx:109 | exactly the rows whose access is not 'none', in their order, each as often as in the form |
| UserForm.Submit | src/components/Forms/UserForm.jsx:93-118 | an empty name or e-mail, or an empty password when creating, is rejected first; then any row without a tab name; an update carries only the user id, e-mail, role and the granted rows; a creation sends the whole form with the granted rows |
| UserForm.SubmittedRowsNamedAndGranted | src/components/Forms/UserForm.jsx:101-109 | every row sent has a tab name and an access other than 'none', and the rows sent keep the form's order |
| Sidebar.FindAccess | src/components/Layout/Sidebar.jsx:35 | `find`: none exactly when no row has that tab name, otherwise the first row that has it |
| Sidebar.Granted | src/components/Layout/Sidebar.jsx:35-36 | a tab is open exactly when some row names it and the first row that names it does not say 'none' |
| Sidebar.AccessibleTabs | src/components/Layout/Sidebar.jsx:24-42 | no user gets no tab; an admin gets every tab in order; a non-admin without a tab list gets none; otherwise exactly the tabs whose first matching row by exact name grants access other than 'none', as a subsequence of all tabs |
| Sidebar.IsActive | src/components/Layout/Sidebar.jsx:48 | a nav item is active exactly when its view name occurs in the current view |
| Sidebar.ActiveInsideLongerView | src/components/Layout/Sidebar.jsx:48 | an item stays active in every view whose name contains its own, such as `edit-quotation-list` |
| Sidebar.FormTabsAreNotViewNames | src/components/Layout/Sidebar.jsx:11-20 | no tab value the user form stores (lines 17-26 of UserForm.jsx) is a sidebar view name |
| Sidebar.FormRowsOpenNoTab | src/components/Layout/Sidebar.jsx:33-38 | as written, a non-admin whose rows all come from the user form sees no tab at all, whatever access they grant |
| Sidebar.TabValueOf | src/components/Layout/Sidebar.jsx:11-20 | a view's tab value is its name without the `-list` suffix |
| Sidebar.AccessibleTabsIntended | src/components/Layout/Sidebar.jsx:24-42 | the corrected filter, which matches a row for tab value `v` with the view `v-list`; otherwise as the original |
| Sidebar.QuotationRowOpensQuotationList | src/components/Layout/Sidebar.jsx:33-38 | with the corrected matching, a row granting 'quotation' opens the quotation list |
| ItemForm.IndexOf | src/components/Forms/ItemForm.jsx:51 | `indexOf`: the first position where the pattern occurs, or -1 exactly when it does not occur |
| ItemForm.RemoveFirst | src/components/Forms/ItemForm.jsx:51 | `replace` with a string pattern: the text itself when the pattern does not occur, otherwise the text with its first occurrence cut out |
| ItemForm.FieldNameOfPrefixed | src/components/Forms/ItemForm.jsx:51 | an element id `item<w>` writes field `w` lower-cased |
| ItemForm.FieldNameOfPlain | src/components/Forms/ItemForm.jsx:51 | an id without `item` is only lower-cased |
| ItemForm.NameInputWritesName | src/components/Forms/ItemForm.jsx:51 | the input `itemName` writes the field `name` |
| ItemForm.HandleChange | src/components/Forms/ItemForm.jsx:49-53 | the field named by the id gets the typed text; every other field and the picture stay |
| ItemForm.ToggleItemType | src/components/Forms/ItemForm.jsx:55-62 | product becomes service with unit '' and anything else becomes product with unit 'nos'; nothing else changes |
| ItemForm.ToggleTwice | src/components/Forms/ItemForm.jsx:55-62 | toggling twice restores the type, but the unit becomes 'nos' for a product and '' for a service |
| ItemForm.ToggleTwiceLosesUnit | src/components/Forms/ItemForm.jsx:58-60 | a product whose unit is not 'nos' loses its unit when toggled twice |
| ItemForm.Validate | src/components/Forms/ItemForm.jsx:99-119 | in order: a missing name or type, a product without a unit, a non-empty non-numeric quantity, a non-empty non-numeric rate; each rejection exactly when the earlier checks pass |
| ItemForm.ReadyProductIsComplete | src/components/Forms/ItemForm.jsx:99-119 | a product that passes has a name and a unit, and its quantity and rate are empty or numeric |
| ItemForm.ServiceNeedsNoUnit | src/components/Forms/ItemForm.jsx:105-108 | a product toggled to a service and given a name passes with an empty unit |
| ItemForm.ToggleToProductHasUnit | src/components/Forms/ItemForm.jsx:60 | toggling to a product never fails for want of a unit |
| ItemForm.NumeralIsNumeric | src/components/Forms/ItemForm.jsx:111-119 | the decimal text of any whole number passes the quantity and rate checks |
| ItemForm.TrailingTextIsNaN | src/components/Forms/ItemForm.jsx:111-119 | "12a" fails the numeric check although `parseFloat` reads it as 12 |
| ItemForm.HandleImageChange | src/components/Forms/ItemForm.jsx:64-89 | no file changes nothing; an accepted picture is kept; a wrong type or an oversized file shows its message and keeps the form |
| ItemForm.PictureTakenIff | src/components/Forms/ItemForm.jsx:68-80 | a picture is taken exactly when its type is one of the five and it is at most 5·1024·1024 bytes |
| ItemForm.RemoveImage | src/components/Forms/ItemForm.jsx:91-94 | the picked picture goes and the preview falls back to the stored picture, or '' |
| ItemForm.RemoveUndoesPick | src/components/Forms/ItemForm.jsx:64-94 | removing a picture just picked leaves the form without one |
| Images.CheckImage | src/components/Forms/ItemForm.jsx:68-78 | accepted exactly when the type is one of the five and the size is at most 5242880 bytes; the type is checked first, so a wrong type is reported whatever the size |
| ItemList.TrimDescription | src/components/Lists/ItemList.jsx:50-54 | 'No description' for an empty or absent text; the text when it fits; otherwise its first `maxLength` characters and '...', exactly `maxLength + 3` long |
| ItemList.TrimmedLength | src/components/Lists/ItemList.jsx:50-54 | a shown description is the placeholder or at most `maxLength + 3` long |
| ItemList.TrimIdempotent | src/components/Lists/ItemList.jsx:50-54 | shortening a shown description again changes nothing, once the limit leaves room for the placeholder |
| ItemList.Heads | src/components/Lists/ItemList.jsx:112-113 | the first characters of the words joined; an empty word adds nothing |
| ItemList.Initials | src/components/Lists/ItemList.jsx:110-114 | the upper-cased first letters of the space-separated words, at most one per word |
| ItemList.InitialsJoin | src/components/Lists/ItemList.jsx:110-114 | the initials of two names joined by a space are the initials of each, one after the other |
| ItemList.InitialsWord | src/components/Lists/ItemList.jsx:110-114 | one word gives its first letter upper-cased; an empty name gives none |
| ItemList.AfterDelete | src/components/Lists/ItemList.jsx:10-19 | once confirmed and deleted, exactly the products with that id go, the rest keep their order and their number of copies; otherwise nothing changes |
| ItemList.DeleteRemovesExactlyMatches | src/components/Lists/ItemList.jsx:14 | the list shrinks by exactly the number of products with that id |
| UserList.PrecedesTotal | src/components/Lists/UserList.jsx:90-101 | the comparator orders any two users one way or the other |
| UserList.PrecedesTransitive | src/components/Lists/UserList.jsx:90-101 | the comparator's order is transitive, so a sorted result exists |
| UserList.Insert | src/components/Lists/UserList.jsx:90-102 | inserting one user into a sorted list keeps it sorted and adds exactly that user |
| UserList.SortUsers | src/components/Lists/UserList.jsx:90-102 | the users ordered by the sort field, lower-cased for name and e-mail, ascending or descending: sorted, and a permutation of its input |
| UserList.FilteredUsers | src/components/Lists/UserList.jsx:84-102 | exactly the users whose name, e-mail or role contains the term ignoring case, each as often as in the list, sorted by the comparator |
| UserList.InitialOrderByName | src/components/Lists/UserList.jsx:15-16 | with the initial settings (name, ascending) the list is ascending by lower-cased name |
| UserList.EmptySearchKeepsEveryone | src/components/Lists/UserList.jsx:84-89 | an empty search keeps every user |
| UserList.AfterDeleteUser | src/components/Lists/UserList.jsx:46-56 | on success exactly the users with that `_id` go, the rest keep their order and their number of copies; otherwise nothing changes |
| Login.EmailPatternShape | src/components/Auth/Login.jsx:42-43 | an address that matches the pattern has no white space, exactly one `@`, a non-empty part before it and a `.` strictly inside the part after it |
| Login.ShapeEmailPattern | src/components/Auth/Login.jsx:42-43 | every address of that shape matches the pattern |
| Login.EmailPatternIff | src/components/Auth/Login.jsx:42-43 | the pattern and the character-by-character shape accept the same strings, in both directions |
| Login.SimpleAddressMatches | src/components/Auth/Login.jsx:42-43 | "a@b.c" matches |
| Login.SecondAtRejected | src/components/Auth/Login.jsx:42-43 | "a@b@c.d" does not match |
| Login.HandleChange | src/components/Auth/Login.jsx:21-27 | the named input takes the value, every other input keeps its text, and the error is cleared |
| Login.CheckLogin | src/components/Auth/Login.jsx:35-47 | missing exactly when the e-mail or the password is empty; a bad address exactly when both are filled and the address fails the pattern; otherwise the form's own e-mail and password are sent |
| Login.Submit | src/components/Auth/Login.jsx:29-47 | a rejection shows 'Please fill in all fields' or 'Please enter a valid email address' and stops loading; the request is pending exactly when both checks pass, with no error shown; the fields never change |
| Login.SentEmailWellFormed | src/components/Auth/Login.jsx:35-50 | an address that reaches the request is non-empty, free of white space and holds exactly one `@` |
| Login.TypingClearsRejection | src/components/Auth/Login.jsx:21-47 | after a rejected submit a message is shown, and typing into any field clears it |
| Login.ResetPassword | src/components/Auth/Login.jsx:80-84 | the reset request is refused exactly when the address is empty |
| Login.ResetSkipsFormatCheck | src/components/Auth/Login.jsx:42-43 | "x" is refused by submit's pattern but accepted by the reset request |
| CustomerForm.Pending | src/components/Forms/CustomerForm.jsx:34 | never negative and never below total minus received; equal to that difference whenever received does not exceed total, and zero otherwise |
| CustomerForm.WithPending | src/components/Forms/CustomerForm.jsx:33-39 | the pending field takes the clamp of the form's own total and received amounts; every other field is kept |
| CustomerForm.RunPendingEffect | src/components/Forms/CustomerForm.jsx:33-39 | the effect recomputes the pending amount exactly when the total or the received amount changed, and otherwise leaves the form as it is |
| CustomerForm.HandleChange | src/components/Forms/CustomerForm.jsx:68-90 | a name without a dot stores `parseFloat(value) \|\| 0` for the three money fields and the text for any other field, leaving the rest of the form |
| CustomerForm.NestedChangeKeepsSiblings | src/components/Forms/CustomerForm.jsx:71-79 | a dotted name `p.c` sets child `c` of `p` to the text; the other children of `p` and every other field are kept |
| CustomerForm.InitialAmounts | src/components/Forms/CustomerForm.jsx:16-18 | a new customer's three money fields are zero |
| CustomerForm.InitialSettled | src/components/Forms/CustomerForm.jsx:7-39 | the initial form already holds the clamped pending amount |
| CustomerForm.EffectSettles | src/components/Forms/CustomerForm.jsx:33-39 | after any edit that leaves the pending field alone, the effect leaves a settled form settled |
| CustomerForm.MoneyEditSettlesPending | src/components/Forms/CustomerForm.jsx:33-39 | typing into the total or received field stores the parsed figure, and after the effect the pending amount is the clamp, never negative |
| CustomerForm.HydrateChildren | src/components/Forms/CustomerForm.jsx:47-51 | the nested object has exactly the blank object's children, each `c.parent?.child \|\| ''` |
| CustomerForm.Hydrate | src/components/Forms/CustomerForm.jsx:41-66 | the hydrated form has exactly the initial form's fields, each the edited record's value when truthy and the default otherwise; the address and contact person as their children |
| CustomerForm.HydrateEmpty | src/components/Forms/CustomerForm.jsx:41-66 | editing an empty record gives the blank form |
| CustomerForm.StoredPendingKeptWhenAmountsUnset | src/components/Forms/CustomerForm.jsx:33-66 | when the edited record has no total or received amount but a non-zero pending amount, the effect does not rerun and the form shows that pending amount, not the clamp, which is zero |
| AppHandlers.UpdateById | src/hooks/useAppHandlers.jsx:17 | same length; each entry with the new entry's id is replaced by it, and every other entry stays at its place |
| AppHandlers.DeleteById | src/hooks/useAppHandlers.jsx:22 | exactly the entries with another id remain, in their order, each as often as before |
| AppHandlers.UpdateKeepsIds | src/hooks/useAppHandlers.jsx:17 | an update keeps the id at every position |
| AppHandlers.DeleteIdempotent | src/hooks/useAppHandlers.jsx:22 | deleting the same id twice is deleting it once |
| AppHandlers.DeleteUndoesAdd | src/hooks/useAppHandlers.jsx:12-23 | adding an entry whose id is new and deleting that id gives the list back |
| AppHandlers.AppState.constructor | src/hooks/useAppHandlers.jsx:5-9 | the view is 'dashboard', the lists are the seed lists, and nothing is being edited |
| AppHandlers.AppState.SetView | src/hooks/useAppHandlers.jsx:40-43 | the view becomes `v`; setting the view already shown changes nothing else, since the `[view]` effect does not rerun; a new view clears the item being edited unless it is 'edit-item' and the quotation unless it is 'edit-quotation', so no record is held outside its form; the lists stay |
| AppHandlers.AppState.SetItemToEdit | src/hooks/useAppHandlers.jsx:8 | only the item being edited changes |
| AppHandlers.AppState.SetQuoteToEdit | src/hooks/useAppHandlers.jsx:9 | only the quotation being edited changes |
| AppHandlers.AppState.AddItem | src/hooks/useAppHandlers.jsx:12-14 | the item is appended; nothing else changes |
| AppHandlers.AppState.UpdateItem | src/hooks/useAppHandlers.jsx:16-19 | the items are updated by id and the item being edited is cleared; nothing else changes |
| AppHandlers.AppState.DeleteItem | src/hooks/useAppHandlers.jsx:21-23 | the items with that id are dropped; nothing else changes |
| AppHandlers.AppState.AddQuotation | src/hooks/useAppHandlers.jsx:26-28 | the quotation is appended; nothing else changes |
| AppHandlers.AppState.UpdateQuotation | src/hooks/useAppHandlers.jsx:30-33 | the quotations are updated by id and the quotation being edited is cleared; nothing else changes |
| AppHandlers.AppState.DeleteQuotation | src/hooks/useAppHandlers.jsx:35-37 | the quotations with that id are dropped; nothing else changes |
| Text.TrimStart | src/components/Lists/QuotationList.jsx:137 | the result is the text with its leading white space removed: a suffix that does not start with white space, everything before it white space |
| Text.TrimEnd | src/components/Lists/QuotationList.jsx:137 | the result is the text with its trailing white space removed: a prefix that does not end with white space, everything after it white space |
| Text.Trim | src/components/Lists/QuotationList.jsx:137 | the result starts and ends with no white space and is no longer than the text; a text that already does is its own `trim` |
| Text.TrimAfterWhitespace | src/components/Lists/QuotationList.jsx:137 | `trim` of white space followed by text with no surrounding white space gives that text |
| Text.Split | src/components/Lists/QuotationList.jsx:128 | `split` with a non-empty separator always gives at least one part |
| Text.SplitCount | src/components/Forms/CustomerForm.jsx:71-72 | `split` gives two or more parts exactly when the separator occurs, so `includes` and `split` agree |
| Text.SplitLastAfter | src/components/Lists/QuotationList.jsx:128-137 | the last part after splitting `u + sep + r` is the last part of splitting `r` alone |
| Text.SplitCharFree | src/components/Lists/ItemList.jsx:111 | a text without the separator character splits into itself alone |
| Text.Contains | src/components/Lists/UserList.jsx:86-88 | `includes` holds exactly when the needle occurs at some position |
| Text.Lower | src/components/Lists/UserList.jsx:86-88 | `toLowerCase` on ASCII letters: same length, each character lower-cased |
| Text.Upper | src/components/Lists/ItemList.jsx:114 | `toUpperCase` on ASCII letters: same length, each character upper-cased |
| Text.NatToString | src/components/Forms/InvoiceForm.jsx:59-60 | `toString` of a whole number: a non-empty run of digits with no leading zero |
| Text.NatToStringValue | src/components/Forms/InvoiceForm.jsx:59-60 | the digits read back give the number |

## Left out

- Network and session: the REST calls, the stored login token, the auth context and the protected routes. The server's answer to a delete or a login is a parameter (`deleted`, `succeeded`).
- The host: `FileReader`, the image upload, `window.open`, `alert`, `confirm` and `setTimeout` navigation. A confirmation is a parameter; reading a file yields its text as a parameter.
- The clock: `Date.now()` for the invoice number is a parameter. Date formatting, `toLocaleDateString` and `Intl.NumberFormat` are omitted.
- Floating point: amounts are exact reals, and `toFixed(2)` is rounding half away from zero to whole paise. Binary rounding artefacts of IEEE doubles are not reproduced.
- `JSON.stringify` and `JSON.parse` are function parameters, not a JSON model. A round trip is a `requires` of the lemma that needs it.
- The PDF itself: the image fetch (`imageToBase64`), the HTML template, html2pdf rendering and the download (src/utils/pdfutils.js:6-19, 84-311, 319-325). The PDF text is a parameter of the artifact.
- Presentational and routing files, the customer and BOQ lists, and the dashboard. Also src/utils/helpers.js, which holds the seed data (a parameter of `AppHandlers.AppState.constructor`) and a `$` formatter.
- src/utils/handleDownload.js and src/utils/shareViaWhatsApp.js refer to identifiers that are never defined, so they are not part of this model.
- QuotationForm.Submit: the image uploads before the save and the `catch` path are not modelled. Submit stops at the payload it would send.
- QuotationForm.Submit: the payload carries quantity, rate, discount and GST as the form holds them, not as the `.toString()` text the source sends (src/components/Forms/QuotationForm.jsx:370-377), since number-to-text conversion of doubles is not modelled.
- PdfUtils.CalculateTotals and QuotationPreview.CalculateTotals: the items are read, and a `null` item detected, before the summing loop rather than inside it. A `null` item throws a TypeError in the source only once the loop reaches it. The outcome is still the same, the throw or else the totals, because the loop's accumulators are local and nothing else changes before the throw.
- QuotationPreview.jsx:127-141 has a `convertToWords` with the same text as src/utils/pdfutils.js. It is modelled once, as `PdfUtils.ConvertToWords`.
- QuotationForm.ExactFigures: a GST rate of -100 divides by zero. There JavaScript yields `Infinity` or `NaN`; the model yields `None`.
- InvoiceForm: items and tax settings have typed number fields. Inputs that still hold text are not modelled.
- InvoicePreview.NumberToWords: 100000 prints "One Lakh  Only", with two spaces, because `convertMillions(0)` is `''` and the separating space is still written.
- ItemForm: the edit hydration (src/components/Forms/ItemForm.jsx:29-47) and the payload object (121-135) only copy fields. They are not modelled.
- ItemForm.NumericText: exponents (`1e3`), hexadecimal (`0x1f`) and binary/octal prefixes, which `isNaN` accepts, are read as not numeric.
- ItemForm.IsNaN: arrays count as NaN, although `[]` and `[5]` convert to numbers in JavaScript.
- ItemList: the mapping of the fetched rows (src/components/Lists/ItemList.jsx:27-39) only renames fields and is not modelled.
- QuotationList.Strip: a parsed string or array would keep its index keys in JavaScript's rest destructuring. The model gives an empty object for every non-object but `null`.
- UserList.SortUsers: only the name and e-mail sort fields are modelled; the role field would compare raw values. The order of users with equal keys is not stated.
- CustomerForm.WithPending: a money field that holds text counts as zero. JavaScript's subtraction would read numeric text as its number.
- JsValues.ParseFloat: exponent notation is not read (`"1e3"` gives 1 where `parseFloat` gives 1000, `"1.5e2"` gives 1.5), `"Infinity"` is `NaN` where `parseFloat` gives `Infinity`, and a non-string, non-number value is `NaN`, although `parseFloat([5])` converts the array to `"5"` first. Every `parseFloat(x) || d` read of the pricing engines, the customer form and the amount in words goes through it.
- Text.Lower and Text.Upper map only the ASCII letters A-Z and a-z. JavaScript's `toLowerCase` and `toUpperCase` map all of Unicode and can change the length (`"ß".toUpperCase()` is `"SS"`), so a search of "École" for "é" fails here and succeeds in the browser. This reaches QuotationForm.FilteredItems and IsItemInDatabase, InvoiceForm.MatchesSearch, the UserList search and sort keys, and ItemList.Initials.
- ItemList.TrimDescription and UserList.SortUsers count and compare Unicode scalar values, where JavaScript counts and compares UTF-16 code units. The two differ only for characters outside the Basic Multilingual Plane.
- AppHandlers.AppState.SetView runs the `[view]` effect at the call. React runs it after the render, so a handler that calls `setView` and then `setItemToEdit` in the same event sees the effect after both; the model applies them in call order.
- Login: the login request and its outcomes (src/components/Auth/Login.jsx:49-72), the reset timer and the reset form's state are not modelled.

## Findings

| source | as written | input that shows it | evidently intended | confidence | as-written member | corrected member |
|---|---|---|---|---|---|---|
| src/components/Layout/Sidebar.jsx:35 | a row matches a tab when `access.tabName === tab.viewName`. The user form stores tab values such as 'quotation', while the sidebar's view names are such as 'quotation-list' | a non-admin user whose only row is `{ tabName: 'quotation', access: 'read' }` sees no tab | the row for 'quotation' opens 'quotation-list', and likewise for every tab value | medium, not executed | Sidebar.FormRowsOpenNoTab | Sidebar.AccessibleTabsIntended |
