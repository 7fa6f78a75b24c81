/**
 * The quotation list: importing a quotation back from a downloaded PDF (the
 * serialised record after the last marker, minus its identity and audit
 * fields) and dropping a deleted quotation from the list.
 */
module QuotationList {
  import opened Common
  import opened Text
  import opened JsValues
  import opened Seqs
  import PdfUtils

  /** The marker the import splits the file's text on. */
  const Marker: string := "__QUOTATION_DATA__"

  const NoDataMessage := "Invalid PDF: No embedded quotation data found."
  const CorruptedMessage := "Failed to import quotation. File might be corrupted."

  /** The fields a fresh copy must not carry over. */
  const StrippedKeys: set<string> := {"_id", "createdAt", "updatedAt"}

  /**
   * What the import does with a file: rejects it when there is no marker,
   * reports it corrupted when the record does not parse, or creates the record.
   */
  datatype ImportOutcome = NoData | Corrupted | Create(record: Json)

  /**
   * `const { _id, createdAt, updatedAt, ...cleanData } = value`: an object
   * loses exactly the three fields; `null` cannot be destructured.
   */
  function Strip(v: Json): (r: Option<Json>)
    ensures r.None? <==> v.JNull?
    ensures v.JObj? ==> r.Some? && r.value.JObj?
    ensures v.JObj? ==> forall k :: k in r.value.fields <==> k in v.fields && k !in StrippedKeys
    ensures v.JObj? ==> forall k :: k in r.value.fields ==> r.value.fields[k] == v.fields[k]
  {
    match v
    case JNull => None
    case JObj(f) => Some(JObj(f - StrippedKeys))
    case _ => Some(JObj(map[]))
  }

  /**
   * `handleFileChange` after the file is read: split on the marker, take the
   * last part, trim it, parse it with `parse` (`JSON.parse`, `None` when it
   * throws) and strip the fields.
   */
  function ExtractImport(text: string, parse: string -> Option<Json>): (o: ImportOutcome)
    ensures o == NoData <==> !Occurs(text, Marker)
    ensures var p := parse(Trim(Last(Split(text, Marker))));
      Occurs(text, Marker) ==> (o == Corrupted <==> p.None? || p.value.JNull?)
    ensures var p := parse(Trim(Last(Split(text, Marker))));
      Occurs(text, Marker) && p.Some? && !p.value.JNull? ==> o.Create?
    ensures o.Create? ==> (parse(Trim(Last(Split(text, Marker)))).Some?
      && Some(o.record) == Strip(parse(Trim(Last(Split(text, Marker)))).value))
  {
    var parts := Split(text, Marker);
    SplitCount(text, Marker, "");
    if |parts| < 2 then NoData
    else
      var parsed := parse(Trim(Last(parts)));
      if parsed.None? then Corrupted
      else
        var clean := Strip(parsed.value);
        if clean.None? then Corrupted else Create(clean.value)
  }

  /** An occurrence in `[c] + s` of a needle without `c` lies in `s`. */
  lemma OccursPastChar(c: char, s: string, needle: string, k: int)
    requires c !in needle && OccursAt([c] + s, needle, k)
    ensures OccursAt(s, needle, if needle == [] then 0 else k - 1)
  {
    var t := [c] + s;
    if needle != [] {
      assert needle[0] == t[k] && needle[0] in needle;
      assert k >= 1;
      assert t[k..k + |needle|] == s[k - 1..k - 1 + |needle|];
    }
  }

  /** A character the needle does not contain cannot start an occurrence of it. */
  lemma NoOccurrenceAfter(c: char, s: string, needle: string)
    requires c !in needle && !Occurs(s, needle)
    ensures !Occurs([c] + s, needle)
  {
    if Occurs([c] + s, needle) {
      var k :| OccursAt([c] + s, needle, k);
      OccursPastChar(c, s, needle, k);
      assert false;
    }
  }

  lemma SeparatorParts()
    ensures PdfUtils.Separator == "\n\n" + Marker + "\n\n"
  {
  }

  lemma RegroupFive(p: string, x: string, m: string, y: string, s: string)
    ensures p + (x + m + y) + s == (p + x) + m + (y + s)
  {
  }

  lemma OccursBetween(p: string, m: string, q: string)
    ensures OccursAt(p + m + q, m, |p|)
  {
    assert (p + m + q)[|p|..|p| + |m|] == m;
  }

  /** The text of a downloaded file with the record it embeds. */
  lemma ArtifactShape(pdf: string, s: string)
    ensures pdf + PdfUtils.Separator + s == (pdf + "\n\n") + Marker + ("\n\n" + s)
    ensures OccursAt(pdf + PdfUtils.Separator + s, Marker, |pdf| + 2)
  {
    SeparatorParts();
    RegroupFive(pdf, "\n\n", Marker, "\n\n", s);
    OccursBetween(pdf + "\n\n", Marker, "\n\n" + s);
  }

  lemma NewlineNotInMarker()
    ensures '\n' !in Marker
  {
  }

  lemma TwoNewlines(s: string)
    ensures "\n\n" + s == ['\n'] + (['\n'] + s)
  {
  }

  /** Whatever the PDF bytes hold, the last part of a downloaded file is the blank lines and the record after the marker. */
  lemma LastPartOfArtifact(pdf: string, s: string)
    requires !Occurs(s, Marker)
    ensures Last(Split(pdf + PdfUtils.Separator + s, Marker)) == "\n\n" + s
  {
    ArtifactShape(pdf, s);
    NewlineNotInMarker();
    var u := pdf + "\n\n";
    assert u[|u| - 1] == '\n';
    SplitLastAfter(u, Marker, "\n\n" + s, "");
    NoOccurrenceAfter('\n', s, Marker);
    TwoNewlines(s);
    NoOccurrenceAfter('\n', ['\n'] + s, Marker);
    SplitWithout("\n\n" + s, Marker, "");
    assert "" + ("\n\n" + s) == "\n\n" + s;
  }

  /**
   * Importing a downloaded file gives back the record it was made from, less
   * the three fields, whatever the PDF bytes hold; the serialised record must
   * parse back, hold no marker and have no white space at its ends.
   */
  lemma ImportRoundTrip(pdf: string, fields: map<string, Json>,
                        stringify: Json -> string, parse: string -> Option<Json>)
    requires parse(stringify(JObj(fields))) == Some(JObj(fields))
    requires !Occurs(stringify(JObj(fields)), Marker)
    requires Trimmed(stringify(JObj(fields)))
    ensures ExtractImport(PdfUtils.Artifact(pdf, JObj(fields), stringify), parse) == Create(JObj(fields - StrippedKeys))
  {
    var s := stringify(JObj(fields));
    var a := PdfUtils.Artifact(pdf, JObj(fields), stringify);
    ArtifactShape(pdf, s);
    assert Occurs(a, Marker);
    LastPartOfArtifact(pdf, s);
    TrimAfterWhitespace("\n\n", s);
    assert Trim(Last(Split(a, Marker))) == s;
  }

  /** A file without the marker is rejected before anything is parsed or created. */
  lemma ImportWithoutMarker(text: string, parse: string -> Option<Json>)
    requires !Occurs(text, Marker)
    ensures ExtractImport(text, parse) == NoData
  {
  }

  // ---------------------------------------------------------------- delete

  /** The list kept after deleting quotation `id`: unchanged unless the server reported success. */
  function AfterDelete(quotes: seq<Json>, id: Option<Json>, succeeded: bool): (r: seq<Json>)
    ensures !succeeded ==> r == quotes
    ensures succeeded ==> forall q :: q in r <==> q in quotes && Prop(Some(q), "_id") != id
    ensures succeeded ==> forall q :: multiset(r)[q] == if Prop(Some(q), "_id") != id then multiset(quotes)[q] else 0
    ensures IsSubsequence(r, quotes)
  {
    if succeeded then Filter(quotes, (q: Json) => Prop(Some(q), "_id") != id)
    else
      SubsequenceOfSelf(quotes);
      quotes
  }
}
