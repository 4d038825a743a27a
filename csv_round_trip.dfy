/** Exporting leads and importing the file again (components/ImportExportButtons.tsx):
    the header line maps to the keys the bulk import reads, and every lead
    comes back as one record holding its fields' texts. With the import's
    field splitter as written this holds for leads whose fields hold no
    double quote; with the corrected splitter it holds for every lead whose
    fields have no line feed and no surrounding whitespace. */
module CsvRoundTrip {
  import opened Common
  import opened ImportExport

  /** A header whose trimmed text lower-cases, with spaces as underscores, to `k`. */
  lemma HeaderKeyIs(h: string, k: string)
    requires Trimmed(h) && |h| == |k|
    requires forall i :: 0 <= i < |h| ==> k[i] == (if h[i] == ' ' then '_' else ToLowerChar(h[i]))
    ensures HeaderKey(h) == k
  {
    TrimNoop(h);
  }

  lemma KeyName()
    ensures HeaderKey("Name") == "name"
  {
    HeaderKeyIs("Name", "name");
  }

  lemma KeyEmail()
    ensures HeaderKey("Email") == "email"
  {
    HeaderKeyIs("Email", "email");
  }

  lemma KeyPhone()
    ensures HeaderKey("Phone") == "phone"
  {
    HeaderKeyIs("Phone", "phone");
  }

  lemma KeyCompany()
    ensures HeaderKey("Company") == "company"
  {
    HeaderKeyIs("Company", "company");
  }

  lemma KeyLocation()
    ensures HeaderKey("Location") == "location"
  {
    HeaderKeyIs("Location", "location");
  }

  lemma KeySource()
    ensures HeaderKey("Source") == "source"
  {
    HeaderKeyIs("Source", "source");
  }

  lemma KeyStatus()
    ensures HeaderKey("Status") == "status"
  {
    HeaderKeyIs("Status", "status");
  }

  lemma KeyExpectedValue()
    ensures HeaderKey("Expected Value") == "expected_value"
  {
    HeaderKeyIs("Expected Value", "expected_value");
  }

  lemma KeyNotes()
    ensures HeaderKey("Notes") == "notes"
  {
    HeaderKeyIs("Notes", "notes");
  }

  lemma HeaderLineSplits()
    ensures Split(HeaderLine, ',') == Headers
  {
    assert forall i :: 0 <= i < |Headers| ==> ',' !in Headers[i];
    SplitJoin(Headers, ',');
  }

  /** Mapping a nine-element list, element by element. */
  lemma MapNine<A, B>(f: A -> B, h0: A, h1: A, h2: A, h3: A, h4: A, h5: A, h6: A, h7: A, h8: A,
                      k0: B, k1: B, k2: B, k3: B, k4: B, k5: B, k6: B, k7: B, k8: B)
    requires f(h0) == k0 && f(h1) == k1 && f(h2) == k2
    requires f(h3) == k3 && f(h4) == k4 && f(h5) == k5
    requires f(h6) == k6 && f(h7) == k7 && f(h8) == k8
    ensures Map([h0, h1, h2, h3, h4, h5, h6, h7, h8], f) == [k0, k1, k2, k3, k4, k5, k6, k7, k8]
  {
  }

  /** The exported header line maps to the keys the bulk import reads. */
  lemma ExportHeaderKeys()
    ensures HeaderKeys(Split(HeaderLine, ',')) == ImportKeys
  {
    HeaderLineSplits();
    KeyName();
    KeyEmail();
    KeyPhone();
    KeyCompany();
    KeyLocation();
    KeySource();
    KeyStatus();
    KeyExpectedValue();
    KeyNotes();
    MapNine(HeaderKey, "Name", "Email", "Phone", "Company", "Location", "Source", "Status", "Expected Value", "Notes",
                     "name", "email", "phone", "company", "location", "source", "status", "expected_value", "notes");
  }

  /** The import keys are pairwise different, so no column overwrites another. */
  lemma ImportKeysDistinct()
    ensures Distinct(ImportKeys)
  {
  }

  // ---------------------------------------------------------------------------
  // The shape of the exported text

  /** Every field of the lead is one the export and import carry unchanged. */
  predicate ExportableLead(l: ExportLead) {
    forall j :: 0 <= j < |Fields(l)| ==> Exportable(Fields(l)[j])
  }

  predicate AllExportable(leads: seq<ExportLead>) {
    forall i :: 0 <= i < |leads| ==> ExportableLead(leads[i])
  }

  /** The leads the chosen splitter reads back: exportable ones, and for the
      splitter as written only those without a double quote in any field. */
  predicate ReadsBack(leads: seq<ExportLead>, keepQuotes: bool) {
    AllExportable(leads) &&
    (keepQuotes || forall i, j :: 0 <= i < |leads| && 0 <= j < |Fields(leads[i])| ==> QuoteFreeField(Fields(leads[i])[j]))
  }

  /** An exported field neither starts nor ends with whitespace and holds no line feed. */
  lemma SanitizeEdges(v: Option<string>)
    requires Exportable(v)
    ensures Trimmed(Sanitize(v)) && '\n' !in Sanitize(v)
  {
    SanitizeMeaning(v);
    if v.Some? {
      DoubleQuotesOther(v.value, '\n');
      if NeedsQuoting(v.value) {
        var q := "\"";
        var d := DoubleQuotes(v.value);
        var s := q + d + q;
        assert Sanitize(v) == s;
        assert s[0] == '"' && s[|s| - 1] == '"';
      }
    }
  }

  lemma TrimmedComma(a: string, b: string)
    requires Trimmed(a) && Trimmed(b)
    ensures Trimmed(a + "," + b)
  {
    var s := a + "," + b;
    if a == [] {
      assert s[0] == ',';
    } else {
      assert s[0] == a[0];
    }
    if b == [] {
      assert s[|s| - 1] == ',';
    } else {
      assert s[|s| - 1] == b[|b| - 1];
    }
  }

  /** Trimmed parts join with commas into a trimmed line, non-empty once there are two parts. */
  lemma {:induction false} JoinEdges(parts: seq<string>)
    requires |parts| >= 1
    requires forall i :: 0 <= i < |parts| ==> Trimmed(parts[i])
    ensures Trimmed(Join(parts, ","))
    ensures |parts| >= 2 ==> Join(parts, ",") != ""
  {
    if |parts| >= 2 {
      JoinEdges(parts[1..]);
      TrimmedComma(parts[0], Join(parts[1..], ","));
    }
  }

  /** A character in neither the parts nor the separator is not in their join. */
  lemma {:induction false} JoinAvoids(parts: seq<string>, sep: string, c: char)
    requires c !in sep
    requires forall i :: 0 <= i < |parts| ==> c !in parts[i]
    ensures c !in Join(parts, sep)
  {
    if |parts| >= 2 {
      JoinAvoids(parts[1..], sep, c);
    }
  }

  /** An exported row is a non-empty, trimmed line. */
  lemma RowEdges(l: ExportLead)
    requires ExportableLead(l)
    ensures Trimmed(Row(l)) && Row(l) != "" && '\n' !in Row(l)
  {
    var parts := SanitizeAll(Fields(l));
    forall i | 0 <= i < |parts|
      ensures Trimmed(parts[i]) && '\n' !in parts[i]
    {
      SanitizeEdges(Fields(l)[i]);
    }
    JoinEdges(parts);
    JoinAvoids(parts, ",", '\n');
  }

  lemma HeaderLineEdges()
    ensures Trimmed(HeaderLine) && '\n' !in HeaderLine
  {
    assert forall i :: 0 <= i < |Headers| ==> Trimmed(Headers[i]) && '\n' !in Headers[i];
    JoinEdges(Headers);
    JoinAvoids(Headers, ",", '\n');
  }

  /** Lines that do not end in whitespace lose no `\r`. */
  lemma {:induction false} DropCRsNoop(ps: seq<string>)
    requires forall i :: 0 <= i < |ps| ==> Trimmed(ps[i])
    ensures DropCRs(ps) == ps
  {
    if ps != [] {
      DropCRsNoop(ps[1..]);
      assert DropCR(ps[0]) == ps[0];
    }
  }

  /** Trimmed lines without line feeds, joined by line feeds, split back into themselves. */
  lemma SplitLinesOfJoin(lines: seq<string>)
    requires |lines| >= 1
    requires forall i :: 0 <= i < |lines| ==> Trimmed(lines[i]) && '\n' !in lines[i]
    ensures SplitLines(Join(lines, "\n")) == lines
  {
    SplitJoin(lines, '\n');
    DropCRsNoop(lines[..|lines| - 1]);
    SplitLast(lines);
  }

  /** The exported text splits back into the header line and the rows. */
  lemma CsvLines(leads: seq<ExportLead>)
    requires leads != [] && AllExportable(leads)
    ensures SplitLines(ExportCsv(leads).value) == [HeaderLine] + Rows(leads)
  {
    var lines := [HeaderLine] + Rows(leads);
    HeaderLineEdges();
    forall i | 0 <= i < |lines|
      ensures Trimmed(lines[i]) && '\n' !in lines[i]
    {
      if i > 0 {
        RowEdges(leads[i - 1]);
      }
    }
    SplitLinesOfJoin(lines);
  }

  // ---------------------------------------------------------------------------
  // The round trip

  /** The record the import builds for a lead: each import key holds the text of its column. */
  function LeadRecord(l: ExportLead): Record {
    RecordOf(ImportKeys, Texts(Fields(l)))
  }

  lemma {:induction false} DataRecordsOfRows(leads: seq<ExportLead>, keepQuotes: bool)
    requires ReadsBack(leads, keepQuotes)
    ensures DataRecords(ImportKeys, Rows(leads), keepQuotes) == Map(leads, LeadRecord)
  {
    if leads != [] {
      var p := leads[..|leads| - 1];
      var x := leads[|leads| - 1];
      assert ExportableLead(x);
      assert ReadsBack(p, keepQuotes) by {
        assert forall i :: 0 <= i < |p| ==> p[i] == leads[i];
      }
      DataRecordsOfRows(p, keepQuotes);
      assert Rows(leads) == Rows(p) + [Row(x)];
      RowEdges(x);
      TrimNoop(Row(x));
      RowRoundTrip(Fields(x), keepQuotes);
      DataRecordsSnoc(ImportKeys, Rows(p), Row(x), keepQuotes);
      MapSnoc(p, x, LeadRecord);
      SplitLast(leads);
    }
  }

  /** Importing the export of leads the splitter reads back gives one record
      per lead, in order, holding that lead's fields. */
  lemma ExportImportRoundTrip(leads: seq<ExportLead>, keepQuotes: bool)
    requires leads != [] && ReadsBack(leads, keepQuotes)
    ensures ParseSpec(ExportCsv(leads).value, keepQuotes) == Map(leads, LeadRecord)
  {
    CsvLines(leads);
    ExportHeaderKeys();
    DataRecordsOfRows(leads, keepQuotes);
    var lines := SplitLines(ExportCsv(leads).value);
    assert lines[0] == HeaderLine;
    assert lines[1..] == Rows(leads);
  }

  /** A lead's record has exactly the import keys, each holding its column's text. */
  lemma LeadRecordFields(l: ExportLead)
    ensures forall k :: k in LeadRecord(l) <==> k in ImportKeys
    ensures forall j :: 0 <= j < |ImportKeys| ==>
              ImportKeys[j] in LeadRecord(l) && LeadRecord(l)[ImportKeys[j]] == Text(Fields(l)[j])
  {
    RecordOfKeys(ImportKeys, Texts(Fields(l)));
    ImportKeysDistinct();
    RecordOfDistinct(ImportKeys, Texts(Fields(l)));
  }
}
