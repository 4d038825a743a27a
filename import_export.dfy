/** CSV export and import of leads (components/ImportExportButtons.tsx).
    Export escapes each field in the style of section 2 of RFC 4180 (items 6
    and 7: a field holding a double quote, a comma or a line break is
    enclosed in double quotes, and embedded double quotes are doubled) and
    joins the rows with line feeds. Import splits the text into lines, maps
    the header line to record keys and splits every non-blank data line with
    a quote-tracking scanner. */
module ImportExport {
  import opened Common

  // ---------------------------------------------------------------------------
  // Export

  /** The exported columns of a lead; `None` is `null`/`undefined`. The
      expected value is given as the text `String(expected_value)` renders. */
  datatype ExportLead = ExportLead(name: Option<string>, email: Option<string>, phone: Option<string>,
                                   company: Option<string>, location: Option<string>,
                                   source: Option<string>, status: Option<string>,
                                   expectedValue: Option<string>, notes: Option<string>)

  const Headers: seq<string> :=
    ["Name", "Email", "Phone", "Company", "Location", "Source", "Status", "Expected Value", "Notes"]

  /** The keys `bulkInsertLeads` reads. */
  const ImportKeys: seq<string> :=
    ["name", "email", "phone", "company", "location", "source", "status", "expected_value", "notes"]

  function Fields(l: ExportLead): (r: seq<Option<string>>)
    ensures |r| == |Headers|
  {
    [l.name, l.email, l.phone, l.company, l.location, l.source, l.status, l.expectedValue, l.notes]
  }

  /** `.replace(/"/g, '""')`. */
  function DoubleQuotes(s: string): (r: string)
    ensures |r| == |s| + CountChar(s, '"')
    ensures '"' in r <==> '"' in s
  {
    if s == [] then ""
    else (if s[0] == '"' then "\"\"" else [s[0]]) + DoubleQuotes(s[1..])
  }

  /** Doubling quotes adds and removes no other character. */
  lemma {:induction false} DoubleQuotesOther(s: string, c: char)
    requires c != '"'
    ensures c in DoubleQuotes(s) <==> c in s
  {
    if s != [] {
      DoubleQuotesOther(s[1..], c);
    }
  }

  predicate NeedsQuoting(s: string) {
    '"' in s || ',' in s || '\n' in s
  }

  /** `sanitizeField`: the search for a quote, comma or newline is made on the
      escaped text. Null exports as nothing, and a quote, comma or line feed
      never appears outside an enclosing pair of quotes. */
  function Sanitize(v: Option<string>): (r: string)
    ensures v.None? ==> r == ""
    ensures NeedsQuoting(r) ==> |r| >= 2 && r[0] == '"' && r[|r| - 1] == '"'
  {
    if v.None? then ""
    else
      var strVal := DoubleQuotes(v.value);
      if '"' in strVal || ',' in strVal || '\n' in strVal then "\"" + strVal + "\"" else strVal
  }

  function SanitizeAll(fs: seq<Option<string>>): (r: seq<string>)
    ensures |r| == |fs|
    ensures forall i :: 0 <= i < |fs| ==> r[i] == Sanitize(fs[i])
  {
    if fs == [] then [] else [Sanitize(fs[0])] + SanitizeAll(fs[1..])
  }

  function Row(l: ExportLead): string {
    Join(SanitizeAll(Fields(l)), ",")
  }

  function Rows(leads: seq<ExportLead>): (r: seq<string>)
    ensures |r| == |leads|
    ensures forall i :: 0 <= i < |leads| ==> r[i] == Row(leads[i])
  {
    if leads == [] then [] else Rows(leads[..|leads| - 1]) + [Row(leads[|leads| - 1])]
  }

  const HeaderLine: string := Join(Headers, ",")

  /** `handleExport`: nothing is exported without leads; otherwise the header line
      and one line per lead, joined by line feeds. */
  function ExportCsv(leads: seq<ExportLead>): (r: Option<string>)
    ensures r.None? <==> leads == []
  {
    if leads == [] then None else Some(Join([HeaderLine] + Rows(leads), "\n"))
  }

  // ---------------------------------------------------------------------------
  // Import: lines and headers

  /** The `\r` of a `\r\n` line break. */
  function DropCR(p: string): string {
    if p != [] && p[|p| - 1] == '\r' then p[..|p| - 1] else p
  }

  function DropCRs(ps: seq<string>): (r: seq<string>)
    ensures |r| == |ps|
  {
    if ps == [] then [] else [DropCR(ps[0])] + DropCRs(ps[1..])
  }

  /** `text.split(/\r?\n/)`: split at line feeds, each taking one preceding `\r` with it. */
  function SplitLines(text: string): (r: seq<string>)
    ensures |r| >= 1
  {
    var ps := Split(text, '\n');
    DropCRs(ps[..|ps| - 1]) + [ps[|ps| - 1]]
  }

  /** `h.trim().toLowerCase().replace(/ /g, '_')`. */
  function HeaderKey(h: string): string {
    ReplaceChar(ToLower(Trim(h)), ' ', '_')
  }

  /** `headers.map(...)`. */
  function HeaderKeys(hs: seq<string>): seq<string> {
    Map(hs, HeaderKey)
  }

  // ---------------------------------------------------------------------------
  // Import: the line scanner

  /** The scanner's variables `inQuotes` and `currentValue`, and the fields
      finished so far before they are cleaned (pushing `Clean(f)` for each
      finished `f` is the same as cleaning them all at the end). */
  datatype Scan = Scan(inQuotes: bool, current: string, fields: seq<string>)

  const ScanStart := Scan(false, "", [])

  /** `.replace(/(^"|"$)/g, '')`: one leading and one trailing quote go. */
  function StripOuterQuotes(s: string): string {
    var a := if s != [] && s[0] == '"' then s[1..] else s;
    if a != [] && a[|a| - 1] == '"' then a[..|a| - 1] else a
  }

  /** `.replace(/""/g, '"')`, scanning left to right. */
  function Undouble(s: string): string {
    if s == [] then ""
    else if |s| >= 2 && s[0] == '"' && s[1] == '"' then "\"" + Undouble(s[2..])
    else [s[0]] + Undouble(s[1..])
  }

  /** What is pushed for a finished field. */
  function Clean(cur: string): string {
    Trim(Undouble(StripOuterQuotes(cur)))
  }

  function CleanAll(fs: seq<string>): (r: seq<string>)
    ensures |r| == |fs|
    ensures forall i :: 0 <= i < |fs| ==> r[i] == Clean(fs[i])
  {
    Map(fs, Clean)
  }

  /** One character of the scanner. A quote toggles the quote state; with
      `keepQuotes` it is also kept in the field (see `SplitFields`). A comma
      outside quotes finishes the field. */
  function Step(st: Scan, c: char, keepQuotes: bool): Scan {
    if c == '"' then
      Scan(!st.inQuotes, if keepQuotes then st.current + [c] else st.current, st.fields)
    else if c == ',' && !st.inQuotes then Scan(st.inQuotes, "", st.fields + [st.current])
    else Scan(st.inQuotes, st.current + [c], st.fields)
  }

  function Run(st: Scan, s: string, keepQuotes: bool): Scan {
    if s == [] then st else Step(Run(st, s[..|s| - 1], keepQuotes), s[|s| - 1], keepQuotes)
  }

  /** The raw fields of a line: the finished ones and the one left at the end. */
  function RawFields(line: string, keepQuotes: bool): seq<string> {
    var st := Run(ScanStart, line, keepQuotes);
    st.fields + [st.current]
  }

  /** The values of a line. With `keepQuotes == false` this is the loop of
      `parseCSV` as written: quote characters only toggle the state and are
      never stored, so the later un-doubling of `""` finds nothing to do.
      With `keepQuotes == true` it is the splitter the un-doubling step
      intends: quote characters are stored, and the outer quotes and doubled
      quotes are undone when the field is pushed. */
  function SplitFields(line: string, keepQuotes: bool): (r: seq<string>)
    ensures |r| == |Run(ScanStart, line, keepQuotes).fields| + 1
    ensures '"' !in line ==> r == Map(Split(line, ','), Trim)
  {
    QuoteFreeFields(line, keepQuotes);
    CleanAll(RawFields(line, keepQuotes))
  }

  lemma RunSnoc(st: Scan, s: string, c: char, keep: bool)
    ensures Run(st, s + [c], keep) == Step(Run(st, s, keep), c, keep)
  {
    assert (s + [c])[..|s|] == s;
  }

  lemma CleanAllSnoc(fs: seq<string>, x: string)
    ensures CleanAll(fs + [x]) == CleanAll(fs) + [Clean(x)]
  {
    MapSnoc(fs, x, Clean);
  }

  /** The inner `for` loop of `parseCSV`. */
  method SplitLine(line: string) returns (values: seq<string>)
    ensures values == SplitFields(line, false)
  {
    values := [];
    var inQuotes := false;
    var currentValue := "";
    ghost var fields: seq<string> := [];
    for j := 0 to |line|
      invariant Run(ScanStart, line[..j], false) == Scan(inQuotes, currentValue, fields)
      invariant values == CleanAll(fields)
    {
      var c := line[j];
      assert line[..j + 1] == line[..j] + [c];
      RunSnoc(ScanStart, line[..j], c, false);
      if c == '"' {
        inQuotes := !inQuotes;
      } else if c == ',' && !inQuotes {
        CleanAllSnoc(fields, currentValue);
        values := values + [Clean(currentValue)];
        fields := fields + [currentValue];
        currentValue := "";
      } else {
        currentValue := currentValue + [c];
      }
    }
    assert line[..|line|] == line;
    CleanAllSnoc(fields, currentValue);
    values := values + [Clean(currentValue)];
  }

  // ---------------------------------------------------------------------------
  // Import: records

  type Record = map<string, string>

  /** `values[index] || ''`: a missing column is the empty string. */
  function ValueAt(values: seq<string>, i: nat): string {
    if i < |values| then values[i] else ""
  }

  /** `headers.forEach((header, index) => obj[header] = ...)`: a later equal header overwrites. */
  function RecordOf(headers: seq<string>, values: seq<string>): Record {
    if headers == [] then map[]
    else RecordOf(headers[..|headers| - 1], values)[headers[|headers| - 1] := ValueAt(values, |headers| - 1)]
  }

  method BuildRecord(headers: seq<string>, values: seq<string>) returns (obj: Record)
    ensures obj == RecordOf(headers, values)
  {
    obj := map[];
    for index := 0 to |headers|
      invariant obj == RecordOf(headers[..index], values)
    {
      assert headers[..index + 1][..index] == headers[..index];
      obj := obj[headers[index] := if index < |values| then values[index] else ""];
    }
    assert headers[..|headers|] == headers;
  }

  predicate Blank(line: string) {
    Trim(line) == ""
  }

  /** One record per non-blank data line, in line order (`keepQuotes` as in
      `SplitFields`); every record has exactly the header keys. */
  function DataRecords(headers: seq<string>, lines: seq<string>, keepQuotes: bool): (r: seq<Record>)
    ensures |r| <= |lines|
    ensures forall i :: 0 <= i < |r| ==> HasKeys(r[i], headers)
  {
    if lines == [] then []
    else
      var rs := DataRecords(headers, lines[..|lines| - 1], keepQuotes);
      var line := Trim(lines[|lines| - 1]);
      if line == "" then rs
      else
        RecordOfKeys(headers, SplitFields(line, keepQuotes));
        rs + [RecordOf(headers, SplitFields(line, keepQuotes))]
  }

  lemma DataRecordsSnoc(headers: seq<string>, ls: seq<string>, x: string, keepQuotes: bool)
    ensures DataRecords(headers, ls + [x], keepQuotes) ==
            if Trim(x) == "" then DataRecords(headers, ls, keepQuotes)
            else DataRecords(headers, ls, keepQuotes) + [RecordOf(headers, SplitFields(Trim(x), keepQuotes))]
  {
    assert (ls + [x])[..|ls|] == ls;
  }

  lemma DataRecordsStep(headers: seq<string>, ls: seq<string>, i: nat, keepQuotes: bool)
    requires i < |ls|
    ensures DataRecords(headers, ls[..i + 1], keepQuotes) ==
            if Trim(ls[i]) == "" then DataRecords(headers, ls[..i], keepQuotes)
            else DataRecords(headers, ls[..i], keepQuotes) + [RecordOf(headers, SplitFields(Trim(ls[i]), keepQuotes))]
  {
    assert ls[..i + 1] == ls[..i] + [ls[i]];
    DataRecordsSnoc(headers, ls[..i], ls[i], keepQuotes);
  }

  /** The records `parseCSV` returns (`keepQuotes == false`), or would return
      with the corrected splitter (`keepQuotes == true`). */
  function ParseSpec(text: string, keepQuotes: bool): seq<Record> {
    var lines := SplitLines(text);
    if |lines| < 2 then [] else DataRecords(HeaderKeys(Split(lines[0], ',')), lines[1..], keepQuotes)
  }

  /** The outer loop of `parseCSV`: blank lines are skipped, every other line
      becomes one record. */
  method ParseRows(headers: seq<string>, dataLines: seq<string>) returns (result: seq<Record>)
    ensures result == DataRecords(headers, dataLines, false)
  {
    result := [];
    for i := 0 to |dataLines|
      invariant result == DataRecords(headers, dataLines[..i], false)
    {
      DataRecordsStep(headers, dataLines, i, false);
      var line := Trim(dataLines[i]);
      if line != "" {
        var values := SplitLine(line);
        var obj := BuildRecord(headers, values);
        result := result + [obj];
      }
    }
    assert dataLines[..|dataLines|] == dataLines;
  }

  /** `parseCSV`. */
  method ParseCsv(text: string) returns (result: seq<Record>)
    ensures result == ParseSpec(text, false)
  {
    var lines := SplitLines(text);
    if |lines| < 2 {
      return [];
    }
    var headers := HeaderKeys(Split(lines[0], ','));
    result := ParseRows(headers, lines[1..]);
  }

  // ---------------------------------------------------------------------------
  // Records and lines

  /** A record has exactly the header keys. */
  lemma {:induction false} RecordOfKeys(headers: seq<string>, values: seq<string>)
    ensures forall k :: k in RecordOf(headers, values) <==> k in headers
  {
    if headers != [] {
      var p := headers[..|headers| - 1];
      RecordOfKeys(p, values);
      assert headers == p + [headers[|headers| - 1]];
    }
  }

  /** A header takes the value of its column, or `""` past the end of the
      line; with a repeated header the last column wins. */
  lemma {:induction false} RecordOfValue(headers: seq<string>, values: seq<string>, i: nat)
    requires i < |headers| && headers[i] !in headers[i + 1..]
    ensures headers[i] in RecordOf(headers, values)
    ensures RecordOf(headers, values)[headers[i]] == ValueAt(values, i)
  {
    var n := |headers|;
    if i < n - 1 {
      var p := headers[..n - 1];
      assert headers[i + 1..] == p[i + 1..] + [headers[n - 1]];
      RecordOfValue(p, values, i);
    }
  }

  /** With distinct headers, every header takes the value of its own column. */
  lemma RecordOfDistinct(headers: seq<string>, values: seq<string>)
    requires Distinct(headers)
    ensures forall i :: 0 <= i < |headers| ==>
              headers[i] in RecordOf(headers, values) && RecordOf(headers, values)[headers[i]] == ValueAt(values, i)
  {
    forall i | 0 <= i < |headers|
      ensures headers[i] in RecordOf(headers, values) && RecordOf(headers, values)[headers[i]] == ValueAt(values, i)
    {
      assert forall k :: i + 1 <= k < |headers| ==> headers[k] != headers[i];
      RecordOfValue(headers, values, i);
    }
  }

  /** A text with no line feed is a header line alone and gives no records. */
  lemma ParseSingleLine(text: string, keepQuotes: bool)
    requires '\n' !in text
    ensures ParseSpec(text, keepQuotes) == []
  {
    SplitNoSeparator(text, '\n');
    assert Split(text, '\n')[..0] == [];
  }

  predicate NonBlank(line: string) {
    !Blank(line)
  }

  /** Blank data lines are skipped and every other data line gives one record. */
  lemma {:induction false} DataRecordsCount(headers: seq<string>, lines: seq<string>, keepQuotes: bool)
    ensures |DataRecords(headers, lines, keepQuotes)| == |Filter(lines, NonBlank)|
  {
    if lines != [] {
      var p := lines[..|lines| - 1];
      var x := lines[|lines| - 1];
      DataRecordsCount(headers, p, keepQuotes);
      SplitLast(lines);
      DataRecordsSnoc(headers, p, x, keepQuotes);
      FilterSnoc(p, x, NonBlank);
    }
  }

  ghost predicate HasKeys(r: Record, headers: seq<string>) {
    forall k :: k in r <==> k in headers
  }

  // ---------------------------------------------------------------------------
  // Escaping

  /** The text a field stands for: `null` exports as the empty string. */
  function Text(v: Option<string>): string {
    if v.None? then "" else v.value
  }

  function Texts(fs: seq<Option<string>>): (r: seq<string>)
    ensures |r| == |fs|
    ensures forall i :: 0 <= i < |fs| ==> r[i] == Text(fs[i])
  {
    if fs == [] then [] else [Text(fs[0])] + Texts(fs[1..])
  }

  /** Un-doubling undoes the doubling of quotes. */
  lemma {:induction false} UndoubleDoubleQuotes(s: string)
    ensures Undouble(DoubleQuotes(s)) == s
  {
    if s != [] {
      UndoubleDoubleQuotes(s[1..]);
      var rest := DoubleQuotes(s[1..]);
      if s[0] == '"' {
        assert ("\"\"" + rest)[2..] == rest;
      } else {
        assert ([s[0]] + rest)[1..] == rest;
      }
    }
  }

  lemma {:induction false} UndoubleNoQuotes(s: string)
    requires '"' !in s
    ensures Undouble(s) == s
  {
    if s != [] {
      UndoubleNoQuotes(s[1..]);
    }
  }

  lemma {:induction false} DoubleQuotesNoQuotes(s: string)
    requires '"' !in s
    ensures DoubleQuotes(s) == s
  {
    if s != [] {
      DoubleQuotesNoQuotes(s[1..]);
    }
  }

  /** A field is quoted exactly when its own text holds a quote, a comma or a
      line feed; a quoted field has its quotes doubled, any other is unchanged. */
  lemma SanitizeMeaning(v: Option<string>)
    ensures v.Some? ==> (NeedsQuoting(DoubleQuotes(v.value)) <==> NeedsQuoting(v.value))
    ensures v.None? ==> Sanitize(v) == ""
    ensures v.Some? && NeedsQuoting(v.value) ==> Sanitize(v) == "\"" + DoubleQuotes(v.value) + "\""
    ensures v.Some? && !NeedsQuoting(v.value) ==> Sanitize(v) == v.value
  {
    if v.Some? {
      DoubleQuotesOther(v.value, ',');
      DoubleQuotesOther(v.value, '\n');
      if !NeedsQuoting(v.value) {
        DoubleQuotesNoQuotes(v.value);
      }
    }
  }

  /** Text that trimming leaves alone. */
  predicate Trimmed(s: string) {
    s != [] ==> !IsWhitespace(s[0]) && !IsWhitespace(s[|s| - 1])
  }

  /** A field that reads back unchanged: no line feed (lines are split before
      fields) and no surrounding white space (fields are trimmed). */
  predicate Exportable(v: Option<string>) {
    v.None? || ('\n' !in v.value && Trimmed(v.value))
  }

  lemma StripWrapped(d: string)
    ensures StripOuterQuotes("\"" + d + "\"") == d
  {
    var q := "\"" + d + "\"";
    assert q[1..] == d + "\"";
    assert (d + "\"")[..|d|] == d;
  }

  /** Cleaning a sanitized field gives its text back. */
  lemma CleanSanitize(v: Option<string>)
    requires Exportable(v)
    ensures Clean(Sanitize(v)) == Text(v)
  {
    SanitizeMeaning(v);
    if v.Some? {
      var s := v.value;
      if NeedsQuoting(s) {
        var d := DoubleQuotes(s);
        assert Sanitize(v) == "\"" + d + "\"";
        StripWrapped(d);
        UndoubleDoubleQuotes(s);
        TrimNoop(s);
        assert Undouble(StripOuterQuotes(Sanitize(v))) == s;
      } else {
        assert Sanitize(v) == s;
        StripNoQuotes(s);
        UndoubleNoQuotes(s);
        TrimNoop(s);
        assert Undouble(StripOuterQuotes(Sanitize(v))) == s;
      }
    } else {
      assert Sanitize(v) == "";
      TrimNoop("");
    }
  }

  lemma StripNoQuotes(s: string)
    requires '"' !in s
    ensures StripOuterQuotes(s) == s
  {
    if s != [] {
      assert s[0] in s && s[|s| - 1] in s;
    }
  }

  // ---------------------------------------------------------------------------
  // Scanning

  lemma {:induction false} RunAppend(st: Scan, a: string, b: string, keep: bool)
    ensures Run(st, a + b, keep) == Run(Run(st, a, keep), b, keep)
    decreases |b|
  {
    if b == [] {
      assert a + b == a;
    } else {
      var b' := b[..|b| - 1];
      assert (a + b)[..|a + b| - 1] == a + b';
      RunAppend(st, a, b', keep);
    }
  }

  /** Text with no quote, and no comma outside quotes, is copied into the field. */
  lemma {:induction false} RunPlain(st: Scan, s: string, keep: bool)
    requires '"' !in s && (st.inQuotes || ',' !in s)
    ensures Run(st, s, keep) == st.(current := st.current + s)
  {
    if s != [] {
      var p := s[..|s| - 1];
      assert s == p + [s[|s| - 1]];
      RunPlain(st, p, keep);
      assert st.current + p + [s[|s| - 1]] == st.current + s;
    }
  }

  /** A line without quotes is split at every comma and each piece trimmed,
      in either mode. */
  lemma QuoteFreeFields(line: string, keep: bool)
    ensures '"' !in line ==> CleanAll(RawFields(line, keep)) == Map(Split(line, ','), Trim)
  {
    if '"' !in line {
      var parts := Split(line, ',');
      JoinSplit(line, ',');
      SplitExcludes(line, ',', '"');
      forall i | 0 <= i < |parts|
        ensures ScansTo(parts[i], keep, parts[i])
      {
        PlainScans(parts[i], keep);
      }
      RawParts(parts, parts, keep);
      CleanQuoteFree(parts);
    }
  }

  lemma PlainScans(p: string, keep: bool)
    requires '"' !in p && ',' !in p
    ensures ScansTo(p, keep, p)
  {
    forall vs: seq<string>
      ensures Run(Scan(false, "", vs), p, keep) == Scan(false, p, vs)
    {
      RunPlain(Scan(false, "", vs), p, keep);
      assert "" + p == p;
    }
  }

  lemma CleanQuoteFree(parts: seq<string>)
    requires forall i :: 0 <= i < |parts| ==> '"' !in parts[i]
    ensures CleanAll(parts) == Map(parts, Trim)
  {
    forall i | 0 <= i < |parts|
      ensures Clean(parts[i]) == Trim(parts[i])
    {
      StripNoQuotes(parts[i]);
      UndoubleNoQuotes(parts[i]);
    }
  }

  /** Inside quotes, an escaped text is copied into the field as it stands. */
  lemma RunOne(st: Scan, c: char, keep: bool)
    ensures Run(st, [c], keep) == Step(st, c, keep)
  {
    assert [c][..0] == [];
  }

  /** Inside quotes, a doubled quote is copied into the field and the state is unchanged. */
  lemma RunDoubled(cur: string, vs: seq<string>)
    ensures Run(Scan(true, cur, vs), "\"\"", true) == Scan(true, cur + "\"\"", vs)
  {
    var q := "\"";
    assert "\"\"" == q + q;
    RunAppend(Scan(true, cur, vs), q, q, true);
    RunOne(Scan(true, cur, vs), '"', true);
    RunOne(Scan(false, cur + q, vs), '"', true);
    assert cur + q + q == cur + "\"\"";
  }

  /** Inside quotes, an escaped text is copied into the field as it stands. */
  lemma {:induction false} RunEscaped(cur: string, vs: seq<string>, s: string)
    ensures Run(Scan(true, cur, vs), DoubleQuotes(s), true) == Scan(true, cur + DoubleQuotes(s), vs)
    decreases |s|
  {
    if s != [] {
      var chunk := if s[0] == '"' then "\"\"" else [s[0]];
      var rest := DoubleQuotes(s[1..]);
      assert DoubleQuotes(s) == chunk + rest;
      RunAppend(Scan(true, cur, vs), chunk, rest, true);
      if s[0] == '"' {
        RunDoubled(cur, vs);
      } else {
        RunOne(Scan(true, cur, vs), s[0], true);
      }
      RunEscaped(cur + chunk, vs, s[1..]);
      Assoc(cur, chunk, rest);
    }
  }

  lemma Assoc<T>(a: seq<T>, b: seq<T>, c: seq<T>)
    ensures a + b + c == a + (b + c)
  {
  }

  /** Outside quotes, a quoted escaped text is copied into the field as it stands. */
  lemma RunQuoted(cur: string, vs: seq<string>, s: string)
    ensures Run(Scan(false, cur, vs), "\"" + DoubleQuotes(s) + "\"", true) ==
            Scan(false, cur + ("\"" + DoubleQuotes(s) + "\""), vs)
  {
    var q := "\"";
    var d := DoubleQuotes(s);
    var st := Scan(false, cur, vs);
    RunAppend(st, q + d, q, true);
    RunAppend(st, q, d, true);
    RunOne(st, '"', true);
    RunEscaped(cur + q, vs, s);
    RunOne(Scan(true, cur + q + d, vs), '"', true);
    assert cur + q + d + q == cur + (q + d + q);
  }

  /** Outside quotes, a sanitized field is copied into the field as it stands. */
  lemma RunField(cur: string, vs: seq<string>, v: Option<string>)
    requires Exportable(v)
    ensures Run(Scan(false, cur, vs), Sanitize(v), true) == Scan(false, cur + Sanitize(v), vs)
  {
    SanitizeMeaning(v);
    if v.Some? {
      var s := v.value;
      if NeedsQuoting(s) {
        RunQuoted(cur, vs, s);
      } else {
        RunPlain(Scan(false, cur, vs), s, true);
      }
    } else {
      assert cur + "" == cur;
    }
  }

  /** What the scanner keeps of a sanitized field before it is cleaned: the
      corrected splitter keeps the field as exported, the splitter as written
      keeps its text without the quotes. */
  function Scanned(v: Option<string>, keepQuotes: bool): string {
    if keepQuotes then Sanitize(v) else Text(v)
  }

  function ScannedAll(fs: seq<Option<string>>, keepQuotes: bool): (r: seq<string>)
    ensures |r| == |fs|
    ensures forall i :: 0 <= i < |fs| ==> r[i] == Scanned(fs[i], keepQuotes)
  {
    seq(|fs|, i requires 0 <= i < |fs| => Scanned(fs[i], keepQuotes))
  }

  /** A field whose text holds no double quote. */
  predicate QuoteFreeField(v: Option<string>) {
    '"' !in Text(v)
  }

  /** Outside quotes, `p` is scanned into a fresh field `out`, whatever was finished before. */
  ghost predicate ScansTo(p: string, keepQuotes: bool, out: string) {
    forall vs :: Run(Scan(false, "", vs), p, keepQuotes) == Scan(false, out, vs)
  }

  /** As written, a field without quotes is scanned into its text, whether or
      not the export enclosed it in quotes for a comma. */
  lemma AsWrittenRunField(s: string, vs: seq<string>)
    requires '"' !in s && Exportable(Some(s))
    ensures Run(Scan(false, "", vs), Sanitize(Some(s)), false) == Scan(false, s, vs)
  {
    SanitizeMeaning(Some(s));
    DoubleQuotesNoQuotes(s);
    var st := Scan(false, "", vs);
    if ',' in s {
      var q := "\"";
      assert Sanitize(Some(s)) == q + s + q;
      RunAppend(st, q + s, q, false);
      RunAppend(st, q, s, false);
      RunOne(st, '"', false);
      RunPlain(Scan(true, "", vs), s, false);
      assert "" + s == s;
      RunOne(Scan(true, s, vs), '"', false);
    } else {
      assert Sanitize(Some(s)) == s;
      RunPlain(st, s, false);
      assert "" + s == s;
    }
  }

  /** A sanitized field is scanned whole by the corrected splitter, and into
      its text by the splitter as written when it holds no quote. */
  lemma SanitizeScans(v: Option<string>, keepQuotes: bool)
    requires Exportable(v) && (keepQuotes || QuoteFreeField(v))
    ensures ScansTo(Sanitize(v), keepQuotes, Scanned(v, keepQuotes))
  {
    forall vs
      ensures Run(Scan(false, "", vs), Sanitize(v), keepQuotes) == Scan(false, Scanned(v, keepQuotes), vs)
    {
      if keepQuotes {
        RunField("", vs, v);
        assert "" + Sanitize(v) == Sanitize(v);
      } else if v.Some? {
        AsWrittenRunField(v.value, vs);
      } else {
        assert Sanitize(v) == [];
      }
    }
  }

  /** A part scanned into `out`, then a comma, finishes `out`. */
  lemma RunPartComma(vs: seq<string>, p: string, keepQuotes: bool, out: string)
    requires ScansTo(p, keepQuotes, out)
    ensures Run(Scan(false, "", vs), p + ",", keepQuotes) == Scan(false, "", vs + [out])
  {
    RunAppend(Scan(false, "", vs), p, ",", keepQuotes);
    RunOne(Scan(false, out, vs), ',', keepQuotes);
  }

  lemma JoinCons(parts: seq<string>)
    requires |parts| >= 2
    ensures Join(parts, ",") == parts[0] + "," + Join(parts[1..], ",")
  {
  }

  /** Parts that scan into `outs`, joined by commas, finish every out but the
      last, which is left as the current field. */
  lemma {:induction false} RunParts(vs: seq<string>, parts: seq<string>, outs: seq<string>, keepQuotes: bool)
    requires |parts| >= 1 && |outs| == |parts|
    requires forall i :: 0 <= i < |parts| ==> ScansTo(parts[i], keepQuotes, outs[i])
    ensures Run(Scan(false, "", vs), Join(parts, ","), keepQuotes) ==
            Scan(false, outs[|outs| - 1], vs + outs[..|outs| - 1])
    decreases |parts|
  {
    if |parts| == 1 {
      assert ScansTo(parts[0], keepQuotes, outs[0]);
      assert outs[..0] == [];
      assert vs + [] == vs;
    } else {
      var a := parts[0];
      var rest := parts[1..];
      JoinCons(parts);
      RunAppend(Scan(false, "", vs), a + ",", Join(rest, ","), keepQuotes);
      assert ScansTo(parts[0], keepQuotes, outs[0]);
      RunPartComma(vs, a, keepQuotes, outs[0]);
      assert forall i :: 0 <= i < |rest| ==> rest[i] == parts[i + 1] && outs[1..][i] == outs[i + 1];
      RunParts(vs + [outs[0]], rest, outs[1..], keepQuotes);
      assert outs[1..][|outs| - 2] == outs[|outs| - 1];
      ConsPrefix(vs, outs);
    }
  }

  lemma ConsPrefix<T>(vs: seq<T>, parts: seq<T>)
    requires |parts| >= 2
    ensures vs + [parts[0]] + parts[1..][..|parts| - 2] == vs + parts[..|parts| - 1]
  {
    assert [parts[0]] + parts[1..][..|parts| - 2] == parts[..|parts| - 1];
  }

  lemma SnocLast<T>(vs: seq<T>, parts: seq<T>)
    requires |parts| >= 1
    ensures vs + parts[..|parts| - 1] + [parts[|parts| - 1]] == vs + parts
  {
    assert parts[..|parts| - 1] + [parts[|parts| - 1]] == parts;
  }

  /** The scanner finds exactly the outs of comma-joined parts. */
  lemma RawParts(parts: seq<string>, outs: seq<string>, keepQuotes: bool)
    requires |parts| >= 1 && |outs| == |parts|
    requires forall i :: 0 <= i < |parts| ==> ScansTo(parts[i], keepQuotes, outs[i])
    ensures RawFields(Join(parts, ","), keepQuotes) == outs
  {
    RunParts([], parts, outs, keepQuotes);
    SnocLast([], outs);
  }

  /** The scanner splits a row of sanitized fields at exactly the separating
      commas: the corrected one keeps each field as exported, the one as
      written keeps the text of each quote-free field. */
  lemma RawRow(fs: seq<Option<string>>, keepQuotes: bool)
    requires |fs| >= 1
    requires forall i :: 0 <= i < |fs| ==> Exportable(fs[i]) && (keepQuotes || QuoteFreeField(fs[i]))
    ensures RawFields(Join(SanitizeAll(fs), ","), keepQuotes) == ScannedAll(fs, keepQuotes)
  {
    var parts := SanitizeAll(fs);
    var outs := ScannedAll(fs, keepQuotes);
    forall i | 0 <= i < |parts|
      ensures ScansTo(parts[i], keepQuotes, outs[i])
    {
      SanitizeScans(fs[i], keepQuotes);
    }
    RawParts(parts, outs, keepQuotes);
  }

  lemma CleanScannedAll(fs: seq<Option<string>>, keepQuotes: bool)
    requires forall i :: 0 <= i < |fs| ==> Exportable(fs[i]) && (keepQuotes || QuoteFreeField(fs[i]))
    ensures CleanAll(ScannedAll(fs, keepQuotes)) == Texts(fs)
  {
    forall i | 0 <= i < |fs|
      ensures CleanAll(ScannedAll(fs, keepQuotes))[i] == Texts(fs)[i]
    {
      CleanScanned(fs[i], keepQuotes);
    }
  }

  lemma CleanScanned(v: Option<string>, keepQuotes: bool)
    requires Exportable(v) && (keepQuotes || QuoteFreeField(v))
    ensures Clean(Scanned(v, keepQuotes)) == Text(v)
  {
    if keepQuotes {
      CleanSanitize(v);
    } else {
      CleanNoQuotes(Text(v));
    }
  }

  /** A row of sanitized fields splits back into the fields' texts: always
      with the corrected splitter, and with the splitter as written when no
      field holds a quote. */
  lemma RowRoundTrip(fs: seq<Option<string>>, keepQuotes: bool)
    requires |fs| >= 1
    requires forall i :: 0 <= i < |fs| ==> Exportable(fs[i]) && (keepQuotes || QuoteFreeField(fs[i]))
    ensures SplitFields(Join(SanitizeAll(fs), ","), keepQuotes) == Texts(fs)
  {
    RawRow(fs, keepQuotes);
    CleanScannedAll(fs, keepQuotes);
  }

  // ---------------------------------------------------------------------------
  // The splitter as written

  lemma CleanNoQuotes(cur: string)
    requires '"' !in cur
    ensures '"' !in Clean(cur)
    ensures Trimmed(cur) ==> Clean(cur) == cur
  {
    StripNoQuotes(cur);
    UndoubleNoQuotes(cur);
    TrimExcludes(cur, '"');
    if Trimmed(cur) {
      TrimNoop(cur);
    }
  }

  predicate QuoteFree(st: Scan) {
    '"' !in st.current && forall f :: f in st.fields ==> '"' !in f
  }

  lemma {:induction false} RunAsWrittenQuoteFree(s: string)
    ensures QuoteFree(Run(ScanStart, s, false))
  {
    if s != [] {
      RunAsWrittenQuoteFree(s[..|s| - 1]);
    }
  }

  /** As written, no parsed value ever holds a quote character. */
  lemma AsWrittenDropsQuotes(line: string)
    ensures forall v :: v in SplitFields(line, false) ==> '"' !in v
  {
    RunAsWrittenQuoteFree(line);
    var raw := RawFields(line, false);
    forall i | 0 <= i < |raw|
      ensures '"' !in CleanAll(raw)[i]
    {
      CleanNoQuotes(raw[i]);
    }
  }

  /** As written, a field without quotes reads back after export, whether or
      not the export had to enclose it in quotes for a comma. */
  lemma AsWrittenFieldRoundTrip(v: Option<string>)
    requires QuoteFreeField(v) && Exportable(v)
    ensures SplitFields(Sanitize(v), false) == [Text(v)]
  {
    var fs := [v];
    assert fs[1..] == [];
    assert SanitizeAll(fs) == [Sanitize(v)];
    RowRoundTrip(fs, false);
    assert Texts(fs) == [Text(v)];
  }

  lemma SanitizeQuoteExample()
    ensures Sanitize(Some("a\"b")) == "\"a\"\"b\""
  {
    DoubleQuotesNoQuotes("b");
    assert "\"b"[1..] == "b";
    assert DoubleQuotes("\"b") == "\"\"b";
    assert "a\"b"[1..] == "\"b";
    assert DoubleQuotes("a\"b") == "a\"\"b";
    assert "a\"\"b"[1] == '"';
  }

  /** Corrected splitter: one sanitized field reads back as its text. */
  lemma FieldRoundTrip(v: Option<string>)
    requires Exportable(v)
    ensures SplitFields(Sanitize(v), true) == [Text(v)]
  {
    var fs := [v];
    assert fs[1..] == [];
    assert SanitizeAll(fs) == [Sanitize(v)];
    RowRoundTrip(fs, true);
    assert Texts(fs) == [Text(v)];
  }

  /** As written, no exported field holding a quote reads back. */
  lemma AsWrittenLosesQuotes(v: Option<string>)
    requires '"' in Text(v)
    ensures SplitFields(Sanitize(v), false) != [Text(v)]
  {
    AsWrittenDropsQuotes(Sanitize(v));
    var r := SplitFields(Sanitize(v), false);
    if |r| == 1 {
      assert r[0] in r;
    }
  }

  /** The field `a"b` exports as `"a""b"`; as written it reads back without
      its quote, and corrected it reads back as it was. */
  lemma QuoteExample(s: string)
    requires s == "a\"b"
    ensures Sanitize(Some(s)) == "\"a\"\"b\""
    ensures SplitFields(Sanitize(Some(s)), false) != [s]
    ensures SplitFields(Sanitize(Some(s)), true) == [s]
  {
    assert Exportable(Some(s)) by {
      assert |s| == 3 && s[0] == 'a' && s[1] == '"' && s[2] == 'b';
    }
    SanitizeQuoteExample();
    AsWrittenLosesQuotes(Some(s));
    FieldRoundTrip(Some(s));
  }
}
