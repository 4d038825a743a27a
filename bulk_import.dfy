/** Bulk insertion of imported rows (app/actions/import.ts): every parsed CSV
    record becomes one lead row with defaults for the missing columns, all
    assigned to the caller. The insert itself is a database call; its answer
    is a parameter. */
module BulkImport {
  import opened Common
  import opened ImportExport
  import opened CsvRoundTrip

  datatype User = User(id: string, role: Option<string>)

  /** The row sent to the `leads` table. The expected value is kept as the
      text handed to `parseFloat`. */
  datatype LeadRow = LeadRow(name: string, email: Option<string>, phone: Option<string>,
                             company: Option<string>, location: Option<string>,
                             source: string, status: string, expectedValueText: string,
                             notes: Option<string>, assignedRepId: string)

  /** What the insert answered: the inserted rows, or an error message. */
  datatype InsertResponse = InsertResponse(data: Option<seq<LeadRow>>, error: Option<string>)

  datatype BulkResult = Unauthorized | Failed(message: string) | Inserted(count: nat)

  const UnknownLead := "Unknown Lead"

  /** The object literal of the `map` callback. */
  function ToLeadRow(row: Record, user: User): LeadRow {
    LeadRow(OrElse(Lookup(row, "name"), UnknownLead),
            NonEmpty(Lookup(row, "email")),
            NonEmpty(Lookup(row, "phone")),
            NonEmpty(Lookup(row, "company")),
            NonEmpty(Lookup(row, "location")),
            OrElse(Lookup(row, "source"), "Import"),
            OrElse(Lookup(row, "status"), "New"),
            OrElse(Lookup(row, "expected_value"), "0"),
            NonEmpty(Lookup(row, "notes")),
            if user.role == Some("SalesRep") then user.id else user.id)
  }

  /** `leadsData.map(...)`: one row per record, in record order. */
  function InsertData(leadsData: seq<Record>, user: User): (r: seq<LeadRow>)
    ensures |r| == |leadsData|
    ensures forall i :: 0 <= i < |leadsData| ==> r[i] == ToLeadRow(leadsData[i], user)
  {
    Map(leadsData, (row: Record) => ToLeadRow(row, user))
  }

  /** `bulkInsertLeads`: without a user it throws before anything is sent; an
      insert error is reported with its message; otherwise the count is the
      number of rows the insert returned, or 0 when it returned none. */
  function BulkInsertLeads(user: Option<User>, response: InsertResponse): (r: BulkResult)
    ensures r == Unauthorized <==> user.None?
    ensures r.Failed? <==> user.Some? && response.error.Some?
    ensures r.Failed? ==> r.message == response.error.value
    ensures r.Inserted? ==> (r.count > 0 <==> response.data.Some? && response.data.value != [])
    ensures r.Inserted? && response.data.Some? ==> r.count == |response.data.value|
  {
    if user.None? then Unauthorized
    else if response.error.Some? then Failed(response.error.value)
    else Inserted(if response.data.Some? then |response.data.value| else 0)
  }

  /** The rows sent to the database, or none when there is no user. */
  function InsertRequest(leadsData: seq<Record>, user: Option<User>): (r: Option<seq<LeadRow>>)
    ensures r.None? <==> user.None?
    ensures r.Some? ==> |r.value| == |leadsData|
  {
    if user.None? then None else Some(InsertData(leadsData, user.value))
  }

  /** The defaults: a row always has a name, a source and a status, never an
      empty nullable column, and belongs to the caller whatever the role. */
  lemma RowDefaults(row: Record, user: User)
    ensures ToLeadRow(row, user).name != "" && ToLeadRow(row, user).source != "" &&
            ToLeadRow(row, user).status != "" && ToLeadRow(row, user).expectedValueText != ""
    ensures ToLeadRow(row, user).name == UnknownLead <==> !Truthy(Lookup(row, "name")) || row["name"] == UnknownLead
    ensures ToLeadRow(row, user).source == "Import" <==> !Truthy(Lookup(row, "source")) || row["source"] == "Import"
    ensures ToLeadRow(row, user).status == "New" <==> !Truthy(Lookup(row, "status")) || row["status"] == "New"
    ensures !Truthy(ToLeadRow(row, user).email) ==> ToLeadRow(row, user).email == None
    ensures !Truthy(ToLeadRow(row, user).phone) ==> ToLeadRow(row, user).phone == None
    ensures !Truthy(ToLeadRow(row, user).company) ==> ToLeadRow(row, user).company == None
    ensures !Truthy(ToLeadRow(row, user).location) ==> ToLeadRow(row, user).location == None
    ensures !Truthy(ToLeadRow(row, user).notes) ==> ToLeadRow(row, user).notes == None
    ensures ToLeadRow(row, user).assignedRepId == user.id
  {
  }

  /** A non-empty column is carried over unchanged. */
  lemma PresentColumnsKept(row: Record, user: User)
    ensures "name" in row && row["name"] != "" ==> ToLeadRow(row, user).name == row["name"]
    ensures "email" in row && row["email"] != "" ==> ToLeadRow(row, user).email == Some(row["email"])
    ensures "phone" in row && row["phone"] != "" ==> ToLeadRow(row, user).phone == Some(row["phone"])
    ensures "company" in row && row["company"] != "" ==> ToLeadRow(row, user).company == Some(row["company"])
    ensures "location" in row && row["location"] != "" ==> ToLeadRow(row, user).location == Some(row["location"])
    ensures "source" in row && row["source"] != "" ==> ToLeadRow(row, user).source == row["source"]
    ensures "status" in row && row["status"] != "" ==> ToLeadRow(row, user).status == row["status"]
    ensures "expected_value" in row && row["expected_value"] != "" ==>
              ToLeadRow(row, user).expectedValueText == row["expected_value"]
    ensures "notes" in row && row["notes"] != "" ==> ToLeadRow(row, user).notes == Some(row["notes"])
  {
  }

  // ---------------------------------------------------------------------------
  // Exported leads inserted again

  /** The row an exported lead should come back as: its own values, with the
      import's defaults wherever the lead had nothing. */
  function ReimportedRow(l: ExportLead, user: User): LeadRow {
    LeadRow(OrElse(l.name, UnknownLead), NonEmpty(l.email), NonEmpty(l.phone),
            NonEmpty(l.company), NonEmpty(l.location), OrElse(l.source, "Import"),
            OrElse(l.status, "New"), OrElse(l.expectedValue, "0"), NonEmpty(l.notes), user.id)
  }

  lemma TextOrElse(v: Option<string>, d: string)
    ensures OrElse(Some(Text(v)), d) == OrElse(v, d)
    ensures NonEmpty(Some(Text(v))) == NonEmpty(v)
  {
  }

  /** The record the import builds for a lead gives back the lead's values. */
  lemma LeadRecordRow(l: ExportLead, user: User)
    ensures ToLeadRow(LeadRecord(l), user) == ReimportedRow(l, user)
  {
    var r := LeadRecord(l);
    LeadRecordFields(l);
    var f := Fields(l);
    assert ImportKeys[0] == "name" && ImportKeys[1] == "email" && ImportKeys[2] == "phone";
    assert ImportKeys[3] == "company" && ImportKeys[4] == "location" && ImportKeys[5] == "source";
    assert ImportKeys[6] == "status" && ImportKeys[7] == "expected_value" && ImportKeys[8] == "notes";
    assert Lookup(r, "name") == Some(Text(l.name));
    assert Lookup(r, "email") == Some(Text(l.email));
    assert Lookup(r, "phone") == Some(Text(l.phone));
    assert Lookup(r, "company") == Some(Text(l.company));
    assert Lookup(r, "location") == Some(Text(l.location));
    assert Lookup(r, "source") == Some(Text(l.source));
    assert Lookup(r, "status") == Some(Text(l.status));
    assert Lookup(r, "expected_value") == Some(Text(l.expectedValue));
    assert Lookup(r, "notes") == Some(Text(l.notes));
    TextOrElse(l.name, UnknownLead);
    TextOrElse(l.email, "");
    TextOrElse(l.phone, "");
    TextOrElse(l.company, "");
    TextOrElse(l.location, "");
    TextOrElse(l.source, "Import");
    TextOrElse(l.status, "New");
    TextOrElse(l.expectedValue, "0");
    TextOrElse(l.notes, "");
  }

  /** Exporting leads, importing the file and inserting the records sends
      one row per lead, in order, holding that lead's values, for the leads
      the chosen splitter reads back. */
  lemma ExportImportInsert(leads: seq<ExportLead>, user: User, keepQuotes: bool)
    requires leads != [] && ReadsBack(leads, keepQuotes)
    ensures InsertData(ParseSpec(ExportCsv(leads).value, keepQuotes), user) ==
            Map(leads, (l: ExportLead) => ReimportedRow(l, user))
  {
    ExportImportRoundTrip(leads, keepQuotes);
    var recs := ParseSpec(ExportCsv(leads).value, keepQuotes);
    forall i | 0 <= i < |leads|
      ensures InsertData(recs, user)[i] == ReimportedRow(leads[i], user)
    {
      LeadRecordRow(leads[i], user);
    }
  }
}
