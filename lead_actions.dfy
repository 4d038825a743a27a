/** The lead server actions (app/actions/leads.ts): parsing the
    comma-separated tags field, the rep-assignment and default rules of a new
    lead, the SalesRep ownership checks, and the `updates` record with its
    undefined entries removed. The signed-in user, the ownership lookup and
    the database answers are parameters; every action returns the writes it
    makes, in order. */
module LeadActions {
  import opened Common

  datatype User = User(id: string, role: Option<string>)

  predicate IsSalesRep(u: User) {
    u.role == Some("SalesRep")
  }

  /** The submitted form, field name to text. */
  type FormData = map<string, string>

  // ---------------------------------------------------------------------------
  // Tags

  /** The trimmed pieces that are not empty, in order: each one non-empty and
      its own trim. */
  function TrimmedNonBlank(pieces: seq<string>): (r: seq<string>)
    ensures |r| <= |pieces|
    ensures forall t :: t in r ==> t != "" && Trim(t) == t
  {
    if pieces == [] then []
    else
      var last := pieces[|pieces| - 1];
      var t := Trim(last);
      TrimIdempotent(last);
      TrimmedNonBlank(pieces[..|pieces| - 1]) + (if t != "" then [t] else [])
  }

  /** Trimming adds no comma. */
  lemma {:induction false} TrimmedNoComma(pieces: seq<string>)
    requires forall p :: p in pieces ==> ',' !in p
    ensures forall t :: t in TrimmedNonBlank(pieces) ==> ',' !in t
  {
    if pieces != [] {
      var init, last := pieces[..|pieces| - 1], pieces[|pieces| - 1];
      assert forall p :: p in init ==> p in pieces;
      TrimmedNoComma(init);
      assert last in pieces;
      TrimExcludes(last, ',');
      var t := Trim(last);
      assert TrimmedNonBlank(pieces) == TrimmedNonBlank(init) + (if t != "" then [t] else []);
    }
  }

  /** The images of the pieces under `f` that are not empty, in order. */
  function NonEmptyImages(pieces: seq<string>, f: string -> string): (r: seq<string>)
    ensures |r| <= |pieces|
  {
    if pieces == [] then []
    else
      var t := f(pieces[|pieces| - 1]);
      NonEmptyImages(pieces[..|pieces| - 1], f) + (if t != "" then [t] else [])
  }

  /** `tagsString.split(',').map(t => t.trim()).filter(Boolean)`: every tag is
      non-empty, its own trim and free of commas. */
  function ParseTags(s: string): (r: seq<string>)
    ensures forall i :: 0 <= i < |r| ==> CleanTag(r[i])
  {
    var pieces := Split(s, ',');
    assert forall p :: p in pieces ==> ',' !in p;
    TrimmedNoComma(pieces);
    var tags := TrimmedNonBlank(pieces);
    assert forall i :: 0 <= i < |tags| ==> tags[i] in tags;
    tags
  }

  /** A tag that is its own trim and holds no comma. */
  predicate CleanTag(t: string) {
    t != "" && Trim(t) == t && ',' !in t
  }

  function Pad(t: string): string {
    " " + t
  }

  /** A leading space does not survive trimming. */
  lemma TrimPad(t: string)
    ensures Trim(Pad(t)) == Trim(t)
  {
    assert Pad(t)[1..] == t;
  }

  /** The pieces of a `", "`-join split at the commas: every tag after the
      first keeps the space in front of it. */
  lemma {:induction false} SplitJoined(tags: seq<string>)
    requires |tags| >= 1
    requires forall i :: 0 <= i < |tags| ==> ',' !in tags[i]
    ensures Split(Join(tags, ", "), ',') == [tags[0]] + Map(tags[1..], Pad)
  {
    if |tags| == 1 {
      SplitNoSeparator(tags[0], ',');
    } else {
      var rest := tags[1..];
      var j := Join(rest, ", ");
      SplitJoined(rest);
      JoinComma(tags);
      SplitPrefix(tags[0], Pad(j), ',');
      SplitPadded(j);
      MapPadCons(rest);
    }
  }

  lemma JoinComma(tags: seq<string>)
    requires |tags| >= 2
    ensures Join(tags, ", ") == tags[0] + [','] + Pad(Join(tags[1..], ", "))
  {
  }

  lemma SplitPadded(x: string)
    ensures Split(Pad(x), ',') == [Pad(Split(x, ',')[0])] + Split(x, ',')[1..]
  {
    assert Pad(x)[1..] == x;
  }

  lemma MapPadCons(tags: seq<string>)
    requires |tags| >= 1
    ensures [Pad(tags[0])] + Map(tags[1..], Pad) == Map(tags, Pad)
  {
  }

  /** Trimming the pieces and dropping the empty ones is the general
      map-then-filter with `Trim` as the map. */
  lemma {:induction false} TrimmedImages(pieces: seq<string>)
    ensures TrimmedNonBlank(pieces) == NonEmptyImages(pieces, Trim)
  {
    if pieces != [] {
      TrimmedImages(pieces[..|pieces| - 1]);
    }
  }

  /** Pieces whose images are non-empty tags give exactly those tags. */
  lemma {:induction false} ImagesAll(pieces: seq<string>, f: string -> string, tags: seq<string>)
    requires |pieces| == |tags|
    requires forall i :: 0 <= i < |pieces| ==> f(pieces[i]) == tags[i] && tags[i] != ""
    ensures NonEmptyImages(pieces, f) == tags
  {
    if pieces != [] {
      var n := |pieces| - 1;
      ImagesAll(pieces[..n], f, tags[..n]);
      assert tags == tags[..n] + [tags[n]];
    }
  }

  /** Comma-free pieces give clean tags. */
  lemma {:induction false} TrimmedClean(pieces: seq<string>)
    requires forall i :: 0 <= i < |pieces| ==> ',' !in pieces[i]
    ensures forall i :: 0 <= i < |TrimmedNonBlank(pieces)| ==> CleanTag(TrimmedNonBlank(pieces)[i])
  {
    if pieces != [] {
      var n := |pieces| - 1;
      var front := TrimmedNonBlank(pieces[..n]);
      var last := Trim(pieces[n]);
      TrimmedClean(pieces[..n]);
      PieceClean(pieces[n]);
      var r := front + (if last != "" then [last] else []);
      assert TrimmedNonBlank(pieces) == r;
      forall i | 0 <= i < |r|
        ensures CleanTag(r[i])
      {
        if i < |front| {
          assert r[i] == front[i];
        }
      }
    }
  }

  lemma PieceClean(p: string)
    requires ',' !in p
    ensures Trim(p) != "" ==> CleanTag(Trim(p))
  {
    TrimIdempotent(p);
    TrimExcludes(p, ',');
  }

  /** A parsed tag is never empty, never padded and never holds a comma. */
  lemma ParsedTagsClean(s: string)
    ensures forall i :: 0 <= i < |ParseTags(s)| ==> CleanTag(ParseTags(s)[i])
  {
    TrimmedClean(Split(s, ','));
  }

  /** The edit form shows the tags joined by `", "`; submitting it unchanged
      parses back to the same tags when each is clean. */
  lemma TagsRoundTrip(tags: seq<string>)
    requires forall i :: 0 <= i < |tags| ==> CleanTag(tags[i])
    ensures ParseTags(Join(tags, ", ")) == tags
  {
    if tags == [] {
      ParseEmpty();
    } else {
      PiecesTrimToTags(tags);
      ImagesAll(Split(Join(tags, ", "), ','), Trim, tags);
      TrimmedImages(Split(Join(tags, ", "), ','));
    }
  }

  lemma ParseEmpty()
    ensures ParseTags("") == []
  {
    assert Split("", ',') == [""];
    assert [""][..0] == [];
  }

  /** Each piece of the split join trims to its tag. */
  lemma PiecesTrimToTags(tags: seq<string>)
    requires |tags| >= 1
    requires forall i :: 0 <= i < |tags| ==> CleanTag(tags[i])
    ensures |Split(Join(tags, ", "), ',')| == |tags|
    ensures forall i :: 0 <= i < |tags| ==> Trim(Split(Join(tags, ", "), ',')[i]) == tags[i] && tags[i] != ""
  {
    SplitJoined(tags);
    var pieces := Split(Join(tags, ", "), ',');
    forall i | 0 <= i < |tags|
      ensures Trim(pieces[i]) == tags[i]
    {
      PieceTrim(tags, i);
    }
  }

  lemma PieceTrim(tags: seq<string>, i: nat)
    requires i < |tags|
    requires CleanTag(tags[i])
    requires |tags| >= 1
    ensures Trim(([tags[0]] + Map(tags[1..], Pad))[i]) == tags[i]
  {
    var pieces := [tags[0]] + Map(tags[1..], Pad);
    if i == 0 {
      assert pieces[0] == tags[0];
    } else {
      var padded := Map(tags[1..], Pad);
      assert pieces[i] == padded[i - 1];
      assert tags[1..][i - 1] == tags[i];
      assert padded[i - 1] == Pad(tags[i]);
      TrimPad(tags[i]);
    }
  }

  // ---------------------------------------------------------------------------
  // The records sent to the database

  /** The rep a new lead is assigned to: a SalesRep always gets the lead;
      anyone else assigns the chosen rep, or themself when none is chosen. */
  function AssignedRepOnCreate(user: User, input: Option<string>): (r: string)
    ensures IsSalesRep(user) ==> r == user.id
    ensures r != user.id ==> !IsSalesRep(user) && Truthy(input) && r == input.value
    ensures !IsSalesRep(user) && Truthy(input) ==> r == input.value
  {
    if user.role == Some("SalesRep") then user.id else if Truthy(input) then input.value else user.id
  }

  /** The inserted lead. `expectedValue` is the text handed to `parseFloat`,
      absent when the value is 0; `createdAt` the text handed to `new Date`. */
  datatype NewLead = NewLead(name: Option<string>, email: Option<string>, phone: Option<string>,
                             company: Option<string>, location: Option<string>,
                             source: string, status: string, assignedRepId: string,
                             expectedValue: Option<string>, notes: Option<string>,
                             createdAt: Option<string>)

  /** The `newLead` object of `createLead`: it always has a source and a
      status, a SalesRep's lead is their own, and the expected value and the
      creation date are passed on exactly when the form gives a non-empty text. */
  function NewLeadOf(form: FormData, user: User): (r: NewLead)
    ensures r.source != "" && r.status != ""
    ensures IsSalesRep(user) ==> r.assignedRepId == user.id
    ensures r.expectedValue.Some? <==> Truthy(Lookup(form, "expected_value"))
    ensures r.createdAt.Some? <==> Truthy(Lookup(form, "created_at"))
  {
    NewLead(Lookup(form, "name"), Lookup(form, "email"), Lookup(form, "phone"), Lookup(form, "company"),
            Lookup(form, "location"), OrElse(Lookup(form, "source"), "Website"),
            OrElse(Lookup(form, "status"), "New"),
            AssignedRepOnCreate(user, Lookup(form, "assigned_rep_id")),
            if Truthy(Lookup(form, "expected_value")) then Lookup(form, "expected_value") else None,
            Lookup(form, "notes"),
            if Truthy(Lookup(form, "created_at")) then Lookup(form, "created_at") else None)
  }

  /** A new lead always has a source and a status: Website and New unless the form gives one. */
  lemma CreateDefaults(form: FormData, user: User)
    ensures NewLeadOf(form, user).source != "" && NewLeadOf(form, user).status != ""
    ensures NewLeadOf(form, user).source == "Website" <==>
              !Truthy(Lookup(form, "source")) || form["source"] == "Website"
    ensures NewLeadOf(form, user).status == "New" <==>
              !Truthy(Lookup(form, "status")) || form["status"] == "New"
    ensures Truthy(Lookup(form, "source")) ==> NewLeadOf(form, user).source == form["source"]
    ensures Truthy(Lookup(form, "status")) ==> NewLeadOf(form, user).status == form["status"]
    ensures IsSalesRep(user) ==> NewLeadOf(form, user).assignedRepId == user.id
  {
  }

  /** A value of the `updates` record: `undefined`, `null`, a form text, the
      result of `parseFloat` on a text or the literal 0, or a date parsed from a text. */
  datatype Value = Undefined | Null | Str(s: string) | Float(text: string) | Zero | Date(text: string)

  /** A form field as the record holds it: `null` when the form lacks it. */
  function FromForm(o: Option<string>): (v: Value)
    ensures v != Undefined
  {
    if o.Some? then Str(o.value) else Null
  }

  /** The columns of the `updates` record, named after its keys (`name`,
      `email`, ..., `assigned_rep_id`, `expected_value`, `notes`, `created_at`). */
  datatype Column = NameCol | EmailCol | PhoneCol | CompanyCol | LocationCol | SourceCol
                  | StatusCol | AssignedRepCol | ExpectedValueCol | NotesCol | CreatedAtCol

  /** The `updates` object of `updateLead`, before pruning: the creation date
      is set only for a non-empty text, and the assignment is always set and
      left `undefined` exactly for a SalesRep. */
  function UpdatesOf(form: FormData, user: User): (r: map<Column, Value>)
    ensures CreatedAtCol in r <==> Truthy(Lookup(form, "created_at"))
    ensures AssignedRepCol in r
    ensures r[AssignedRepCol] == Undefined <==> IsSalesRep(user)
  {
    var rep := Lookup(form, "assigned_rep_id");
    var ev := Lookup(form, "expected_value");
    var created := Lookup(form, "created_at");
    var updates := map[NameCol := FromForm(Lookup(form, "name")),
                       EmailCol := FromForm(Lookup(form, "email")),
                       PhoneCol := FromForm(Lookup(form, "phone")),
                       CompanyCol := FromForm(Lookup(form, "company")),
                       LocationCol := FromForm(Lookup(form, "location")),
                       SourceCol := FromForm(Lookup(form, "source")),
                       StatusCol := FromForm(Lookup(form, "status")),
                       AssignedRepCol := (if IsSalesRep(user) then Undefined
                                          else if Truthy(rep) then Str(rep.value) else Null),
                       ExpectedValueCol := (if Truthy(ev) then Float(ev.value) else Zero),
                       NotesCol := FromForm(Lookup(form, "notes"))];
    if Truthy(created) then updates[CreatedAtCol := Date(created.value)] else updates
  }

  /** The entries of a record that are not `undefined`. */
  function Defined(updates: map<Column, Value>): (r: map<Column, Value>)
    ensures forall k :: k in r <==> k in updates && updates[k] != Undefined
    ensures forall k :: k in r ==> r[k] == updates[k]
  {
    map k | k in updates && updates[k] != Undefined :: updates[k]
  }

  /** `Object.keys(updates).forEach(key => updates[key] === undefined && delete updates[key])`. */
  method PruneUndefined(updates: map<Column, Value>) returns (pruned: map<Column, Value>)
    ensures pruned == Defined(updates)
  {
    pruned := updates;
    var keys := updates.Keys;
    while keys != {}
      invariant keys <= updates.Keys
      invariant forall k :: k in pruned <==> k in updates && (k in keys || updates[k] != Undefined)
      invariant forall k :: k in pruned ==> pruned[k] == updates[k]
      decreases |keys|
    {
      var k :| k in keys;
      if pruned[k] == Undefined {
        pruned := pruned - {k};
      }
      keys := keys - {k};
    }
  }

  /** A SalesRep's update never touches the assignment; an Admin's empty
      choice clears it to `null`. */
  lemma UpdateAssignment(form: FormData, user: User)
    ensures IsSalesRep(user) ==> AssignedRepCol !in Defined(UpdatesOf(form, user))
    ensures !IsSalesRep(user) && !Truthy(Lookup(form, "assigned_rep_id")) ==>
              Defined(UpdatesOf(form, user))[AssignedRepCol] == Null
    ensures !IsSalesRep(user) && Truthy(Lookup(form, "assigned_rep_id")) ==>
              Defined(UpdatesOf(form, user))[AssignedRepCol] == Str(form["assigned_rep_id"])
  {
  }

  /** Every other column is written, the creation date only when the form gives one. */
  lemma UpdateColumns(form: FormData, user: User)
    ensures forall c :: c in Defined(UpdatesOf(form, user)) <==>
              match c
              case AssignedRepCol => !IsSalesRep(user)
              case CreatedAtCol => Truthy(Lookup(form, "created_at"))
              case _ => true
  {
    var u := UpdatesOf(form, user);
    forall c
      ensures c in Defined(u) <==> match c
                                    case AssignedRepCol => !IsSalesRep(user)
                                    case CreatedAtCol => Truthy(Lookup(form, "created_at"))
                                    case _ => true
    {
      match c
      case CreatedAtCol =>
      case AssignedRepCol =>
      case _ => assert c in u && u[c] != Undefined;
    }
  }

  // ---------------------------------------------------------------------------
  // The actions

  /** What the ownership lookup of a SalesRep found: nothing, or the lead and
      its assigned rep. For a follow-up the lookup goes through its lead, and
      a follow-up without a lead counts as not found. */
  datatype Existing = NotFound | Found(assignedRepId: Option<string>)

  /** Everyone but a SalesRep passes; a SalesRep only on a lead assigned to them. */
  predicate MayTouch(user: User, existing: Existing) {
    !IsSalesRep(user) || (existing.Found? && existing.assignedRepId == Some(user.id))
  }

  datatype Write =
    | InsertLead(lead: NewLead)
    | InsertTags(leadId: string, tags: seq<string>)
    | UpdateLeadRow(id: string, updates: map<Column, Value>)
    | DeleteTags(leadId: string)
    | UpdateLeadStatusRow(id: string, status: string)
    | DeleteLeadRow(id: string)
    | InsertActivity(activityLeadId: string, kind: Option<string>, notes: Option<string>)
    | InsertFollowup(followupLeadId: string, dueDate: Option<string>, followupStatus: string)
    | UpdateFollowupRow(followupId: string, newStatus: string)

  /** How an action ends: it throws, returns an error, or succeeds (`createLead`
      with the new lead's id). */
  datatype ActionResult = Thrown(message: string) | Failure(error: string) | Success | Created(id: string)

  const NotSignedIn := "Unauthorized"
  const RepUpdateDenied := "Unauthorized: You can only update your assigned leads."
  const RepDeleteDenied := "Unauthorized: Only Admins can delete leads."
  const RepAddDenied := "Unauthorized"

  /** The answer of a database write: an error message or none. */
  function Answered(error: Option<string>, success: ActionResult): (r: ActionResult)
    ensures error.Some? ==> r == Failure(error.value)
    ensures error.None? ==> r == success
  {
    if error.Some? then Failure(error.value) else success
  }

  /** The tag rows inserted for a lead: none when nothing parses. */
  function TagWrites(leadId: string, tags: seq<string>): (w: seq<Write>)
    ensures w == [] <==> tags == []
  {
    if |tags| > 0 then [InsertTags(leadId, tags)] else []
  }

  /** `createLead`: the lead is inserted; then, when the tags field is
      non-empty, its parsed tags are inserted for the new id. The answer of
      the tags insert is not looked at. */
  method CreateLead(caller: Option<User>, form: FormData, newId: string, insertError: Option<string>)
    returns (result: ActionResult, writes: seq<Write>)
    ensures caller.None? ==> result == Thrown(NotSignedIn) && writes == []
    ensures caller.Some? && insertError.Some? ==>
              result == Failure(insertError.value) && writes == [InsertLead(NewLeadOf(form, caller.value))]
    ensures caller.Some? && insertError.None? ==>
              result == Created(newId) &&
              writes == [InsertLead(NewLeadOf(form, caller.value))] +
                        (if Truthy(Lookup(form, "tags")) then TagWrites(newId, ParseTags(form["tags"])) else [])
  {
    if caller.None? {
      return Thrown(NotSignedIn), [];
    }
    var user := caller.value;
    var newLead := NewLeadOf(form, user);
    writes := [InsertLead(newLead)];
    if insertError.Some? {
      return Failure(insertError.value), writes;
    }
    var tagsString := Lookup(form, "tags");
    if Truthy(tagsString) {
      var tags := ParseTags(tagsString.value);
      if |tags| > 0 {
        writes := writes + [InsertTags(newId, tags)];
      }
    }
    result := Created(newId);
  }

  /** An edit replaces the tags whenever the form has a tags field, even an
      empty one: the old tags are deleted and the parsed ones inserted. */
  function TagReplacement(id: string, tagsField: Option<string>): (w: seq<Write>)
    ensures w == [] <==> tagsField.None?
    ensures tagsField.Some? ==> w[0] == DeleteTags(id) &&
                                w[1..] == TagWrites(id, ParseTags(tagsField.value))
  {
    if tagsField.Some? then [DeleteTags(id)] + TagWrites(id, ParseTags(tagsField.value)) else []
  }

  /** The tags step of `updateLead`. */
  method ReplaceTags(id: string, tagsString: Option<string>) returns (writes: seq<Write>)
    ensures writes == TagReplacement(id, tagsString)
  {
    writes := [];
    if tagsString.Some? {
      var tags := ParseTags(tagsString.value);
      writes := writes + [DeleteTags(id)];
      if |tags| > 0 {
        writes := writes + [InsertTags(id, tags)];
      }
      assert writes == [DeleteTags(id)] + TagWrites(id, tags);
    }
  }

  /** The `updates` record as written: built, then pruned. */
  method BuildUpdates(form: FormData, user: User) returns (updates: map<Column, Value>)
    ensures updates == Defined(UpdatesOf(form, user))
  {
    updates := UpdatesOf(form, user);
    updates := PruneUndefined(updates);
  }

  /** `updateLead`: ownership check for a SalesRep, the pruned update, then,
      when the form has a tags field at all, the lead's tags are deleted and
      the parsed ones inserted. */
  method UpdateLead(caller: Option<User>, id: string, form: FormData, existing: Existing,
                    updateError: Option<string>)
    returns (result: ActionResult, writes: seq<Write>)
    ensures caller.None? ==> result == Thrown(NotSignedIn) && writes == []
    ensures caller.Some? && !MayTouch(caller.value, existing) ==>
              result == Failure(RepUpdateDenied) && writes == []
    ensures caller.Some? && MayTouch(caller.value, existing) ==>
              var written := UpdateLeadRow(id, Defined(UpdatesOf(form, caller.value)));
              result == Answered(updateError, Success) &&
              writes == [written] + (if updateError.None? then TagReplacement(id, Lookup(form, "tags")) else [])
  {
    if caller.None? {
      return Thrown(NotSignedIn), [];
    }
    var user := caller.value;
    if user.role == Some("SalesRep") {
      if existing.NotFound? || existing.assignedRepId != Some(user.id) {
        return Failure(RepUpdateDenied), [];
      }
    }
    var updates := BuildUpdates(form, user);
    writes := [UpdateLeadRow(id, updates)];
    if updateError.Some? {
      return Failure(updateError.value), writes;
    }
    var tagWrites := ReplaceTags(id, Lookup(form, "tags"));
    writes := writes + tagWrites;
    result := Success;
  }

  /** `updateLeadStatus`: ownership check for a SalesRep, then the status write. */
  method UpdateLeadStatus(caller: Option<User>, id: string, status: string, existing: Existing,
                          updateError: Option<string>)
    returns (result: ActionResult, writes: seq<Write>)
    ensures caller.None? ==> result == Thrown(NotSignedIn) && writes == []
    ensures caller.Some? && !MayTouch(caller.value, existing) ==>
              result == Failure(RepUpdateDenied) && writes == []
    ensures caller.Some? && MayTouch(caller.value, existing) ==>
              result == Answered(updateError, Success) && writes == [UpdateLeadStatusRow(id, status)]
  {
    if caller.None? {
      return Thrown(NotSignedIn), [];
    }
    var user := caller.value;
    if user.role == Some("SalesRep") {
      if existing.NotFound? || existing.assignedRepId != Some(user.id) {
        return Failure(RepUpdateDenied), [];
      }
    }
    writes := [UpdateLeadStatusRow(id, status)];
    if updateError.Some? {
      return Failure(updateError.value), writes;
    }
    result := Success;
  }

  /** `deleteLead`: a SalesRep is refused whatever the lead; anyone else deletes. */
  method DeleteLead(caller: Option<User>, id: string, deleteError: Option<string>)
    returns (result: ActionResult, writes: seq<Write>)
    ensures caller.None? ==> result == Thrown(NotSignedIn) && writes == []
    ensures caller.Some? && IsSalesRep(caller.value) ==> result == Failure(RepDeleteDenied) && writes == []
    ensures caller.Some? && !IsSalesRep(caller.value) ==>
              result == Answered(deleteError, Success) && writes == [DeleteLeadRow(id)]
  {
    if caller.None? {
      return Thrown(NotSignedIn), [];
    }
    var user := caller.value;
    if user.role == Some("SalesRep") {
      return Failure(RepDeleteDenied), [];
    }
    writes := [DeleteLeadRow(id)];
    if deleteError.Some? {
      return Failure(deleteError.value), writes;
    }
    result := Success;
  }

  /** `createActivity`: ownership check for a SalesRep, then the activity row. */
  method CreateActivity(caller: Option<User>, leadId: string, form: FormData, existing: Existing,
                        insertError: Option<string>)
    returns (result: ActionResult, writes: seq<Write>)
    ensures caller.None? ==> result == Thrown(NotSignedIn) && writes == []
    ensures caller.Some? && !MayTouch(caller.value, existing) ==>
              result == Failure(RepAddDenied) && writes == []
    ensures caller.Some? && MayTouch(caller.value, existing) ==>
              result == Answered(insertError, Success) &&
              writes == [InsertActivity(leadId, Lookup(form, "type"), Lookup(form, "notes"))]
  {
    if caller.None? {
      return Thrown(NotSignedIn), [];
    }
    var user := caller.value;
    if user.role == Some("SalesRep") {
      if existing.NotFound? || existing.assignedRepId != Some(user.id) {
        return Failure(RepAddDenied), [];
      }
    }
    writes := [InsertActivity(leadId, Lookup(form, "type"), Lookup(form, "notes"))];
    if insertError.Some? {
      return Failure(insertError.value), writes;
    }
    result := Success;
  }

  /** `createFollowup`: ownership check for a SalesRep, then a Pending follow-up. */
  method CreateFollowup(caller: Option<User>, leadId: string, form: FormData, existing: Existing,
                        insertError: Option<string>)
    returns (result: ActionResult, writes: seq<Write>)
    ensures caller.None? ==> result == Thrown(NotSignedIn) && writes == []
    ensures caller.Some? && !MayTouch(caller.value, existing) ==>
              result == Failure(RepAddDenied) && writes == []
    ensures caller.Some? && MayTouch(caller.value, existing) ==>
              result == Answered(insertError, Success) &&
              writes == [InsertFollowup(leadId, Lookup(form, "due_date"), "Pending")]
  {
    if caller.None? {
      return Thrown(NotSignedIn), [];
    }
    var user := caller.value;
    if user.role == Some("SalesRep") {
      if existing.NotFound? || existing.assignedRepId != Some(user.id) {
        return Failure(RepAddDenied), [];
      }
    }
    writes := [InsertFollowup(leadId, Lookup(form, "due_date"), "Pending")];
    if insertError.Some? {
      return Failure(insertError.value), writes;
    }
    result := Success;
  }

  /** `updateFollowupStatus`: ownership of the follow-up's lead for a SalesRep,
      then the status write. */
  method UpdateFollowupStatus(caller: Option<User>, followupId: string, status: string,
                              existing: Existing, updateError: Option<string>)
    returns (result: ActionResult, writes: seq<Write>)
    ensures caller.None? ==> result == Thrown(NotSignedIn) && writes == []
    ensures caller.Some? && !MayTouch(caller.value, existing) ==>
              result == Failure(RepAddDenied) && writes == []
    ensures caller.Some? && MayTouch(caller.value, existing) ==>
              result == Answered(updateError, Success) && writes == [UpdateFollowupRow(followupId, status)]
  {
    if caller.None? {
      return Thrown(NotSignedIn), [];
    }
    var user := caller.value;
    if user.role == Some("SalesRep") {
      if existing.NotFound? || existing.assignedRepId != Some(user.id) {
        return Failure(RepAddDenied), [];
      }
    }
    writes := [UpdateFollowupRow(followupId, status)];
    if updateError.Some? {
      return Failure(updateError.value), writes;
    }
    result := Success;
  }

  /** The ownership rule in plain terms: a SalesRep may touch only a lead that
      exists and is assigned to them; Admins and other roles are not checked. */
  lemma OwnershipRule(user: User, existing: Existing)
    ensures IsSalesRep(user) ==>
              (MayTouch(user, existing) <==> existing == Found(Some(user.id)))
    ensures !IsSalesRep(user) ==> MayTouch(user, existing)
  {
  }
}
