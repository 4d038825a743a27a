/** The follow-ups panel of a lead (components/LeadFollowups.tsx): the
    ordering of the list, the status toggle, the overdue mark and the form that
    logs an activity and schedules a follow-up. */
module LeadFollowups {
  import opened Common
  import opened Sorting

  /** A follow-up; `due` is `due_date` as a timestamp. */
  datatype Followup = Followup(id: string, due: int, status: string)

  const Pending := "Pending"
  const Completed := "Completed"

  // ---------------------------------------------------------------------------
  // Ordering

  /** The comparator as written: a different status puts the Pending one
      first, and otherwise the earlier due date. */
  function Compare(a: Followup, b: Followup): int {
    if a.status != b.status then (if a.status == Pending then -1 else 1)
    else a.due - b.due
  }

  function Rank(f: Followup): nat {
    if f.status == Pending then 0 else 1
  }

  /** Pending before the rest, then by due date, as "not after". */
  predicate PendingFirst(a: Followup, b: Followup) {
    Rank(a) < Rank(b) || (Rank(a) == Rank(b) && a.due <= b.due)
  }

  lemma PendingFirstPreorder()
    ensures TotalPreorder(PendingFirst)
  {
  }

  predicate TwoValued(f: Followup) {
    f.status == Pending || f.status == Completed
  }

  /** With the two statuses the app writes, the comparator keeps `a` before
      `b` exactly when `PendingFirst` does. */
  lemma ComparatorAgrees(a: Followup, b: Followup)
    requires TwoValued(a) && TwoValued(b)
    ensures Compare(a, b) <= 0 <==> PendingFirst(a, b)
  {
  }

  /** Two different statuses other than Pending each claim to come after the
      other, so the comparator is not consistent beyond two statuses. */
  lemma ComparatorBeyondTwoValues(a: Followup, b: Followup)
    requires a.status != b.status && a.status != Pending && b.status != Pending
    ensures Compare(a, b) > 0 && Compare(b, a) > 0
  {
  }

  /** `sortedFollowups`: a sorted copy of `followups || []`, so no list at all
      sorts to the empty list and a given list is only reordered. */
  function SortedFollowups(followups: Option<seq<Followup>>): (r: seq<Followup>)
    ensures followups.None? ==> r == []
    ensures followups.Some? ==> multiset(r) == multiset(followups.value)
  {
    SortBy(if followups.Some? then followups.value else [], PendingFirst)
  }

  /** The sorted list holds the same follow-ups, every Pending one first, and
      those of one status by ascending due date. */
  lemma SortedFollowupsOrder(fs: seq<Followup>)
    ensures multiset(SortedFollowups(Some(fs))) == multiset(fs)
    ensures forall i, j :: 0 <= i < j < |fs| && SortedFollowups(Some(fs))[j].status == Pending ==>
              SortedFollowups(Some(fs))[i].status == Pending
    ensures forall i, j :: 0 <= i < j < |fs| && SortedFollowups(Some(fs))[i].status == SortedFollowups(Some(fs))[j].status ==>
              SortedFollowups(Some(fs))[i].due <= SortedFollowups(Some(fs))[j].due
  {
    PendingFirstPreorder();
    SortBySorted(fs, PendingFirst);
  }

  // ---------------------------------------------------------------------------
  // Status and overdue mark

  /** `toggleStatus`: Pending becomes Completed, anything else Pending. */
  function NextStatus(current: string): (s: string)
    ensures s == Completed <==> current == Pending
    ensures s == Pending <==> current != Pending
  {
    if current == Pending then Completed else Pending
  }

  /** Toggling twice gives back either of the two statuses. */
  lemma ToggleTwice(s: string)
    requires s == Pending || s == Completed
    ensures NextStatus(NextStatus(s)) == s
  {
  }

  /** `isOverdue`. */
  predicate IsOverdue(f: Followup, now: int) {
    f.status == Pending && f.due < now
  }

  /** A completed follow-up is never marked overdue, a pending one is exactly
      once its due time has passed, it stays overdue at every later instant,
      and toggling an overdue follow-up clears the mark. */
  lemma OverdueMeaning(f: Followup, now: int, later: int)
    requires now <= later
    ensures f.status != Pending ==> !IsOverdue(f, now)
    ensures IsOverdue(f, now) <==> f.status == Pending && f.due < now
    ensures IsOverdue(f, now) ==> IsOverdue(f, later)
    ensures IsOverdue(f, now) ==> !IsOverdue(f.(status := NextStatus(f.status)), later)
  {
  }

  /** What the page does after a status change: a returned truthy error text
      is alerted, any other returned answer refreshes the page, and a rejected
      call leaves the page as it is, since the handler has no `catch`. */
  datatype Effect = Alert(message: string) | Refresh | NoEffect

  function AfterStatusChange(reply: Reply): (e: Effect)
    ensures e.Alert? <==> reply.Replied? && Truthy(reply.error)
    ensures e.Alert? ==> e.message == reply.error.value
    ensures e == Refresh <==> reply.Replied? && !Truthy(reply.error)
    ensures e == NoEffect <==> reply.Threw?
  {
    match reply
    case Replied(error) => if Truthy(error) then Alert(error.value) else Refresh
    case Threw => NoEffect
  }

  /** `toggleStatus`: the status sent to the server action, and what follows
      its answer. */
  function ToggleStatus(current: string, reply: Reply): (r: (string, Effect))
    ensures r.0 == Completed <==> current == Pending
    ensures r.0 == Pending <==> current != Pending
    ensures r.1 == Refresh <==> reply.Replied? && !Truthy(reply.error)
    ensures r.1.Alert? ==> reply.Replied? && r.1.message == reply.error.value
    ensures r.1 == NoEffect <==> reply.Threw?
  {
    (NextStatus(current), AfterStatusChange(reply))
  }

  // ---------------------------------------------------------------------------
  // The form

  /** A server action the form calls. */
  datatype Call = CreateActivity(leadId: string, kind: string, notes: string)
                | CreateFollowup(leadId: string, due: int)

  /** The submit guard: nothing happens without a due date and without notes. */
  predicate SubmitIgnored(dueDate: string, notes: string) {
    dueDate == "" && Trim(notes) == ""
  }

  /** The calls a submit makes, in order: the activity when the notes are not
      blank (with the notes as typed), then the follow-up when a date is set. */
  function SubmitCalls(leadId: string, kind: string, dueDate: string, notes: string, parsedDue: int): seq<Call> {
    (if Trim(notes) != "" then [CreateActivity(leadId, kind, notes)] else []) +
    (if dueDate != "" then [CreateFollowup(leadId, parsedDue)] else [])
  }

  lemma SubmitCallsMeaning(leadId: string, kind: string, dueDate: string, notes: string, parsedDue: int)
    ensures var calls := SubmitCalls(leadId, kind, dueDate, notes, parsedDue);
            (calls == [] <==> SubmitIgnored(dueDate, notes)) &&
            (CreateActivity(leadId, kind, notes) in calls <==> Trim(notes) != "") &&
            (CreateFollowup(leadId, parsedDue) in calls <==> dueDate != "") &&
            (forall i :: 0 <= i < |calls| ==> calls[i].leadId == leadId) &&
            (|calls| == 2 ==> calls[0].CreateActivity? && calls[1].CreateFollowup?)
  {
    var a: seq<Call> := if Trim(notes) != "" then [CreateActivity(leadId, kind, notes)] else [];
    var f: seq<Call> := if dueDate != "" then [CreateFollowup(leadId, parsedDue)] else [];
    assert SubmitCalls(leadId, kind, dueDate, notes, parsedDue) == a + f;
    assert CreateFollowup(leadId, parsedDue) !in a;
    assert CreateActivity(leadId, kind, notes) !in f;
    var calls := a + f;
    forall i | 0 <= i < |calls|
      ensures calls[i].leadId == leadId
    {
      if i < |a| {
        assert calls[i] == a[0];
      } else {
        assert calls[i] == f[0];
      }
    }
  }

  /** Whether one of the calls a submit makes rejects. */
  predicate SubmitThrew(dueDate: string, notes: string, activityThrew: bool, followupThrew: bool) {
    (Trim(notes) != "" && activityThrew) || (dueDate != "" && followupThrew)
  }

  /** The calls a submit has made when it ends: all of them, unless the
      activity's call rejects, which ends the submit before the follow-up. */
  function CallsMade(leadId: string, kind: string, dueDate: string, notes: string, parsedDue: int,
                     activityThrew: bool): seq<Call> {
    if Trim(notes) != "" && activityThrew then [CreateActivity(leadId, kind, notes)]
    else SubmitCalls(leadId, kind, dueDate, notes, parsedDue)
  }

  /** The calls made are a prefix of the calls a submit means to make, and
      all of them when no call rejects. */
  lemma CallsMadePrefix(leadId: string, kind: string, dueDate: string, notes: string, parsedDue: int,
                        activityThrew: bool, followupThrew: bool)
    ensures CallsMade(leadId, kind, dueDate, notes, parsedDue, activityThrew) <=
            SubmitCalls(leadId, kind, dueDate, notes, parsedDue)
    ensures !SubmitThrew(dueDate, notes, activityThrew, followupThrew) ==>
            CallsMade(leadId, kind, dueDate, notes, parsedDue, activityThrew) ==
            SubmitCalls(leadId, kind, dueDate, notes, parsedDue)
  {
  }

  class FollowupForm {
    const leadId: string
    var loading: bool
    var dueDate: string
    var kind: string
    var notes: string

    constructor(leadId: string)
      ensures this.leadId == leadId && !loading && dueDate == "" && kind == "Note" && notes == ""
    {
      this.leadId := leadId;
      loading := false;
      dueDate := "";
      kind := "Note";
      notes := "";
    }

    /** `handleSubmit`; `parsedDue` is the instant the due-date input parses
        to, and `activityThrew` / `followupThrew` say whether the awaited
        `createActivity` / `createFollowup` rejects. Returned answers are not
        looked at. A rejection ends the handler at once: the calls made so far
        stand, `loading` stays set and the inputs keep what was typed. */
    method HandleSubmit(parsedDue: int, activityThrew: bool, followupThrew: bool) returns (calls: seq<Call>)
      modifies this
      ensures SubmitIgnored(old(dueDate), old(notes)) ==> calls == [] && unchanged(this)
      ensures !SubmitIgnored(old(dueDate), old(notes)) ==>
                calls == CallsMade(leadId, old(kind), old(dueDate), old(notes), parsedDue, activityThrew)
      ensures !SubmitIgnored(old(dueDate), old(notes)) && SubmitThrew(old(dueDate), old(notes), activityThrew, followupThrew) ==>
                loading && dueDate == old(dueDate) && notes == old(notes) && kind == old(kind)
      ensures !SubmitIgnored(old(dueDate), old(notes)) && !SubmitThrew(old(dueDate), old(notes), activityThrew, followupThrew) ==>
                !loading && dueDate == "" && notes == "" && kind == "Note"
    {
      calls := [];
      var trimmed := Trim(notes);
      if dueDate == "" && trimmed == "" {
        return;
      }
      loading := true;
      if trimmed != "" {
        calls := calls + [CreateActivity(leadId, kind, notes)];
        if activityThrew {
          return;
        }
      }
      if dueDate != "" {
        calls := calls + [CreateFollowup(leadId, parsedDue)];
        if followupThrew {
          return;
        }
      }
      loading := false;
      dueDate := "";
      notes := "";
      kind := "Note";
    }
  }
}
