/** The follow-ups table (components/FollowupsTable.tsx): each row is marked
    overdue, today or upcoming, and offers the action that flips its status. */
module FollowupsTable {
  import opened Common
  import opened Clock
  import opened Dashboard
  import LeadFollowups

  datatype Followup = Followup(id: string, due: int, status: string, leadId: string)

  /** The classification as written: the due instant itself, not its day, is
      compared with today's midnight. Only a pending follow-up is ever marked,
      one marked overdue or today is not due after today's midnight, and one
      marked overdue is due before it. */
  function DateStatusAsWritten(due: int, status: string, now: int, tz: int): (b: Bucket)
    ensures b != Upcoming ==> status == "Pending" && due <= StartOfDay(now, tz)
    ensures b == Overdue ==> due < StartOfDay(now, tz)
  {
    var today := StartOfDay(now, tz);
    if due < today && status == "Pending" then Overdue
    else if due == today && status == "Pending" then Today
    else Upcoming
  }

  /** The classification as intended: a pending follow-up falls in the bucket
      of its local day, as on the dashboard; any other is upcoming. */
  function DateStatus(due: int, status: string, now: int, tz: int): Bucket {
    if status == "Pending" then BucketOf(due, now, tz) else Upcoming
  }

  /** As written, a pending follow-up counts as due today only at the exact
      instant of today's midnight. */
  lemma AsWrittenTodayOnlyAtMidnight(due: int, status: string, now: int, tz: int)
    ensures DateStatusAsWritten(due, status, now, tz) == Today <==>
            status == "Pending" && due == StartOfDay(now, tz)
    ensures DateStatusAsWritten(due, status, now, tz) == Overdue <==>
            status == "Pending" && due < StartOfDay(now, tz)
    ensures status != "Pending" ==> DateStatusAsWritten(due, status, now, tz) == Upcoming
  {
  }

  /** A pending follow-up due one millisecond after today's midnight is
      upcoming as written, and today as intended. */
  lemma TodayMissed(due: int, now: int, tz: int)
    requires due == StartOfDay(now, tz) + 1
    ensures DateStatusAsWritten(due, "Pending", now, tz) == Upcoming
    ensures DateStatus(due, "Pending", now, tz) == Today
  {
    BucketMeaning(due, now, tz);
  }

  /** Corrected: a pending follow-up is overdue before today's midnight, today
      within today's 24 hours, and upcoming after; any other is upcoming. */
  lemma DateStatusMeaning(due: int, status: string, now: int, tz: int)
    ensures status != "Pending" ==> DateStatus(due, status, now, tz) == Upcoming
    ensures DateStatus(due, status, now, tz) == Overdue <==>
            status == "Pending" && due < StartOfDay(now, tz)
    ensures DateStatus(due, status, now, tz) == Today <==>
            status == "Pending" && StartOfDay(now, tz) <= due < StartOfDay(now, tz) + DayMs
  {
    BucketMeaning(due, now, tz);
  }

  /** The two classifications differ only for pending follow-ups due later
      today than midnight. */
  lemma AsWrittenAgreesElsewhere(due: int, status: string, now: int, tz: int)
    requires !(status == "Pending" && StartOfDay(now, tz) < due < StartOfDay(now, tz) + DayMs)
    ensures DateStatusAsWritten(due, status, now, tz) == DateStatus(due, status, now, tz)
  {
    BucketMeaning(due, now, tz);
  }

  /** A row marked overdue in the table is also marked overdue in a lead's
      follow-up list at the same moment. */
  lemma TableOverdueIsListOverdue(f: Followup, now: int, tz: int)
    requires DateStatus(f.due, f.status, now, tz) == Overdue
    ensures LeadFollowups.IsOverdue(LeadFollowups.Followup(f.id, f.due, f.status), now)
  {
    BucketMeaning(f.due, now, tz);
  }

  /** The button of a row: Complete for a pending row, Reopen otherwise,
      each with the status it sets. */
  datatype Action = Complete | Reopen

  function ActionFor(status: string): (a: Action)
    ensures a == Complete <==> status == "Pending"
  {
    if status == "Pending" then Complete else Reopen
  }

  function TargetStatus(a: Action): string {
    match a
    case Complete => "Completed"
    case Reopen => "Pending"
  }

  /** The row's action sets the status the lead's panel would toggle to. */
  lemma ActionMatchesToggle(status: string)
    ensures TargetStatus(ActionFor(status)) == LeadFollowups.NextStatus(status)
  {
  }

  /** What `handleStatusChange` leaves behind: the status it sent, what the
      page does, and the row still marked busy (`loadingId`), which is cleared
      only when the call returns. */
  datatype Change = Change(sent: string, effect: LeadFollowups.Effect, busy: Option<string>)

  /** `handleStatusChange` on the row `id`: a returned answer clears the busy
      mark and alerts a truthy error or refreshes; a rejected call, having no
      `catch`, does neither and leaves the row busy. */
  function StatusChange(id: string, a: Action, reply: Reply): (r: Change)
    ensures r.sent == (if a == Complete then "Completed" else "Pending")
    ensures r.effect == LeadFollowups.Refresh <==> reply.Replied? && !Truthy(reply.error)
    ensures r.effect.Alert? ==> reply.Replied? && r.effect.message == reply.error.value
    ensures r.effect == LeadFollowups.NoEffect <==> reply.Threw?
    ensures r.busy.Some? <==> reply.Threw?
    ensures r.busy.Some? ==> r.busy.value == id
  {
    Change(TargetStatus(a), LeadFollowups.AfterStatusChange(reply), if reply.Threw? then Some(id) else None)
  }

  /** The table's button and the lead's panel send the same status for a
      follow-up and react the same way to the server's answer. */
  lemma StatusChangeMatchesToggle(id: string, status: string, reply: Reply)
    ensures var c := StatusChange(id, ActionFor(status), reply);
            (c.sent, c.effect) == LeadFollowups.ToggleStatus(status, reply)
  {
  }

  datatype Row = Row(followup: Followup, dateStatus: Bucket, action: Action)

  datatype View = EmptyMessage | Rows(rows: seq<Row>)

  /** The table: the empty message for a missing or empty list, otherwise one
      row per follow-up, in order. */
  function TableView(followups: Option<seq<Followup>>, now: int, tz: int): (v: View)
    ensures v == EmptyMessage <==> followups.None? || followups.value == []
    ensures v.Rows? ==> (|v.rows| == |followups.value| &&
              forall i :: 0 <= i < |v.rows| ==>
                v.rows[i].followup == followups.value[i] &&
                v.rows[i].dateStatus == DateStatus(followups.value[i].due, followups.value[i].status, now, tz) &&
                v.rows[i].action == ActionFor(followups.value[i].status))
  {
    if followups.None? || |followups.value| == 0 then EmptyMessage
    else Rows(Map(followups.value, (f: Followup) => Row(f, DateStatus(f.due, f.status, now, tz), ActionFor(f.status))))
  }
}
