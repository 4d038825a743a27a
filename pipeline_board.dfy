/** The pipeline board (components/PipelineBoard.tsx): stages ordered by
    their order index, leads grouped into one column per stage, and the
    optimistic status change of a drag, reverted when the server refuses it. */
module PipelineBoard {
  import opened Common
  import opened Sorting
  import opened Tally

  datatype Stage = Stage(id: string, name: string, orderIndex: int)

  /** A lead on the board; `name`, `company` and `expectedValue` stand for
      the fields the board carries along without looking at them. */
  datatype BoardLead = BoardLead(id: string, status: string, name: string,
                                 company: Option<string>, expectedValue: int)

  // ---------------------------------------------------------------------------
  // Stages

  /** The comparator `a.order_index - b.order_index`, as "not after". */
  predicate ByOrder(a: Stage, b: Stage) {
    a.orderIndex <= b.orderIndex
  }

  lemma ByOrderPreorder()
    ensures TotalPreorder(ByOrder)
  {
  }

  /** `sortedStages`: a sorted copy; the stages passed in are left as they are. */
  function SortedStages(stages: seq<Stage>): seq<Stage> {
    SortBy(stages, ByOrder)
  }

  /** `stageNames`. */
  function StageNames(stages: seq<Stage>): seq<string> {
    Map(SortedStages(stages), (s: Stage) => s.name)
  }

  /** The sorted stages are the given ones, in ascending order index. */
  lemma SortedStagesOrdered(stages: seq<Stage>)
    ensures multiset(SortedStages(stages)) == multiset(stages)
    ensures forall i, j :: 0 <= i < j < |stages| ==>
              SortedStages(stages)[i].orderIndex <= SortedStages(stages)[j].orderIndex
    ensures |StageNames(stages)| == |stages|
  {
    ByOrderPreorder();
    SortBySorted(stages, ByOrder);
  }

  // ---------------------------------------------------------------------------
  // Columns

  /** The column a lead lands in: its own status when that is a stage name,
      otherwise the first stage, or 'New' when there are no stages. */
  function ColumnOf(l: BoardLead, stageNames: seq<string>): (r: string)
    ensures stageNames != [] ==> r in stageNames
    ensures l.status in stageNames ==> r == l.status
    ensures l.status !in stageNames && stageNames != [] ==> r == stageNames[0]
    ensures stageNames == [] ==> r == "New"
  {
    if l.status in stageNames then l.status
    else if |stageNames| > 0 then stageNames[0] else "New"
  }

  /** The leads of one column, in lead order. */
  function ColumnLeads(leads: seq<BoardLead>, stageNames: seq<string>, k: string): seq<BoardLead> {
    Filter(leads, (l: BoardLead) => ColumnOf(l, stageNames) == k)
  }

  /** The keys of `groupedLeads`: one per stage, and 'New' when a lead had to
      go to the fallback column of a board without stages. */
  function GroupKeys(leads: seq<BoardLead>, stageNames: seq<string>): set<string> {
    (set k | k in stageNames) + (if stageNames == [] && leads != [] then {"New"} else {})
  }

  lemma GroupKeysSnoc(leads: seq<BoardLead>, x: BoardLead, stageNames: seq<string>)
    ensures GroupKeys(leads + [x], stageNames) ==
            GroupKeys(leads, stageNames) + {ColumnOf(x, stageNames)}
  {
  }

  /** `groupedLeads`: the stages are entered first, then each lead is pushed
      onto its status's column or, failing that, the first stage's. */
  method GroupLeads(leads: seq<BoardLead>, stageNames: seq<string>) returns (acc: map<string, seq<BoardLead>>)
    ensures acc.Keys == GroupKeys(leads, stageNames)
    ensures forall k :: k in acc ==> acc[k] == ColumnLeads(leads, stageNames, k)
  {
    acc := map[];
    for i := 0 to |stageNames|
      invariant acc.Keys == set k | k in stageNames[..i]
      invariant forall k :: k in acc ==> acc[k] == []
    {
      assert stageNames[..i + 1] == stageNames[..i] + [stageNames[i]];
      acc := acc[stageNames[i] := []];
    }
    assert stageNames[..|stageNames|] == stageNames;
    for j := 0 to |leads|
      invariant Grouped(acc, leads[..j], stageNames)
    {
      var lead := leads[j];
      ghost var c := ColumnOf(lead, stageNames);
      ghost var before := acc;
      GroupedStep(acc, leads, j, stageNames);
      if lead.status in acc {
        acc := acc[lead.status := acc[lead.status] + [lead]];
      } else {
        var firstStage := if |stageNames| > 0 then stageNames[0] else "New";
        if firstStage !in acc {
          acc := acc[firstStage := []];
        }
        acc := acc[firstStage := acc[firstStage] + [lead]];
      }
      assert acc == before[c := (if c in before then before[c] else []) + [lead]];
    }
    assert leads[..|leads|] == leads;
  }

  /** `acc` holds the columns of `leads`. */
  ghost predicate Grouped(acc: map<string, seq<BoardLead>>, leads: seq<BoardLead>, stageNames: seq<string>) {
    acc.Keys == GroupKeys(leads, stageNames) &&
    forall k :: k in acc ==> acc[k] == ColumnLeads(leads, stageNames, k)
  }

  /** Pushing the next lead onto its column keeps the columns right; a
      status found among the keys is the lead's column. */
  lemma GroupedStep(acc: map<string, seq<BoardLead>>, leads: seq<BoardLead>, j: nat, stageNames: seq<string>)
    requires j < |leads| && Grouped(acc, leads[..j], stageNames)
    ensures leads[j].status in acc ==> leads[j].status == ColumnOf(leads[j], stageNames)
    ensures leads[j].status !in acc ==> ColumnOf(leads[j], stageNames) == if |stageNames| > 0 then stageNames[0] else "New"
    ensures var c := ColumnOf(leads[j], stageNames);
            Grouped(acc[c := (if c in acc then acc[c] else []) + [leads[j]]], leads[..j + 1], stageNames)
  {
    var c := ColumnOf(leads[j], stageNames);
    ColumnStep(leads, j, stageNames);
    var acc' := acc[c := (if c in acc then acc[c] else []) + [leads[j]]];
    forall k | k in acc'
      ensures acc'[k] == ColumnLeads(leads[..j + 1], stageNames, k)
    {
    }
  }

  /** One more lead: only its own column grows, by that lead. */
  lemma ColumnStep(leads: seq<BoardLead>, j: nat, stageNames: seq<string>)
    requires j < |leads|
    ensures GroupKeys(leads[..j + 1], stageNames) == GroupKeys(leads[..j], stageNames) + {ColumnOf(leads[j], stageNames)}
    ensures forall k :: ColumnLeads(leads[..j + 1], stageNames, k) ==
              if k == ColumnOf(leads[j], stageNames) then ColumnLeads(leads[..j], stageNames, k) + [leads[j]]
              else ColumnLeads(leads[..j], stageNames, k)
    ensures ColumnLeads(leads[..j], stageNames, ColumnOf(leads[j], stageNames)) != [] ==>
              ColumnOf(leads[j], stageNames) in GroupKeys(leads[..j], stageNames)
  {
    assert leads[..j + 1] == leads[..j] + [leads[j]];
    GroupKeysSnoc(leads[..j], leads[j], stageNames);
    forall k
      ensures ColumnLeads(leads[..j + 1], stageNames, k) ==
              if k == ColumnOf(leads[j], stageNames) then ColumnLeads(leads[..j], stageNames, k) + [leads[j]]
              else ColumnLeads(leads[..j], stageNames, k)
    {
      FilterSnoc(leads[..j], leads[j], (l: BoardLead) => ColumnOf(l, stageNames) == k);
    }
  }

  /** A lead is in a column exactly when that column is its own, and each
      column keeps the order of the lead list. */
  lemma ColumnMembers(leads: seq<BoardLead>, stageNames: seq<string>, k: string)
    ensures IsSubsequence(ColumnLeads(leads, stageNames, k), leads)
    ensures forall l :: l in ColumnLeads(leads, stageNames, k) <==> l in leads && ColumnOf(l, stageNames) == k
  {
    FilterSubsequence(leads, (l: BoardLead) => ColumnOf(l, stageNames) == k);
  }

  /** The key counted by the tally: a lead's column. */
  function ColumnKey(stageNames: seq<string>): BoardLead -> Option<string> {
    (l: BoardLead) => Some(ColumnOf(l, stageNames))
  }

  lemma {:induction false} ColumnSize(leads: seq<BoardLead>, stageNames: seq<string>, k: string)
    ensures |ColumnLeads(leads, stageNames, k)| == CountKey(leads, ColumnKey(stageNames), k)
  {
    if leads != [] {
      var p := leads[..|leads| - 1];
      ColumnSize(p, stageNames, k);
      assert leads == p + [leads[|leads| - 1]];
      FilterSnoc(p, leads[|leads| - 1], (l: BoardLead) => ColumnOf(l, stageNames) == k);
    }
  }

  /** Total size of the columns of `ks`. */
  function ColumnSizes(leads: seq<BoardLead>, stageNames: seq<string>, ks: seq<string>): nat {
    if ks == [] then 0
    else ColumnSizes(leads, stageNames, ks[..|ks| - 1]) + |ColumnLeads(leads, stageNames, ks[|ks| - 1])|
  }

  lemma {:induction false} ColumnSizesCounts(leads: seq<BoardLead>, stageNames: seq<string>, ks: seq<string>)
    ensures ColumnSizes(leads, stageNames, ks) == SumCounts(ks, leads, ColumnKey(stageNames))
  {
    if ks != [] {
      ColumnSizesCounts(leads, stageNames, ks[..|ks| - 1]);
      ColumnSize(leads, stageNames, ks[|ks| - 1]);
    }
  }

  /** With distinct stage names, the columns shown hold every lead exactly
      once: their sizes add up to the number of leads. */
  lemma ColumnsPartition(leads: seq<BoardLead>, stageNames: seq<string>)
    requires stageNames != [] && Distinct(stageNames)
    ensures ColumnSizes(leads, stageNames, stageNames) == |leads|
  {
    ColumnSizesCounts(leads, stageNames, stageNames);
    SumCountsCovering(stageNames, leads, ColumnKey(stageNames));
  }

  /** What the board renders. */
  datatype View = EmptyMessage | Columns(stages: seq<string>)

  function BoardView(stageNames: seq<string>): (v: View)
    ensures v == EmptyMessage <==> stageNames == []
    ensures v.Columns? ==> v.stages == stageNames
  {
    if |stageNames| == 0 then EmptyMessage else Columns(stageNames)
  }

  // ---------------------------------------------------------------------------
  // Dragging a card

  predicate Failed(outcome: Reply) {
    outcome.Threw? || Truthy(outcome.error)
  }

  /** `leads.find(l => l.id === id)`. */
  function Find(leads: seq<BoardLead>, id: string): (r: Option<BoardLead>)
    ensures r.Some? ==> r.value in leads && r.value.id == id
    ensures r.None? <==> forall i :: 0 <= i < |leads| ==> leads[i].id != id
  {
    if leads == [] then None
    else if leads[0].id == id then Some(leads[0])
    else Find(leads[1..], id)
  }

  /** `prev.map(lead => lead.id === id ? { ...lead, status } : lead)`. */
  function WithStatus(leads: seq<BoardLead>, id: string, status: string): (r: seq<BoardLead>)
    ensures |r| == |leads|
    ensures forall i :: 0 <= i < |leads| ==>
              r[i] == if leads[i].id == id then leads[i].(status := status) else leads[i]
  {
    Map(leads, (l: BoardLead) => if l.id == id then l.(status := status) else l)
  }

  /** The leads after a drop of card `leadId` on the column `over`, once the
      server has answered: the same cards in the same places, and only the
      dragged card's status may differ. */
  function AfterDrop(leads: seq<BoardLead>, leadId: string, over: Option<string>, outcome: Reply): (r: seq<BoardLead>)
    ensures |r| == |leads|
    ensures forall i :: 0 <= i < |leads| ==> r[i] == leads[i].(status := r[i].status)
    ensures forall i :: 0 <= i < |leads| && leads[i].id != leadId ==> r[i] == leads[i]
  {
    if over.None? then leads
    else
      var current := Find(leads, leadId);
      if current.None? || current.value.status == over.value then leads
      else
        var moved := WithStatus(leads, leadId, over.value);
        if Failed(outcome) then WithStatus(moved, leadId, current.value.status) else moved
  }

  /** The message `alert` shows, if any: only for a card that was moved and
      whose update failed, the fixed text for a rejected call and the error
      text for a refusal. */
  function DropAlert(leads: seq<BoardLead>, leadId: string, over: Option<string>, outcome: Reply): (r: Option<string>)
    ensures r.Some? <==> over.Some? && Find(leads, leadId).Some? &&
                         Find(leads, leadId).value.status != over.value && Failed(outcome)
    ensures r.Some? && outcome.Threw? ==> r.value == "Failed to update lead status"
    ensures r.Some? && outcome.Replied? ==> r == outcome.error
  {
    if over.None? then None
    else
      var current := Find(leads, leadId);
      if current.None? || current.value.status == over.value then None
      else if outcome.Threw? then Some("Failed to update lead status")
      else if Truthy(outcome.error) then outcome.error
      else None
  }

  predicate UniqueIds(leads: seq<BoardLead>) {
    forall i, j :: 0 <= i < j < |leads| ==> leads[i].id != leads[j].id
  }

  class Board {
    var leads: seq<BoardLead>
    const stageNames: seq<string>

    constructor(initialLeads: seq<BoardLead>, pipelineStages: seq<Stage>)
      ensures leads == initialLeads && stageNames == StageNames(pipelineStages)
    {
      leads := initialLeads;
      stageNames := StageNames(pipelineStages);
    }

    /** `handleDragEnd`: ignore a drop outside a column, an unknown card or
        the card's own column; otherwise move the card at once and move it
        back when the server refuses or the call throws. */
    method HandleDragEnd(leadId: string, over: Option<string>, outcome: Reply) returns (alert: Option<string>)
      modifies this
      ensures leads == AfterDrop(old(leads), leadId, over, outcome)
      ensures alert == DropAlert(old(leads), leadId, over, outcome)
    {
      alert := None;
      if over.None? {
        return;
      }
      var newStatus := over.value;
      var currentLead := Find(leads, leadId);
      if currentLead.None? || currentLead.value.status == newStatus {
        return;
      }
      leads := WithStatus(leads, leadId, newStatus);
      match outcome {
        case Replied(error) =>
          if Truthy(error) {
            alert := error;
            leads := WithStatus(leads, leadId, currentLead.value.status);
          }
        case Threw =>
          alert := Some("Failed to update lead status");
          leads := WithStatus(leads, leadId, currentLead.value.status);
      }
    }
  }

  /** A drop outside a column, of an unknown card or onto its own column changes nothing. */
  lemma IgnoredDrops(leads: seq<BoardLead>, leadId: string, over: Option<string>, outcome: Reply)
    requires over.None? || Find(leads, leadId).None? || Find(leads, leadId).value.status == over.value
    ensures AfterDrop(leads, leadId, over, outcome) == leads
    ensures DropAlert(leads, leadId, over, outcome) == None
  {
  }

  /** An accepted move changes the status of the dragged card and nothing else. */
  lemma AcceptedMove(leads: seq<BoardLead>, leadId: string, newStatus: string, outcome: Reply)
    requires UniqueIds(leads) && !Failed(outcome)
    ensures var r := AfterDrop(leads, leadId, Some(newStatus), outcome);
            |r| == |leads| &&
            forall i :: 0 <= i < |leads| ==>
              (leads[i].id != leadId ==> r[i] == leads[i]) &&
              (leads[i].id == leadId ==> r[i] == leads[i].(status := newStatus))
  {
    var cur := Find(leads, leadId);
    if cur.Some? {
      var k :| 0 <= k < |leads| && leads[k] == cur.value;
      forall i | 0 <= i < |leads| && leads[i].id == leadId
        ensures i == k
      {
      }
    }
  }

  /** The cards of one id, when there is only one, move back to where they were. */
  lemma RevertRestores(leads: seq<BoardLead>, leadId: string, newStatus: string)
    requires UniqueIds(leads) && Find(leads, leadId).Some?
    ensures WithStatus(WithStatus(leads, leadId, newStatus), leadId, Find(leads, leadId).value.status) == leads
  {
    var cur := Find(leads, leadId).value;
    var k :| 0 <= k < |leads| && leads[k] == cur;
    var r := WithStatus(WithStatus(leads, leadId, newStatus), leadId, cur.status);
    forall i | 0 <= i < |leads|
      ensures r[i] == leads[i]
    {
      if leads[i].id == leadId {
        assert i == k;
      }
    }
  }

  /** A refused or failed move leaves the board as it was before the drag. */
  lemma FailedMoveReverts(leads: seq<BoardLead>, leadId: string, over: Option<string>, outcome: Reply)
    requires UniqueIds(leads) && Failed(outcome)
    ensures AfterDrop(leads, leadId, over, outcome) == leads
  {
    if over.Some? && Find(leads, leadId).Some? {
      RevertRestores(leads, leadId, over.value);
    }
  }
}
