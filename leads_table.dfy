/** The lead list (components/LeadsTable.tsx): the filter over search text,
    stage, source, rep, tag and creation-date range, the option lists of the
    filter selects, and the colour of a status badge. */
module LeadsTable {
  import opened Common
  import opened Clock

  /** A listed lead. `repName` is `assigned_rep?.name`; `tags` is `undefined`
      when the query returned none; `createdAt` is `created_at` as a timestamp. */
  datatype Lead = Lead(id: string, name: Option<string>, email: Option<string>, company: Option<string>,
                       status: string, source: string, createdAt: int,
                       repName: Option<string>, tags: Option<seq<string>>)

  /** The filter controls. A date input left empty is `None`; a filled one is
      the instant `new Date(...)` parses it to. */
  datatype Filters = Filters(search: string, stage: string, source: string, rep: string, tag: string,
                             dateFrom: Option<int>, dateTo: Option<int>)

  const All := "All"

  /** The state the filters start in. */
  const NoFilters := Filters("", All, All, All, All, None, None)

  /** `x?.toLowerCase() || ''`. */
  function LowerOrEmpty(o: Option<string>): string {
    if o.Some? then ToLower(o.value) else ""
  }

  predicate MatchesSearch(l: Lead, search: string) {
    var q := ToLower(search);
    Contains(LowerOrEmpty(l.name), q) || Contains(LowerOrEmpty(l.email), q) ||
    Contains(LowerOrEmpty(l.company), q)
  }

  predicate MatchesTag(l: Lead, tag: string) {
    tag == All || (l.tags.Some? && exists i :: 0 <= i < |l.tags.value| && l.tags.value[i] == tag)
  }

  /** The `matchesDate` accumulation: on or after `dateFrom`, and no later
      than 23:59:59.999 local time on the day of `dateTo`. */
  predicate MatchesDate(l: Lead, f: Filters, tz: int) {
    (f.dateFrom.Some? ==> l.createdAt >= f.dateFrom.value) &&
    (f.dateTo.Some? ==> l.createdAt <= EndOfDay(f.dateTo.value, tz))
  }

  /** The `filter` callback. */
  predicate Passes(l: Lead, f: Filters, tz: int) {
    MatchesSearch(l, f.search) &&
    (f.stage == All || l.status == f.stage) &&
    (f.source == All || l.source == f.source) &&
    (f.rep == All || l.repName == Some(f.rep)) &&
    MatchesTag(l, f.tag) &&
    MatchesDate(l, f, tz)
  }

  /** `filteredLeads`. */
  function FilteredLeads(leads: seq<Lead>, f: Filters, tz: int): (r: seq<Lead>)
    ensures |r| <= |leads|
    ensures forall i :: 0 <= i < |r| ==> Passes(r[i], f, tz)
  {
    Filter(leads, (l: Lead) => Passes(l, f, tz))
  }

  /** The filtered list keeps exactly the passing leads, in their order. */
  lemma FilteredIsSubsequence(leads: seq<Lead>, f: Filters, tz: int)
    ensures IsSubsequence(FilteredLeads(leads, f, tz), leads)
    ensures forall l :: l in FilteredLeads(leads, f, tz) <==> l in leads && Passes(l, f, tz)
  {
    FilterSubsequence(leads, (l: Lead) => Passes(l, f, tz));
  }

  /** With every control in its initial state, every lead is listed. */
  lemma NoFiltersKeepAll(leads: seq<Lead>, tz: int)
    ensures FilteredLeads(leads, NoFilters, tz) == leads
  {
    forall i | 0 <= i < |leads|
      ensures Passes(leads[i], NoFilters, tz)
    {
      ContainsEmpty(LowerOrEmpty(leads[i].name));
    }
    FilterAll(leads, (l: Lead) => Passes(l, NoFilters, tz));
  }

  /** A lead with no name, email or company matches no non-empty search. */
  lemma SearchMissingFields(l: Lead, search: string)
    requires search != "" && l.name.None? && l.email.None? && l.company.None?
    ensures !MatchesSearch(l, search)
  {
  }

  /** The search ignores the case of the search text. */
  lemma SearchIgnoresCase(l: Lead, search: string)
    ensures MatchesSearch(l, search) <==> MatchesSearch(l, ToLower(search))
  {
    ToLowerIdempotent(search);
  }

  lemma ToLowerIdempotent(s: string)
    ensures ToLower(ToLower(s)) == ToLower(s)
  {
  }

  /** A chosen tag keeps exactly the leads carrying a tag equal to it. */
  lemma TagFilterMeaning(l: Lead, tag: string)
    requires tag != All
    ensures MatchesTag(l, tag) <==> l.tags.Some? && tag in l.tags.value
  {
  }

  /** Both ends of the date range are inclusive, the upper one up to the end of its day. */
  lemma DateRangeInclusive(l: Lead, f: Filters, tz: int)
    requires f.dateFrom.Some? && f.dateTo.Some?
    ensures MatchesDate(l, f, tz) <==>
            f.dateFrom.value <= l.createdAt &&
            StartOfDay(l.createdAt, tz) <= StartOfDay(f.dateTo.value, tz)
  {
    ByEndOfDay(l.createdAt, f.dateTo.value, tz);
  }

  /** `g` sets at least the filters `f` sets, to the same values. */
  predicate Narrows(g: Filters, f: Filters) {
    (f.search == "" || f.search == g.search) &&
    (f.stage == All || f.stage == g.stage) &&
    (f.source == All || f.source == g.source) &&
    (f.rep == All || f.rep == g.rep) &&
    (f.tag == All || f.tag == g.tag) &&
    (f.dateFrom.None? || f.dateFrom == g.dateFrom) &&
    (f.dateTo.None? || f.dateTo == g.dateTo)
  }

  lemma PassesNarrower(l: Lead, g: Filters, f: Filters, tz: int)
    requires Narrows(g, f) && Passes(l, g, tz)
    ensures Passes(l, f, tz)
  {
    if f.search == "" {
      ContainsEmpty(LowerOrEmpty(l.name));
    }
  }

  /** The filters combine by conjunction: setting more of them never lists more leads. */
  lemma NarrowingShrinks(leads: seq<Lead>, g: Filters, f: Filters, tz: int)
    requires Narrows(g, f)
    ensures IsSubsequence(FilteredLeads(leads, g, tz), FilteredLeads(leads, f, tz))
  {
    forall i | 0 <= i < |leads| && Passes(leads[i], g, tz)
      ensures Passes(leads[i], f, tz)
    {
      PassesNarrower(leads[i], g, f, tz);
    }
    FilterStricter(leads, (l: Lead) => Passes(l, g, tz), (l: Lead) => Passes(l, f, tz));
  }

  // ---------------------------------------------------------------------------
  // Option lists

  /** `['All', ...Array.from(new Set(values))]`. */
  function Options(values: seq<string>): (r: seq<string>)
    ensures r != [] && r[0] == All
    ensures Distinct(r[1..])
    ensures forall x :: x in r[1..] <==> x in values
    ensures forall i, j :: 1 <= i < j < |r| ==> FirstIndex(values, r[i]) < FirstIndex(values, r[j])
  {
    [All] + Dedup(values)
  }

  function Statuses(leads: seq<Lead>): seq<string> {
    Map(leads, (l: Lead) => l.status)
  }

  function Sources(leads: seq<Lead>): seq<string> {
    Map(leads, (l: Lead) => l.source)
  }

  /** `leads.map(l => l.assigned_rep?.name).filter(Boolean)`. */
  function RepNames(leads: seq<Lead>): (r: seq<string>)
    ensures forall x :: x in r <==> x != "" && exists i :: 0 <= i < |leads| && leads[i].repName == Some(x)
  {
    if leads == [] then []
    else
      var p := leads[..|leads| - 1];
      var n := leads[|leads| - 1].repName;
      assert forall i :: 0 <= i < |p| ==> p[i] == leads[i];
      RepNames(p) + (if Truthy(n) then [n.value] else [])
  }

  /** `leads.flatMap(l => l.tags?.map(t => t.tag_name) || [])`. */
  function TagNames(leads: seq<Lead>): (r: seq<string>)
    ensures forall x :: x in r <==> exists i :: 0 <= i < |leads| && leads[i].tags.Some? && x in leads[i].tags.value
  {
    if leads == [] then []
    else
      var p := leads[..|leads| - 1];
      var t := leads[|leads| - 1].tags;
      assert forall i :: 0 <= i < |p| ==> p[i] == leads[i];
      TagNames(p) + (if t.Some? then t.value else [])
  }

  function StageOptions(leads: seq<Lead>): seq<string> { Options(Statuses(leads)) }
  function SourceOptions(leads: seq<Lead>): seq<string> { Options(Sources(leads)) }
  function RepOptions(leads: seq<Lead>): seq<string> { Options(RepNames(leads)) }
  function TagOptions(leads: seq<Lead>): seq<string> { Options(TagNames(leads)) }

  /** The stage list offers 'All' and then every status of the list once. */
  lemma StageOptionsMeaning(leads: seq<Lead>)
    ensures StageOptions(leads)[0] == All && Distinct(StageOptions(leads)[1..])
    ensures forall x :: x in StageOptions(leads)[1..] <==> exists i :: 0 <= i < |leads| && leads[i].status == x
  {
    var s := Statuses(leads);
    forall x | x in s
      ensures exists i :: 0 <= i < |leads| && leads[i].status == x
    {
      var k :| 0 <= k < |s| && s[k] == x;
      assert leads[k].status == x;
    }
    forall i | 0 <= i < |leads|
      ensures leads[i].status in s
    {
      assert s[i] == leads[i].status;
    }
  }

  /** The rep list offers 'All' and every assigned rep's non-empty name once. */
  lemma RepOptionsMeaning(leads: seq<Lead>)
    ensures RepOptions(leads)[0] == All && Distinct(RepOptions(leads)[1..])
    ensures forall x :: x in RepOptions(leads)[1..] <==>
              x != "" && exists i :: 0 <= i < |leads| && leads[i].repName == Some(x)
    ensures "" !in RepOptions(leads)[1..]
  {
  }

  // ---------------------------------------------------------------------------
  // Status badges

  datatype Badge = Blue | Yellow | Purple | Orange | Green | Red | Gray

  /** The class names of each badge. */
  function BadgeClass(b: Badge): string {
    match b
    case Blue => "bg-blue-100 text-blue-800"
    case Yellow => "bg-yellow-100 text-yellow-800"
    case Purple => "bg-purple-100 text-purple-800"
    case Orange => "bg-orange-100 text-orange-800"
    case Green => "bg-green-100 text-green-800"
    case Red => "bg-red-100 text-red-800"
    case Gray => "bg-gray-100 text-gray-800"
  }

  /** `getStatusColor`, by badge. */
  function StatusBadge(status: string): Badge {
    var s := ToLower(status);
    if s == "new" then Blue
    else if s == "contacted" then Yellow
    else if s == "qualified" then Purple
    else if s == "proposal" then Orange
    else if s == "won" then Green
    else if s == "lost" then Red
    else Gray
  }

  const KnownStatuses: set<string> := {"new", "contacted", "qualified", "proposal", "won", "lost"}

  /** `getStatusColor`: the gray classes exactly for a status that is none of
      the six known ones in any letter case. */
  function GetStatusColor(status: string): (r: string)
    ensures r == BadgeClass(Gray) <==> ToLower(status) !in KnownStatuses
  {
    BadgeKnown(status);
    OnlyGrayIsGray(StatusBadge(status));
    BadgeClass(StatusBadge(status))
  }

  /** The badges have distinct class names. */
  lemma OnlyGrayIsGray(b: Badge)
    ensures BadgeClass(b) == BadgeClass(Gray) <==> b == Gray
  {
    var g := BadgeClass(Gray);
    assert g[3] == 'g' && g[5] == 'a';
    if b != Gray {
      assert BadgeClass(b)[3] != 'g' || BadgeClass(b)[5] != 'a';
    }
  }

  /** Statuses that differ only in the case of their letters get the same badge. */
  lemma BadgeIgnoresCase(s: string, t: string)
    requires ToLower(s) == ToLower(t)
    ensures StatusBadge(s) == StatusBadge(t)
  {
  }

  /** Exactly the six known statuses, in any case, get a colour; the rest are gray. */
  lemma BadgeKnown(status: string)
    ensures StatusBadge(status) != Gray <==> ToLower(status) in KnownStatuses
  {
  }

  /** The pipeline's Negotiation stage is not among them. */
  lemma NegotiationIsGray(s: string)
    requires s == "Negotiation"
    ensures StatusBadge(s) == Gray
  {
    assert ToLower(s)[0] == 'n' && ToLower(s)[1] == 'e' && ToLower(s)[2] == 'g';
  }
}
