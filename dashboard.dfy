/** Dashboard aggregation (app/actions/dashboard.ts): the admin metrics are
    tallied over the fetched lead rows in one pass, the rep metrics count the
    rep's won leads and sort pending follow-ups into day buckets. */
module Dashboard {
  import opened Common
  import opened Tally
  import opened Sorting
  import opened Clock

  /** The signed-in user as the auth service reports it. */
  datatype Session = Session(id: string, role: Option<string>)

  /** A fetched lead: its status, expected value, rep id and the joined rep name. */
  datatype LeadRow = LeadRow(status: string, expectedValue: Option<int>,
                             repId: Option<string>, repName: Option<string>)

  datatype StageCount = StageCount(name: string, value: nat)

  datatype RepWins = RepWins(id: string, name: string, wonCount: nat)

  /** `conversionRate`: '0.0' when there are no leads, otherwise the won share
      `won / total` (its one-decimal rendering is not modelled). */
  datatype Rate = NoLeads | Percent(won: nat, total: nat)

  datatype AdminMetrics = AdminMetrics(totalLeads: nat, wonContacts: nat, lostContacts: nat,
                                       pipelineValue: int, conversionRate: Rate,
                                       leadsByStage: seq<StageCount>, topReps: seq<RepWins>)

  /** A dashboard call either redirects (the guard at the top of each action) or yields metrics. */
  datatype Outcome<T> = RedirectTo(path: string) | Metrics(value: T)

  // ---------------------------------------------------------------------------
  // Admin metrics: the specification

  /** Every row is counted under its status. */
  function StageKey(l: LeadRow): Option<string> {
    Some(l.status)
  }

  /** A Won row with a non-empty rep id counts towards that rep. */
  function RepKey(l: LeadRow): Option<string> {
    if l.status == "Won" && Truthy(l.repId) then l.repId else None
  }

  /** `Number(lead.expected_value || 0)` on integer money. */
  function ValueOf(l: LeadRow): int {
    if l.expectedValue.Some? then l.expectedValue.value else 0
  }

  function PipelineValue(s: seq<LeadRow>): int {
    if s == [] then 0 else PipelineValue(s[..|s| - 1]) + ValueOf(s[|s| - 1])
  }

  function Won(s: seq<LeadRow>): nat {
    CountKey(s, StageKey, "Won")
  }

  function Lost(s: seq<LeadRow>): nat {
    CountKey(s, StageKey, "Lost")
  }

  function RateOf(won: nat, total: nat): Rate {
    if total == 0 then NoLeads else Percent(won, total)
  }

  /** The leaderboard entry of rep `k`: the name comes from the first Won row of
      that rep (the row that created the entry). */
  function RepEntry(s: seq<LeadRow>, k: string): RepWins
    requires k in Keys(s, RepKey)
  {
    RepWins(k, OrElse(FirstWith(s, RepKey, k).repName, "Unknown Rep"), CountKey(s, RepKey, k))
  }

  /** `Object.entries(stageCounts)` for the keys `ks`. */
  function StagesFor(ks: seq<string>, s: seq<LeadRow>): (r: seq<StageCount>)
    ensures |r| == |ks|
  {
    if ks == [] then []
    else StagesFor(ks[..|ks| - 1], s) + [StageCount(ks[|ks| - 1], CountKey(s, StageKey, ks[|ks| - 1]))]
  }

  /** `Object.values(repWonCounts)` for the keys `ks`. */
  function RepsFor(ks: seq<string>, s: seq<LeadRow>): (r: seq<RepWins>)
    requires forall k :: k in ks ==> k in Keys(s, RepKey)
    ensures |r| == |ks|
  {
    if ks == [] then []
    else RepsFor(ks[..|ks| - 1], s) + [RepEntry(s, ks[|ks| - 1])]
  }

  function LeadsByStage(s: seq<LeadRow>): seq<StageCount> {
    StagesFor(KeyOrder(s, StageKey), s)
  }

  function RepTable(s: seq<LeadRow>): seq<RepWins> {
    RepsFor(KeyOrder(s, RepKey), s)
  }

  /** The comparator `b.wonCount - a.wonCount`: `a` may stay before `b` when it has at least as many wins. */
  predicate ByWinsDesc(a: RepWins, b: RepWins) {
    a.wonCount >= b.wonCount
  }

  function TopReps(s: seq<LeadRow>): seq<RepWins> {
    Take(SortBy(RepTable(s), ByWinsDesc), 5)
  }

  const NoMetrics := AdminMetrics(0, 0, 0, 0, NoLeads, [], [])

  predicate IsRole(user: Option<Session>, role: string) {
    user.Some? && user.value.role == Some(role)
  }

  // ---------------------------------------------------------------------------
  // Admin metrics: the loop

  /** The accumulators of the `forEach`. Each dictionary is a map together with
      the order in which its keys were created, which is the order
      `Object.entries`/`Object.values` list them in. */
  datatype Tallies = Tallies(won: nat, lost: nat, pipelineValue: int,
                             stageCounts: map<string, nat>, stageOrder: seq<string>,
                             repWonCounts: map<string, RepWins>, repOrder: seq<string>)

  const NoTallies := Tallies(0, 0, 0, map[], [], map[], [])

  ghost predicate StagesTallied(t: Tallies, p: seq<LeadRow>) {
    && t.stageOrder == KeyOrder(p, StageKey)
    && (forall k :: k in t.stageCounts <==> k in t.stageOrder)
    && (forall k :: k in t.stageCounts ==> t.stageCounts[k] == CountKey(p, StageKey, k))
  }

  ghost predicate RepsTallied(t: Tallies, p: seq<LeadRow>) {
    && t.repOrder == KeyOrder(p, RepKey)
    && (forall k :: k in t.repWonCounts <==> k in t.repOrder)
    && (forall k :: k in t.repWonCounts ==> k in Keys(p, RepKey) && t.repWonCounts[k] == RepEntry(p, k))
  }

  /** The accumulators after the rows `p`. */
  ghost predicate Tallied(t: Tallies, p: seq<LeadRow>) {
    && t.won == Won(p) && t.lost == Lost(p) && t.pipelineValue == PipelineValue(p)
    && StagesTallied(t, p) && RepsTallied(t, p)
  }

  /** `stageCounts[lead.status] = (stageCounts[lead.status] || 0) + 1`. */
  method CountStage(t: Tallies, lead: LeadRow, ghost p: seq<LeadRow>) returns (t': Tallies)
    requires StagesTallied(t, p)
    ensures StagesTallied(t', p + [lead])
    ensures t' == t.(stageCounts := t'.stageCounts, stageOrder := t'.stageOrder)
  {
    var prev := if lead.status in t.stageCounts then t.stageCounts[lead.status] else 0;
    var order := t.stageOrder;
    if lead.status !in t.stageCounts {
      order := order + [lead.status];
    }
    var counts := t.stageCounts[lead.status := prev + 1];
    assert order == KeyOrder(p + [lead], StageKey) by {
      KeyOrderSnoc(p, lead, StageKey);
    }
    forall k | k in counts
      ensures counts[k] == CountKey(p + [lead], StageKey, k)
    {
      StageCountStep(t, p, lead, k);
    }
    t' := t.(stageCounts := counts, stageOrder := order);
  }

  lemma StageCountStep(t: Tallies, p: seq<LeadRow>, lead: LeadRow, k: string)
    requires StagesTallied(t, p)
    requires k == lead.status || k in t.stageCounts
    ensures CountKey(p + [lead], StageKey, k) ==
            (if k == lead.status then (if k in t.stageCounts then t.stageCounts[k] else 0) + 1
             else t.stageCounts[k])
  {
    CountKeySnoc(p, lead, StageKey, k);
    if k !in t.stageCounts {
      KeysMember(p, StageKey, k);
    }
  }

  /** A row for an already-seen rep only raises that rep's count. */
  lemma RepEntrySnoc(p: seq<LeadRow>, x: LeadRow, k: string)
    requires k in Keys(p, RepKey)
    ensures k in Keys(p + [x], RepKey)
    ensures RepEntry(p + [x], k) ==
            RepEntry(p, k).(wonCount := RepEntry(p, k).wonCount + (if RepKey(x) == Some(k) then 1 else 0))
  {
    FirstWithSnoc(p, x, RepKey, k);
    CountKeySnoc(p, x, RepKey, k);
  }

  /** The first Won row of a rep creates its entry with a count of one. */
  lemma RepEntryNew(p: seq<LeadRow>, x: LeadRow, id: string)
    requires RepKey(x) == Some(id) && id !in Keys(p, RepKey)
    ensures id in Keys(p + [x], RepKey)
    ensures RepEntry(p + [x], id) == RepWins(id, OrElse(x.repName, "Unknown Rep"), 1)
  {
    FirstWithSnoc(p, x, RepKey, id);
    CountKeySnoc(p, x, RepKey, id);
    KeysMember(p, RepKey, id);
  }

  /** A row that is not a rep's win changes no leaderboard entry. */
  lemma RepsUnchanged(t: Tallies, p: seq<LeadRow>, x: LeadRow)
    requires RepsTallied(t, p) && RepKey(x).None?
    ensures RepsTallied(t, p + [x])
  {
    KeyOrderSnoc(p, x, RepKey);
    forall k | k in t.repWonCounts
      ensures k in Keys(p + [x], RepKey) && RepEntry(p + [x], k) == RepEntry(p, k)
    {
      RepEntrySnoc(p, x, k);
    }
  }

  /** A win for a rep already on the board adds one to its entry. */
  lemma RepsCountedAgain(t: Tallies, p: seq<LeadRow>, x: LeadRow, id: string)
    requires RepsTallied(t, p) && RepKey(x) == Some(id) && id in t.repWonCounts
    ensures RepsTallied(t.(repWonCounts := t.repWonCounts[id := t.repWonCounts[id].(wonCount := t.repWonCounts[id].wonCount + 1)]),
                        p + [x])
  {
    var e := t.repWonCounts[id];
    var counts := t.repWonCounts[id := e.(wonCount := e.wonCount + 1)];
    KeyOrderSnoc(p, x, RepKey);
    assert t.repOrder == KeyOrder(p + [x], RepKey);
    forall k | k in counts
      ensures k in Keys(p + [x], RepKey) && counts[k] == RepEntry(p + [x], k)
    {
      RepEntrySnoc(p, x, k);
      if k == id {
        assert e == RepEntry(p, id);
      } else {
        assert counts[k] == t.repWonCounts[k];
      }
    }
  }

  /** The first win of a rep puts it on the board with one win. */
  lemma RepsCountedFirst(t: Tallies, p: seq<LeadRow>, x: LeadRow, id: string)
    requires RepsTallied(t, p) && RepKey(x) == Some(id) && id !in t.repWonCounts
    ensures RepsTallied(t.(repWonCounts := t.repWonCounts[id := RepWins(id, OrElse(x.repName, "Unknown Rep"), 1)],
                           repOrder := t.repOrder + [id]),
                        p + [x])
  {
    var counts := t.repWonCounts[id := RepWins(id, OrElse(x.repName, "Unknown Rep"), 1)];
    KeyOrderSnoc(p, x, RepKey);
    assert t.repOrder + [id] == KeyOrder(p + [x], RepKey);
    assert id !in Keys(p, RepKey);
    forall k | k in counts
      ensures k in Keys(p + [x], RepKey) && counts[k] == RepEntry(p + [x], k)
    {
      if k == id {
        RepEntryNew(p, x, id);
      } else {
        RepEntrySnoc(p, x, k);
      }
    }
  }

  /** The leaderboard entry of a Won lead's rep is created on first sight and then counted up. */
  method CountRepWin(t: Tallies, lead: LeadRow, ghost p: seq<LeadRow>) returns (t': Tallies)
    requires RepsTallied(t, p)
    ensures RepsTallied(t', p + [lead])
    ensures t' == t.(repWonCounts := t'.repWonCounts, repOrder := t'.repOrder)
  {
    t' := t;
    if lead.status == "Won" {
      var repId := lead.repId;
      var repName := OrElse(lead.repName, "Unknown Rep");
      if Truthy(repId) {
        var id := repId.value;
        if id !in t'.repWonCounts {
          RepsCountedFirst(t, p, lead, id);
          t' := t'.(repWonCounts := t'.repWonCounts[id := RepWins(id, repName, 0)],
                    repOrder := t'.repOrder + [id]);
        } else {
          RepsCountedAgain(t, p, lead, id);
        }
        var e := t'.repWonCounts[id];
        t' := t'.(repWonCounts := t'.repWonCounts[id := e.(wonCount := e.wonCount + 1)]);
        return;
      }
    }
    RepsUnchanged(t, p, lead);
  }

  /** The body of the `forEach` for one lead. */
  method CountLead(t: Tallies, lead: LeadRow, ghost p: seq<LeadRow>) returns (t': Tallies)
    requires Tallied(t, p)
    ensures Tallied(t', p + [lead])
  {
    CountKeySnoc(p, lead, StageKey, "Won");
    CountKeySnoc(p, lead, StageKey, "Lost");
    assert (p + [lead])[..|p|] == p;
    t' := CountStage(t, lead, p);
    t' := t'.(pipelineValue := t'.pipelineValue + ValueOf(lead));
    if lead.status == "Won" {
      t' := t'.(won := t'.won + 1);
    }
    t' := CountRepWin(t', lead, p);
    if lead.status == "Lost" {
      t' := t'.(lost := t'.lost + 1);
    }
  }

  /** `leads.forEach(...)`: the accumulators after all rows. */
  method CountLeads(leads: seq<LeadRow>) returns (t: Tallies)
    ensures Tallied(t, leads)
  {
    t := NoTallies;
    var i := 0;
    while i < |leads|
      invariant 0 <= i <= |leads|
      invariant Tallied(t, leads[..i])
    {
      TakeSnoc(leads, i);
      t := CountLead(t, leads[i], leads[..i]);
      i := i + 1;
    }
    assert leads[..i] == leads;
  }

  /** `getAdminDashboardMetrics`. `fetched` is `None` when the query failed or returned no data. */
  method AdminDashboardMetrics(user: Option<Session>, fetched: Option<seq<LeadRow>>)
    returns (out: Outcome<AdminMetrics>)
    ensures !IsRole(user, "Admin") ==> out == RedirectTo("/login")
    ensures IsRole(user, "Admin") && fetched.None? ==> out == Metrics(NoMetrics)
    ensures IsRole(user, "Admin") && fetched.Some? ==>
              var s := fetched.value;
              out.Metrics? &&
              out.value.totalLeads == |s| &&
              out.value.wonContacts == Won(s) &&
              out.value.lostContacts == Lost(s) &&
              out.value.pipelineValue == PipelineValue(s) &&
              out.value.conversionRate == RateOf(Won(s), |s|) &&
              out.value.leadsByStage == LeadsByStage(s) &&
              out.value.topReps == TopReps(s)
  {
    if !IsRole(user, "Admin") {
      return RedirectTo("/login");
    }
    var totalLeads: nat := 0;
    var t := NoTallies;
    var leads: seq<LeadRow> := [];
    if fetched.Some? {
      leads := fetched.value;
      totalLeads := |leads|;
      t := CountLeads(leads);
    }
    assert Tallied(t, leads);
    var leadsByStage := StageEntries(t.stageOrder, t.stageCounts);
    var reps := RepEntries(t.repOrder, t.repWonCounts);
    var conversionRate := if totalLeads != 0 then Percent(t.won, totalLeads) else NoLeads;
    var topReps := Take(SortBy(reps, ByWinsDesc), 5);
    StageEntriesTallied(t, leads);
    RepEntriesTallied(t, leads);
    out := Metrics(AdminMetrics(totalLeads, t.won, t.lost, t.pipelineValue, conversionRate, leadsByStage, topReps));
  }

  /** `Object.entries(stageCounts)` as stage counts, in key order. */
  function StageEntries(order: seq<string>, counts: map<string, nat>): (r: seq<StageCount>)
    requires forall k :: k in order ==> k in counts
    ensures |r| == |order|
    ensures forall j :: 0 <= j < |order| ==> r[j] == StageCount(order[j], counts[order[j]])
  {
    seq(|order|, j requires 0 <= j < |order| => StageCount(order[j], counts[order[j]]))
  }

  /** `Object.values(repWonCounts)`, in key order. */
  function RepEntries(order: seq<string>, entries: map<string, RepWins>): (r: seq<RepWins>)
    requires forall k :: k in order ==> k in entries
    ensures |r| == |order|
    ensures forall j :: 0 <= j < |order| ==> r[j] == entries[order[j]]
  {
    seq(|order|, j requires 0 <= j < |order| => entries[order[j]])
  }

  lemma StageEntriesTallied(t: Tallies, s: seq<LeadRow>)
    requires StagesTallied(t, s)
    ensures StageEntries(t.stageOrder, t.stageCounts) == LeadsByStage(s)
  {
    StagesIndex(t.stageOrder, s);
  }

  lemma RepEntriesTallied(t: Tallies, s: seq<LeadRow>)
    requires RepsTallied(t, s)
    ensures RepEntries(t.repOrder, t.repWonCounts) == RepTable(s)
  {
    RepsIndex(t.repOrder, s);
  }

  lemma {:induction false} StagesIndex(ks: seq<string>, s: seq<LeadRow>)
    ensures forall j :: 0 <= j < |ks| ==> StagesFor(ks, s)[j] == StageCount(ks[j], CountKey(s, StageKey, ks[j]))
  {
    if ks != [] {
      StagesIndex(ks[..|ks| - 1], s);
    }
  }

  lemma {:induction false} RepsIndex(ks: seq<string>, s: seq<LeadRow>)
    requires forall k :: k in ks ==> k in Keys(s, RepKey)
    ensures forall j :: 0 <= j < |ks| ==> RepsFor(ks, s)[j] == RepEntry(s, ks[j])
  {
    if ks != [] {
      RepsIndex(ks[..|ks| - 1], s);
    }
  }

  // ---------------------------------------------------------------------------
  // Admin metrics: properties

  function StageSum(cs: seq<StageCount>): nat {
    if cs == [] then 0 else StageSum(cs[..|cs| - 1]) + cs[|cs| - 1].value
  }

  lemma {:induction false} StageSumCounts(ks: seq<string>, s: seq<LeadRow>)
    ensures StageSum(StagesFor(ks, s)) == SumCounts(ks, s, StageKey)
  {
    if ks != [] {
      var r := StagesFor(ks, s);
      assert r[..|r| - 1] == StagesFor(ks[..|ks| - 1], s);
      StageSumCounts(ks[..|ks| - 1], s);
    }
  }

  /** The per-stage counts add up to `totalLeads`. */
  lemma StageCountsSumToTotal(s: seq<LeadRow>)
    ensures StageSum(LeadsByStage(s)) == |s|
  {
    StageSumCounts(KeyOrder(s, StageKey), s);
    SumOverKeyOrder(s, StageKey);
    CountKeyedAll(s, StageKey);
  }

  /** Won and Lost rows are disjoint, so together they are at most all rows. */
  lemma WonLostBounded(s: seq<LeadRow>)
    ensures Won(s) + Lost(s) <= |s|
  {
    TwoKeysBounded(s, StageKey, "Won", "Lost");
    CountKeyedAll(s, StageKey);
  }

  /** Won rows carrying rep id `k`, counted directly. */
  function WonBy(s: seq<LeadRow>, k: string): nat {
    if s == [] then 0
    else
      var l := s[|s| - 1];
      WonBy(s[..|s| - 1], k) + (if l.status == "Won" && l.repId == Some(k) then 1 else 0)
  }

  /** A rep's count is the number of its Won rows; rows with an empty rep id count for nobody. */
  lemma {:induction false} RepCountMeaning(s: seq<LeadRow>, k: string)
    ensures k != "" ==> CountKey(s, RepKey, k) == WonBy(s, k)
    ensures CountKey(s, RepKey, "") == 0
  {
    if s != [] {
      RepCountMeaning(s[..|s| - 1], k);
    }
  }

  /** The wins counted towards reps are at most all wins. */
  lemma {:induction false} RepWinsBounded(s: seq<LeadRow>)
    ensures CountKeyed(s, RepKey) <= Won(s)
  {
    if s != [] {
      RepWinsBounded(s[..|s| - 1]);
    }
  }

  function WinsSum(rs: seq<RepWins>): nat {
    if rs == [] then 0 else rs[0].wonCount + WinsSum(rs[1..])
  }

  lemma {:induction false} WinsSumSnoc(rs: seq<RepWins>, x: RepWins)
    ensures WinsSum(rs + [x]) == WinsSum(rs) + x.wonCount
  {
    if rs != [] {
      assert (rs + [x])[1..] == rs[1..] + [x];
      WinsSumSnoc(rs[1..], x);
    }
  }

  lemma {:induction false} WinsSumReps(ks: seq<string>, s: seq<LeadRow>)
    requires forall k :: k in ks ==> k in Keys(s, RepKey)
    ensures WinsSum(RepsFor(ks, s)) == SumCounts(ks, s, RepKey)
  {
    if ks != [] {
      var init := ks[..|ks| - 1];
      assert forall k :: k in init ==> k in ks;
      WinsSumReps(init, s);
      WinsSumSnoc(RepsFor(init, s), RepEntry(s, ks[|ks| - 1]));
    }
  }

  lemma {:induction false} WinsSumInsert(x: RepWins, rs: seq<RepWins>)
    ensures WinsSum(Insert(x, rs, ByWinsDesc)) == x.wonCount + WinsSum(rs)
  {
    if rs != [] && !ByWinsDesc(x, rs[0]) {
      WinsSumInsert(x, rs[1..]);
      assert ([rs[0]] + Insert(x, rs[1..], ByWinsDesc))[1..] == Insert(x, rs[1..], ByWinsDesc);
    }
  }

  lemma {:induction false} WinsSumSort(rs: seq<RepWins>)
    ensures WinsSum(SortBy(rs, ByWinsDesc)) == WinsSum(rs)
  {
    if rs != [] {
      WinsSumSort(rs[1..]);
      WinsSumInsert(rs[0], SortBy(rs[1..], ByWinsDesc));
    }
  }

  lemma {:induction false} WinsSumPrefix(rs: seq<RepWins>, n: nat)
    requires n <= |rs|
    ensures WinsSum(rs[..n]) <= WinsSum(rs)
  {
    if n > 0 {
      assert rs[..n][1..] == rs[1..][..n - 1];
      WinsSumPrefix(rs[1..], n - 1);
    }
  }

  lemma ByWinsDescPreorder()
    ensures TotalPreorder(ByWinsDesc)
  {
  }

  /** The leaderboard is at most five reps, by non-increasing wins. */
  lemma TopRepsSorted(s: seq<LeadRow>)
    ensures |TopReps(s)| <= 5
    ensures SortedBy(TopReps(s), ByWinsDesc)
  {
    ByWinsDescPreorder();
    SortBySorted(RepTable(s), ByWinsDesc);
  }

  /** Every leaderboard row is the entry of a rep with a Won lead, with its true count. */
  lemma TopRepsEntries(s: seq<LeadRow>)
    ensures forall r :: r in TopReps(s) ==>
              r.id in Keys(s, RepKey) && r == RepEntry(s, r.id) && r.wonCount == CountKey(s, RepKey, r.id)
  {
    var ks := KeyOrder(s, RepKey);
    var table := RepTable(s);
    var sorted := SortBy(table, ByWinsDesc);
    var top := TopReps(s);
    RepsIndex(ks, s);
    forall r | r in top
      ensures r.id in Keys(s, RepKey) && r == RepEntry(s, r.id)
    {
      var i :| 0 <= i < |top| && top[i] == r;
      assert sorted[i] == r;
      assert r in multiset(sorted);
      assert r in multiset(table);
      var j :| 0 <= j < |table| && table[j] == r;
      assert r == RepEntry(s, ks[j]);
    }
  }

  /** The wins shown on the leaderboard are at most the total number of wins. */
  lemma TopRepsSum(s: seq<LeadRow>)
    ensures WinsSum(TopReps(s)) <= Won(s)
  {
    var ks := KeyOrder(s, RepKey);
    var sorted := SortBy(RepTable(s), ByWinsDesc);
    WinsSumReps(ks, s);
    SumOverKeyOrder(s, RepKey);
    RepWinsBounded(s);
    WinsSumSort(RepTable(s));
    if |sorted| > 5 {
      WinsSumPrefix(sorted, 5);
    }
  }

  /** No rep left off the leaderboard has more wins than a rep shown on it. */
  lemma TopRepsBest(s: seq<LeadRow>, r: RepWins, k: string)
    requires r in TopReps(s) && k in Keys(s, RepKey) && RepEntry(s, k) !in TopReps(s)
    ensures CountKey(s, RepKey, k) <= r.wonCount
  {
    var ks := KeyOrder(s, RepKey);
    var table := RepTable(s);
    var sorted := SortBy(table, ByWinsDesc);
    ByWinsDescPreorder();
    SortBySorted(table, ByWinsDesc);
    RepsIndex(ks, s);
    var e := RepEntry(s, k);
    var j :| 0 <= j < |ks| && ks[j] == k;
    assert table[j] == e;
    assert e in multiset(sorted);
    TakeKeepsFirst(sorted, ByWinsDesc, 5, r, e);
  }

  /** With no data (or a failed query) every metric is zero or empty, and a failed
      query reads exactly like an empty lead table. */
  lemma NoDataMetrics()
    ensures NoMetrics.totalLeads == 0 && NoMetrics.wonContacts == 0 && NoMetrics.lostContacts == 0
    ensures NoMetrics.pipelineValue == 0 && NoMetrics.conversionRate == NoLeads
    ensures NoMetrics.leadsByStage == [] && NoMetrics.topReps == []
    ensures var s: seq<LeadRow> := [];
            AdminMetrics(|s|, Won(s), Lost(s), PipelineValue(s), RateOf(Won(s), |s|),
                         LeadsByStage(s), TopReps(s)) == NoMetrics
  {
  }

  // ---------------------------------------------------------------------------
  // Rep metrics

  /** A pending follow-up as fetched, with the joined lead name and company. */
  datatype Reminder = Reminder(id: string, due: int, status: string, leadId: string,
                               leadName: string, company: Option<string>)

  datatype RepMetrics = RepMetrics(assignedLeadsCount: nat, wonDeals: nat, conversionRate: Rate,
                                   today: seq<Reminder>, upcoming: seq<Reminder>, overdue: seq<Reminder>)

  datatype Bucket = Overdue | Today | Upcoming

  /** Both the due date and today are moved to local midnight before comparing. */
  function BucketOf(due: int, now: int, tz: int): Bucket {
    var d := StartOfDay(due, tz);
    var today := StartOfDay(now, tz);
    if d < today then Overdue else if d == today then Today else Upcoming
  }

  /** The reminders of bucket `b`, in input order. */
  function Select(fs: seq<Reminder>, b: Bucket, now: int, tz: int): (r: seq<Reminder>)
    ensures |r| <= |fs|
  {
    if fs == [] then []
    else
      var f := fs[|fs| - 1];
      var r := Select(fs[..|fs| - 1], b, now, tz);
      if BucketOf(f.due, now, tz) == b then r + [f] else r
  }

  function CountWon(statuses: seq<string>): (n: nat)
    ensures n <= |statuses|
  {
    if statuses == [] then 0
    else CountWon(statuses[..|statuses| - 1]) + (if statuses[|statuses| - 1] == "Won" then 1 else 0)
  }

  /** `getRepDashboardMetrics`. `myLeads` are the statuses of the rep's leads and
      `followups` the pending follow-ups in due order, each `None` when no data came back. */
  method RepDashboardMetrics(user: Option<Session>, myLeads: Option<seq<string>>,
                             followups: Option<seq<Reminder>>, now: int, tz: int)
    returns (out: Outcome<RepMetrics>)
    ensures !IsRole(user, "SalesRep") ==> out == RedirectTo("/login")
    ensures IsRole(user, "SalesRep") ==>
              var s := if myLeads.Some? then myLeads.value else [];
              var fs := if followups.Some? then followups.value else [];
              out.Metrics? &&
              out.value.assignedLeadsCount == |s| &&
              out.value.wonDeals == CountWon(s) &&
              out.value.wonDeals <= out.value.assignedLeadsCount &&
              out.value.conversionRate == RateOf(CountWon(s), |s|) &&
              out.value.overdue == Select(fs, Overdue, now, tz) &&
              out.value.today == Select(fs, Today, now, tz) &&
              out.value.upcoming == Select(fs, Upcoming, now, tz)
  {
    if !IsRole(user, "SalesRep") {
      return RedirectTo("/login");
    }
    var totalAssigned: nat := 0;
    var won: nat := 0;
    if myLeads.Some? {
      var ls := myLeads.value;
      totalAssigned := |ls|;
      var i := 0;
      while i < |ls|
        invariant 0 <= i <= |ls|
        invariant won == CountWon(ls[..i])
      {
        assert ls[..i + 1][..i] == ls[..i];
        if ls[i] == "Won" {
          won := won + 1;
        }
        i := i + 1;
      }
      assert ls[..i] == ls;
    }
    var conversionRate := if totalAssigned != 0 then Percent(won, totalAssigned) else NoLeads;

    var todayReminders: seq<Reminder> := [];
    var upcomingReminders: seq<Reminder> := [];
    var overdueReminders: seq<Reminder> := [];
    var today := StartOfDay(now, tz);
    if followups.Some? {
      var fs := followups.value;
      var i := 0;
      while i < |fs|
        invariant 0 <= i <= |fs|
        invariant overdueReminders == Select(fs[..i], Overdue, now, tz)
        invariant todayReminders == Select(fs[..i], Today, now, tz)
        invariant upcomingReminders == Select(fs[..i], Upcoming, now, tz)
      {
        var f := fs[i];
        assert fs[..i + 1][..i] == fs[..i];
        var dueDate := StartOfDay(f.due, tz);
        if dueDate < today {
          overdueReminders := overdueReminders + [f];
        } else if dueDate == today {
          todayReminders := todayReminders + [f];
        } else {
          upcomingReminders := upcomingReminders + [f];
        }
        i := i + 1;
      }
      assert fs[..i] == fs;
    }
    out := Metrics(RepMetrics(totalAssigned, won, conversionRate,
                              todayReminders, upcomingReminders, overdueReminders));
  }

  /** Each follow-up lands in the bucket of its day, and only there. */
  lemma {:induction false} BucketMembers(fs: seq<Reminder>, now: int, tz: int, b: Bucket)
    ensures forall f :: f in Select(fs, b, now, tz) <==> f in fs && BucketOf(f.due, now, tz) == b
  {
    if fs != [] {
      var p := fs[..|fs| - 1];
      assert fs == p + [fs[|fs| - 1]];
      BucketMembers(p, now, tz, b);
    }
  }

  /** Each bucket keeps the input order. */
  lemma {:induction false} BucketOrder(fs: seq<Reminder>, now: int, tz: int, b: Bucket)
    ensures IsSubsequence(Select(fs, b, now, tz), fs)
  {
    if fs != [] {
      var p := fs[..|fs| - 1];
      var f := fs[|fs| - 1];
      assert fs == p + [f];
      BucketOrder(p, now, tz, b);
      SubsequenceSnoc(Select(p, b, now, tz), p, f);
    }
  }

  /** The bucket sizes add up to the number of follow-ups. */
  lemma {:induction false} BucketSizes(fs: seq<Reminder>, now: int, tz: int)
    ensures |Select(fs, Overdue, now, tz)| + |Select(fs, Today, now, tz)| + |Select(fs, Upcoming, now, tz)| == |fs|
  {
    if fs != [] {
      BucketSizes(fs[..|fs| - 1], now, tz);
    }
  }

  /** What each bucket means in terms of today's local midnight. */
  lemma BucketMeaning(due: int, now: int, tz: int)
    ensures BucketOf(due, now, tz) == Overdue <==> due < StartOfDay(now, tz)
    ensures BucketOf(due, now, tz) == Today <==>
              StartOfDay(now, tz) <= due < StartOfDay(now, tz) + DayMs
    ensures BucketOf(due, now, tz) == Upcoming <==> due >= StartOfDay(now, tz) + DayMs
  {
    EarlierDay(due, now, tz);
    SameDay(due, now, tz);
  }
}
