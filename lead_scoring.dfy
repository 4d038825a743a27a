/** Lead quality scoring (utils/leadScoring.ts): a fixed point table over
    the contact fields, the source and the pipeline stage, with a reason text. */
module LeadScoring {
  import opened Common

  /** The fields the score looks at. A missing source or status behaves like
      any string outside the table. */
  datatype Lead = Lead(email: Option<string>, phone: Option<string>, company: Option<string>,
                       source: string, status: string)

  datatype ScoreResult = ScoreResult(score: nat, reason: string)

  const GoodSources: set<string> := {"LinkedIn", "Website"}

  /** Points for the pipeline stage; Lost and unknown statuses earn nothing. */
  function StageBonus(status: string): (b: nat)
    ensures b <= 30
    ensures b == 30 <==> status == "Won"
  {
    if status == "Contacted" then 5
    else if status == "Qualified" then 10
    else if status == "Proposal" then 15
    else if status == "Negotiation" then 20
    else if status == "Won" then 30
    else 0
  }

  function FieldPoints(field: Option<string>, points: nat): nat {
    if Truthy(field) then points else 0
  }

  /** The score as a sum of independent contributions. It never exceeds 100,
      full marks leave nothing to deduct, and a lead with nothing deducted
      has at least the 70 points of its contact fields and source. */
  function Score(l: Lead): (r: nat)
    ensures r <= 100
    ensures r == 100 ==> Deductions(l) == []
    ensures Deductions(l) == [] ==> 70 <= r
  {
    FieldPoints(l.email, 20) + FieldPoints(l.phone, 20) + FieldPoints(l.company, 20) +
    (if l.source in GoodSources then 10 else 0) + StageBonus(l.status)
  }

  predicate EarlyOrLost(status: string) {
    status == "New" || status == "Lost"
  }

  function Deduction(applies: bool, text: string): seq<string> {
    if applies then [text] else []
  }

  /** The deduction texts, in the order the checks are made: at most one per
      check, each one of the five known texts, and none exactly when every
      check passes. */
  function Deductions(l: Lead): (r: seq<string>)
    ensures |r| <= 5
    ensures forall i :: 0 <= i < |r| ==> r[i] in DeductionOrder
    ensures r == [] <==> Truthy(l.email) && Truthy(l.phone) && Truthy(l.company) &&
                         l.source in GoodSources && !EarlyOrLost(l.status)
  {
    Deduction(!Truthy(l.email), "missing email") +
    Deduction(!Truthy(l.phone), "missing phone") +
    Deduction(!Truthy(l.company), "missing company") +
    Deduction(l.source !in GoodSources, "lower-quality source") +
    Deduction(EarlyOrLost(l.status), "early/lost stage")
  }

  const Excellent := "Excellent lead profile and progression."

  /** The reason text: the fixed praise exactly at full marks, otherwise a
      line that starts with the score in decimal. */
  function ReasonFor(score: nat, reasons: seq<string>): (r: string)
    ensures r == Excellent <==> score == 100
    ensures score != 100 ==> StartsWith(r, "Score: " + NatToString(score) + " - ")
  {
    if score == 100 then Excellent
    else
      assert Excellent[0] != 'S';
      "Score: " + NatToString(score) + " - " +
         (if |reasons| > 0 then "Points deducted for: " + Join(reasons, ", ") else "Good lead profile.")
  }

  /** The `switch` on the status. */
  method StageScore(status: string) returns (stageScore: nat)
    ensures stageScore == StageBonus(status)
  {
    stageScore := 0;
    if status == "New" { stageScore := 0; }
    else if status == "Contacted" { stageScore := 5; }
    else if status == "Qualified" { stageScore := 10; }
    else if status == "Proposal" { stageScore := 15; }
    else if status == "Negotiation" { stageScore := 20; }
    else if status == "Won" { stageScore := 30; }
    else if status == "Lost" { stageScore := 0; }
  }

  /** `calculateLeadScore`: the score and the reason are accumulated step by step. */
  method CalculateLeadScore(l: Lead) returns (r: ScoreResult)
    ensures r.score == Score(l) && r.score <= 100
    ensures r.reason == ReasonFor(Score(l), Deductions(l))
  {
    var score: nat := 0;
    var reasons: seq<string> := [];

    if Truthy(l.email) { score := score + 20; } else { reasons := reasons + ["missing email"]; }
    assert reasons == Deduction(!Truthy(l.email), "missing email");
    if Truthy(l.phone) { score := score + 20; } else { reasons := reasons + ["missing phone"]; }
    assert reasons == Deduction(!Truthy(l.email), "missing email") +
                      Deduction(!Truthy(l.phone), "missing phone");
    if Truthy(l.company) { score := score + 20; } else { reasons := reasons + ["missing company"]; }
    ghost var contact := reasons;
    assert contact == Deduction(!Truthy(l.email), "missing email") +
                      Deduction(!Truthy(l.phone), "missing phone") +
                      Deduction(!Truthy(l.company), "missing company");
    assert score == FieldPoints(l.email, 20) + FieldPoints(l.phone, 20) + FieldPoints(l.company, 20);

    if l.source == "LinkedIn" || l.source == "Website" {
      score := score + 10;
    } else {
      reasons := reasons + ["lower-quality source"];
    }
    ghost var sourced := reasons;
    assert sourced == contact + Deduction(l.source !in GoodSources, "lower-quality source");

    var stageScore := StageScore(l.status);
    score := score + stageScore;
    assert score == Score(l);

    if l.status in ["New", "Lost"] {
      reasons := reasons + ["early/lost stage"];
    }
    assert reasons == sourced + Deduction(EarlyOrLost(l.status), "early/lost stage");
    assert reasons == Deductions(l);

    var reasonStr := "";
    if score == 100 {
      reasonStr := Excellent;
    } else {
      reasonStr := "Score: " + NatToString(score) + " - " +
        (if |reasons| > 0 then "Points deducted for: " + Join(reasons, ", ") else "Good lead profile.");
    }
    assert reasonStr == ReasonFor(score, reasons);
    r := ScoreResult(score, reasonStr);
  }

  /** The score always lies between 0 and 100. */
  lemma ScoreBounds(l: Lead)
    ensures 0 <= Score(l) <= 100
  {
  }

  /** Filling in a missing email, phone or company never lowers the score. */
  lemma ScoreMonotone(l: Lead, email: Option<string>, phone: Option<string>, company: Option<string>)
    requires Truthy(l.email) ==> Truthy(email)
    requires Truthy(l.phone) ==> Truthy(phone)
    requires Truthy(l.company) ==> Truthy(company)
    ensures Score(l) <= Score(l.(email := email, phone := phone, company := company))
  {
  }

  /** Full marks exactly for a complete contact, a good source and a won deal. */
  lemma PerfectScore(l: Lead)
    ensures Score(l) == 100 <==>
            Truthy(l.email) && Truthy(l.phone) && Truthy(l.company) &&
            l.source in GoodSources && l.status == "Won"
    ensures Score(l) == 100 ==> Deductions(l) == [] &&
                                ReasonFor(Score(l), Deductions(l)) == Excellent
  {
  }

  const DeductionOrder: seq<string> :=
    ["missing email", "missing phone", "missing company", "lower-quality source", "early/lost stage"]

  /** Each deduction appears exactly when its check fails, in the fixed order
      email, phone, company, source, stage. */
  lemma DeductionsInOrder(l: Lead)
    ensures IsSubsequence(Deductions(l), DeductionOrder)
    ensures forall i :: 0 <= i < |DeductionOrder| ==>
              (DeductionOrder[i] in Deductions(l) <==> DeductionApplies(l, i))
  {
    DeductionsSubsequence(l);
    forall i | 0 <= i < |DeductionOrder|
      ensures DeductionOrder[i] in Deductions(l) <==> DeductionApplies(l, i)
    {
      DeductionMember(l, i);
    }
  }

  /** Whether the `i`-th check of the table fails for `l`. */
  predicate DeductionApplies(l: Lead, i: nat)
    requires i < 5
  {
    match i
    case 0 => !Truthy(l.email)
    case 1 => !Truthy(l.phone)
    case 2 => !Truthy(l.company)
    case 3 => l.source !in GoodSources
    case 4 => EarlyOrLost(l.status)
  }

  /** The checks from the `i`-th on, driven by the order table. */
  function DeductionsFrom(l: Lead, i: nat): seq<string>
    requires i <= 5
    decreases 5 - i
  {
    if i == 5 then [] else Deduction(DeductionApplies(l, i), DeductionOrder[i]) + DeductionsFrom(l, i + 1)
  }

  lemma DeductionsByTable(l: Lead)
    ensures Deductions(l) == DeductionsFrom(l, 0)
  {
    var d4 := Deduction(EarlyOrLost(l.status), "early/lost stage");
    var d3 := Deduction(l.source !in GoodSources, "lower-quality source");
    var d2 := Deduction(!Truthy(l.company), "missing company");
    var d1 := Deduction(!Truthy(l.phone), "missing phone");
    var d0 := Deduction(!Truthy(l.email), "missing email");
    assert DeductionsFrom(l, 4) == d4 + [];
    assert DeductionsFrom(l, 3) == d3 + (d4 + []);
    assert DeductionsFrom(l, 2) == d2 + (d3 + (d4 + []));
    assert DeductionsFrom(l, 1) == d1 + (d2 + (d3 + (d4 + [])));
    assert DeductionsFrom(l, 0) == d0 + (d1 + (d2 + (d3 + (d4 + []))));
    ConcatRegroup(d0, d1, d2, d3, d4);
  }

  lemma ConcatRegroup<T>(a: seq<T>, b: seq<T>, c: seq<T>, d: seq<T>, e: seq<T>)
    ensures a + (b + (c + (d + (e + [])))) == a + b + c + d + e
  {
    assert e + [] == e;
  }

  lemma {:induction false} DeductionsFromMember(l: Lead, i: nat, j: nat)
    requires i <= 5 && j < 5
    ensures DeductionOrder[j] in DeductionsFrom(l, i) <==> i <= j && DeductionApplies(l, j)
    decreases 5 - i
  {
    if i < 5 {
      DeductionsFromMember(l, i + 1, j);
      assert DeductionOrder[i] == DeductionOrder[j] <==> i == j by {
        assert DeductionOrder[0][8] == 'e' && DeductionOrder[1][8] == 'p' && DeductionOrder[2][8] == 'c';
        assert |DeductionOrder[3]| == 20 && |DeductionOrder[4]| == 16 && |DeductionOrder[0]| == 13;
      }
    }
  }

  lemma DeductionMember(l: Lead, i: nat)
    requires i < 5
    ensures DeductionOrder[i] in Deductions(l) <==> DeductionApplies(l, i)
  {
    DeductionsByTable(l);
    DeductionsFromMember(l, 0, i);
  }

  lemma {:induction false} DeductionsFromSubsequence(l: Lead, i: nat)
    requires i <= 5
    ensures IsSubsequence(DeductionsFrom(l, i), DeductionOrder[i..])
    decreases 5 - i
  {
    if i < 5 {
      DeductionsFromSubsequence(l, i + 1);
      SubsequenceStep(Deduction(DeductionApplies(l, i), DeductionOrder[i]), DeductionsFrom(l, i + 1),
                      DeductionOrder[i], DeductionOrder[i + 1..]);
      assert [DeductionOrder[i]] + DeductionOrder[i + 1..] == DeductionOrder[i..];
    }
  }

  lemma DeductionsSubsequence(l: Lead)
    ensures IsSubsequence(Deductions(l), DeductionOrder)
  {
    DeductionsByTable(l);
    DeductionsFromSubsequence(l, 0);
  }

  lemma SubsequenceStep(d: seq<string>, rest: seq<string>, x: string, tail: seq<string>)
    requires d == [] || d == [x]
    requires IsSubsequence(rest, tail)
    ensures IsSubsequence(d + rest, [x] + tail)
  {
    if d == [] {
      assert d + rest == rest;
      SubsequenceCons(rest, tail, x);
    } else {
      assert (d + rest)[1..] == rest;
      assert ([x] + tail)[1..] == tail;
    }
  }

  /** Below full marks and with nothing deducted, the reason is the plain score line. */
  lemma GoodProfileReason(l: Lead)
    requires Score(l) < 100 && Deductions(l) == []
    ensures ReasonFor(Score(l), Deductions(l)) ==
            "Score: " + NatToString(Score(l)) + " - Good lead profile."
    ensures Score(l) == 60 + 10 + StageBonus(l.status) && l.status != "Won"
  {
  }
}
