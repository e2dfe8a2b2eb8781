/** `generate_optimization_report`: the recommendations of the patterns
    above the medium threshold are scored, a later score for the same
    recommendation replacing the earlier one; the ten best-scored become the
    prioritised list, each with its effort estimate, and the roadmap is built
    from that list. */
module Report {
  import opened Text
  import opened Sorting
  import opened Patterns
  import opened Roadmap
  import Effectiveness

  /** How many recommendations the prioritised list keeps. */
  const TopCount: nat := 10

  /** `sum(pattern.predicted_impact.values())` as written: the sum adds the
      values from the left and raises `TypeError` (here `None`) at the first
      one that is a record rather than a number. */
  function ImpactSumAsWritten(impact: seq<(string, ImpactValue)>): Option<real>
    decreases |impact|
  {
    if |impact| == 0 then Some(0.0)
    else
      match (ImpactSumAsWritten(impact[..|impact| - 1]), impact[|impact| - 1].1)
      case (Some(x), Number(v)) => Some(x + v)
      case _ => None
  }

  /** The impact score the report uses: the sum of the numeric values, a
      `recommended_optimization` record counting for nothing; 0 for an empty
      dict. */
  function ImpactScore(impact: seq<(string, ImpactValue)>): real
    decreases |impact|
  {
    if |impact| == 0 then 0.0
    else
      ImpactScore(impact[..|impact| - 1]) +
      (match impact[|impact| - 1].1 case Number(v) => v case Recommended(_, _, _, _) => 0.0)
  }

  /** `confidence * (1 + impact_score * 0.1)`. */
  function Priority(p: Pattern): real {
    p.confidence * (1.0 + ImpactScore(p.impact) * 0.1)
  }

  /** The `recommendation_priorities` dict: its keys in insertion order and
      the score of each. */
  datatype Table = Table(keys: seq<string>, priorities: map<string, real>)

  ghost predicate Valid(t: Table) {
    (forall i, j :: 0 <= i < j < |t.keys| ==> t.keys[i] != t.keys[j]) &&
    (forall x :: x in t.keys <==> x in t.priorities)
  }

  const EmptyTable: Table := Table([], map[])

  /** `recommendation_priorities[rec] = score`: a new key goes last, a
      present one keeps its place and takes the new score. */
  function Assign(t: Table, rec: string, score: real): (r: Table)
    requires Valid(t)
    ensures Valid(r)
  {
    var r := Table(if rec in t.priorities then t.keys else t.keys + [rec], t.priorities[rec := score]);
    assert forall x :: x in r.keys <==> x in t.keys || x == rec;
    r
  }

  /** The assignments of `entries`, in order, starting from `t`. */
  function Fold(t: Table, entries: seq<(string, real)>): (r: Table)
    requires Valid(t)
    ensures Valid(r)
    decreases |entries|
  {
    if |entries| == 0 then t
    else Assign(Fold(t, entries[..|entries| - 1]), entries[|entries| - 1].0, entries[|entries| - 1].1)
  }

  /** The same score for each recommendation of a list. */
  function Pairs(recs: seq<string>, score: real): (r: seq<(string, real)>)
    ensures |r| == |recs|
  {
    seq(|recs|, k requires 0 <= k < |recs| => (recs[k], score))
  }

  /** What the inner loop assigns for one pattern: nothing unless the
      pattern is above the medium threshold. */
  function Entries(p: Pattern): seq<(string, real)> {
    if p.confidence > MediumConfidence then Pairs(p.recommendations, Priority(p)) else []
  }

  function Scored(patterns: seq<Pattern>): seq<(string, real)>
    decreases |patterns|
  {
    if |patterns| == 0 then []
    else Scored(patterns[..|patterns| - 1]) + Entries(patterns[|patterns| - 1])
  }

  /** `recommendation_priorities.items()`. */
  function Items(t: Table): (r: seq<(string, real)>)
    requires Valid(t)
    ensures |r| == |t.keys|
  {
    seq(|t.keys|, k requires 0 <= k < |t.keys| => (t.keys[k], t.priorities[t.keys[k]]))
  }

  function NegatedScore(item: (string, real)): real {
    -item.1
  }

  /** `sorted(..., key=lambda x: x[1], reverse=True)`. */
  function Ranked(t: Table): seq<(string, real)>
    requires Valid(t)
  {
    SortBy(Items(t), NegatedScore)
  }

  /** One entry of `priority_recommendations`. */
  function Prioritize(item: (string, real)): PriorityRec {
    var e := EstimateEffort(item.0);
    PriorityRec(item.0, item.1, e.timeMinutes, e.tokenSavings, e.confidence)
  }

  function PrioritizeAll(items: seq<(string, real)>): (r: seq<PriorityRec>)
    ensures |r| == |items|
  {
    seq(|items|, k requires 0 <= k < |items| => Prioritize(items[k]))
  }

  datatype OptimizationReport = OptimizationReport(
    patternsAnalyzed: nat,
    highConfidencePatterns: nat,
    totalRecommendations: nat,
    priorityRecommendations: seq<PriorityRec>,
    implementationRoadmap: seq<Phase>)

  /** The report as a function of the patterns. */
  function ReportOf(patterns: seq<Pattern>): OptimizationReport {
    var confident := Confident(patterns, MediumConfidence);
    var recs := PrioritizeAll(Take(Ranked(Fold(EmptyTable, Scored(patterns))), TopCount));
    OptimizationReport(|patterns|, |confident|, |AllRecommendations(confident)|, recs, GenerateRoadmap(recs))
  }

  method GenerateReport(patterns: seq<Pattern>) returns (report: OptimizationReport)
    ensures report == ReportOf(patterns)
  {
    var highConfidence, allRecommendations, keys, priorities := ScorePatterns(patterns);
    var top := Take(Ranked(Table(keys, priorities)), TopCount);
    var priorityRecommendations := PrioritizeTop(top);
    var roadmap := GenerateRoadmap(priorityRecommendations);
    report := OptimizationReport(|patterns|, highConfidence, |allRecommendations|, priorityRecommendations, roadmap);
  }

  /** The outer loop over the patterns: the confident ones are counted,
      their recommendations collected and scored. */
  method ScorePatterns(patterns: seq<Pattern>)
    returns (highConfidence: nat, allRecommendations: seq<string>, keys: seq<string>, priorities: map<string, real>)
    ensures highConfidence == |Confident(patterns, MediumConfidence)|
    ensures allRecommendations == AllRecommendations(Confident(patterns, MediumConfidence))
    ensures Valid(Table(keys, priorities))
    ensures Table(keys, priorities) == Fold(EmptyTable, Scored(patterns))
  {
    highConfidence := 0;
    allRecommendations := [];
    keys := [];
    priorities := map[];
    for i := 0 to |patterns|
      invariant Scanned(patterns, i, highConfidence, allRecommendations, keys, priorities)
    {
      highConfidence, allRecommendations, keys, priorities :=
        ScoreOne(patterns, i, highConfidence, allRecommendations, keys, priorities);
    }
    assert patterns[..|patterns|] == patterns;
  }

  /** The state of the outer loop after the first `i` patterns. */
  ghost predicate Scanned(patterns: seq<Pattern>, i: nat, highConfidence: nat, allRecommendations: seq<string>,
                          keys: seq<string>, priorities: map<string, real>)
    requires i <= |patterns|
  {
    var confident := Confident(patterns[..i], MediumConfidence);
    highConfidence == |confident| &&
    allRecommendations == AllRecommendations(confident) &&
    Valid(Table(keys, priorities)) &&
    Table(keys, priorities) == Fold(EmptyTable, Scored(patterns[..i]))
  }

  /** One iteration of the outer loop. */
  method ScoreOne(patterns: seq<Pattern>, i: nat, highConfidence: nat, allRecommendations: seq<string>,
                  keys: seq<string>, priorities: map<string, real>)
    returns (highConfidence': nat, allRecommendations': seq<string>, keys': seq<string>, priorities': map<string, real>)
    requires i < |patterns|
    requires Scanned(patterns, i, highConfidence, allRecommendations, keys, priorities)
    ensures Scanned(patterns, i + 1, highConfidence', allRecommendations', keys', priorities')
  {
    ReportStep(patterns, i);
    var pattern := patterns[i];
    highConfidence', allRecommendations', keys', priorities' := highConfidence, allRecommendations, keys, priorities;
    if pattern.confidence > MediumConfidence {
      highConfidence' := highConfidence + 1;
      allRecommendations' := allRecommendations + pattern.recommendations;
      keys', priorities' := ScorePattern(keys, priorities, pattern);
    }
  }

  /** One pattern of the outer loop: a confident one is counted, its
      recommendations collected and scored; any other changes nothing. */
  lemma ReportStep(patterns: seq<Pattern>, i: nat)
    requires i < |patterns|
    ensures var before := Confident(patterns[..i], MediumConfidence);
      var after := Confident(patterns[..i + 1], MediumConfidence);
      if patterns[i].confidence > MediumConfidence then
        |after| == |before| + 1 &&
        AllRecommendations(after) == AllRecommendations(before) + patterns[i].recommendations
      else after == before
    ensures Fold(EmptyTable, Scored(patterns[..i + 1])) == Fold(Fold(EmptyTable, Scored(patterns[..i])), Entries(patterns[i]))
    ensures patterns[i].confidence <= MediumConfidence ==> Entries(patterns[i]) == []
  {
    var before := Confident(patterns[..i], MediumConfidence);
    ConfidentSnoc(patterns, i, MediumConfidence);
    assert patterns[..i + 1][..i] == patterns[..i];
    FoldAppend(EmptyTable, Scored(patterns[..i]), Entries(patterns[i]));
    if patterns[i].confidence > MediumConfidence {
      assert (before + [patterns[i]])[..|before|] == before;
    } else {
      assert before + [] == before;
    }
  }

  /** The loop over the ten best items, with their effort estimates. */
  method PrioritizeTop(top: seq<(string, real)>) returns (priorityRecommendations: seq<PriorityRec>)
    ensures priorityRecommendations == PrioritizeAll(top)
  {
    priorityRecommendations := [];
    for k := 0 to |top|
      invariant priorityRecommendations == PrioritizeAll(top[..k])
    {
      var estimate := EstimateEffort(top[k].0);
      priorityRecommendations := priorityRecommendations +
        [PriorityRec(top[k].0, top[k].1, estimate.timeMinutes, estimate.tokenSavings, estimate.confidence)];
    }
    assert top[..|top|] == top;
  }

  /** The inner loop over one confident pattern's recommendations. */
  method ScorePattern(keys: seq<string>, priorities: map<string, real>, pattern: Pattern)
    returns (keys': seq<string>, priorities': map<string, real>)
    requires Valid(Table(keys, priorities))
    requires pattern.confidence > MediumConfidence
    ensures Valid(Table(keys', priorities'))
    ensures Table(keys', priorities') == Fold(Table(keys, priorities), Entries(pattern))
  {
    keys', priorities' := keys, priorities;
    ghost var start := Table(keys, priorities);
    ghost var pairs := Pairs(pattern.recommendations, Priority(pattern));
    for j := 0 to |pattern.recommendations|
      invariant Valid(Table(keys', priorities'))
      invariant Table(keys', priorities') == Fold(start, pairs[..j])
    {
      ghost var current := Table(keys', priorities');
      var rec := pattern.recommendations[j];
      var priorityScore := Priority(pattern);
      FoldSnoc(start, pairs, j);
      assert pairs[j] == (rec, priorityScore);
      if rec !in priorities' {
        keys' := keys' + [rec];
      }
      priorities' := priorities'[rec := priorityScore];
      assert Table(keys', priorities') == Assign(current, rec, priorityScore);
    }
    assert pairs[..|pairs|] == pairs;
  }

  lemma FoldSnoc(t: Table, entries: seq<(string, real)>, j: nat)
    requires Valid(t) && j < |entries|
    ensures Fold(t, entries[..j + 1]) == Assign(Fold(t, entries[..j]), entries[j].0, entries[j].1)
  {
    assert entries[..j + 1][..j] == entries[..j];
  }

  // ---------------------------------------------------------------------------
  // the priorities dict

  lemma {:induction false} FoldAppend(t: Table, a: seq<(string, real)>, b: seq<(string, real)>)
    requires Valid(t)
    ensures Fold(t, a + b) == Fold(Fold(t, a), b)
    decreases |b|
  {
    if |b| == 0 {
      assert a + b == a;
    } else {
      assert (a + b)[..|a + b| - 1] == a + b[..|b| - 1];
      FoldAppend(t, a, b[..|b| - 1]);
    }
  }

  /** After one confident pattern, its recommendations carry its score and
      every other key keeps its score. */
  lemma {:induction false} FoldPairs(t: Table, recs: seq<string>, score: real)
    requires Valid(t)
    ensures var r := Fold(t, Pairs(recs, score));
      (forall x :: x in r.priorities <==> x in t.priorities || x in recs) &&
      (forall x :: x in r.priorities ==> r.priorities[x] == if x in recs then score else t.priorities[x])
    decreases |recs|
  {
    if |recs| > 0 {
      var init := recs[..|recs| - 1];
      var last := recs[|recs| - 1];
      var pairs := Pairs(recs, score);
      assert pairs[..|recs| - 1] == Pairs(init, score);
      assert pairs[|recs| - 1] == (last, score);
      FoldPairs(t, init, score);
      var mid := Fold(t, Pairs(init, score)).priorities;
      var r := Fold(t, pairs).priorities;
      assert r == mid[last := score];
      forall x ensures x in recs <==> x in init || x == last {
        assert recs == init + [last];
      }
      forall x | x in r ensures r[x] == if x in recs then score else t.priorities[x] {
        if x != last {
          assert r[x] == mid[x];
        }
      }
    }
  }

  /** The score the report keeps for `rec`: that of the last pattern above
      the medium threshold that recommends it. */
  function LastPriority(patterns: seq<Pattern>, rec: string): Option<real>
    decreases |patterns|
  {
    if |patterns| == 0 then None
    else
      var p := patterns[|patterns| - 1];
      if p.confidence > MediumConfidence && rec in p.recommendations then Some(Priority(p))
      else LastPriority(patterns[..|patterns| - 1], rec)
  }

  /** A later duplicate recommendation overwrites the earlier score: the
      dict holds exactly the recommendations of the confident patterns, each
      with its last score. */
  lemma {:induction false} ScoredSpec(patterns: seq<Pattern>, rec: string)
    ensures var t := Fold(EmptyTable, Scored(patterns));
      (rec in t.priorities <==> LastPriority(patterns, rec).Some?) &&
      (rec in t.priorities ==> t.priorities[rec] == LastPriority(patterns, rec).value)
    decreases |patterns|
  {
    if |patterns| > 0 {
      var init := patterns[..|patterns| - 1];
      var p := patterns[|patterns| - 1];
      ScoredSpec(init, rec);
      FoldAppend(EmptyTable, Scored(init), Entries(p));
      if p.confidence > MediumConfidence {
        FoldPairs(Fold(EmptyTable, Scored(init)), p.recommendations, Priority(p));
      } else {
        assert Entries(p) == [];
      }
    }
  }

  /** `LastPriority` names the last confident pattern that recommends
      `rec`. */
  lemma {:induction false} LastPrioritySpec(patterns: seq<Pattern>, rec: string, k: nat)
    requires k < |patterns| && patterns[k].confidence > MediumConfidence && rec in patterns[k].recommendations
    requires forall l :: k < l < |patterns| ==> !(patterns[l].confidence > MediumConfidence && rec in patterns[l].recommendations)
    ensures LastPriority(patterns, rec) == Some(Priority(patterns[k]))
    decreases |patterns|
  {
    if k < |patterns| - 1 {
      var init := patterns[..|patterns| - 1];
      assert init[k] == patterns[k];
      LastPrioritySpec(init, rec, k);
    }
  }

  /** No score is kept for a recommendation no confident pattern makes. */
  lemma {:induction false} LastPriorityNone(patterns: seq<Pattern>, rec: string)
    ensures LastPriority(patterns, rec).None? <==>
      forall k :: 0 <= k < |patterns| ==> !(patterns[k].confidence > MediumConfidence && rec in patterns[k].recommendations)
    decreases |patterns|
  {
    if |patterns| > 0 {
      var init := patterns[..|patterns| - 1];
      LastPriorityNone(init, rec);
      assert forall k :: 0 <= k < |init| ==> init[k] == patterns[k];
    }
  }

  // ---------------------------------------------------------------------------
  // the ranking

  lemma ItemsSpec(t: Table)
    requires Valid(t)
    ensures forall x: (string, real) :: x in Items(t) <==> x.0 in t.priorities && x.1 == t.priorities[x.0]
    ensures forall i, j :: 0 <= i < j < |Items(t)| ==> Items(t)[i] != Items(t)[j]
  {
    forall x: (string, real) | x.0 in t.priorities && x.1 == t.priorities[x.0] ensures x in Items(t) {
      var k :| 0 <= k < |t.keys| && t.keys[k] == x.0;
      assert Items(t)[k] == x;
    }
  }

  lemma {:induction false} DistinctCount<T>(s: seq<T>, x: T)
    requires forall i, j :: 0 <= i < j < |s| ==> s[i] != s[j]
    ensures multiset(s)[x] <= 1
    decreases |s|
  {
    if |s| > 0 {
      var init := s[..|s| - 1];
      assert s == init + [s[|s| - 1]];
      DistinctCount(init, x);
      if x == s[|s| - 1] {
        assert x !in init;
      }
    }
  }

  lemma RepeatCount<T>(s: seq<T>, i: nat, j: nat)
    requires i < j < |s| && s[i] == s[j]
    ensures multiset(s)[s[i]] >= 2
  {
    assert s == s[..j] + [s[j]] + s[j + 1..];
    assert s[i] in s[..j];
  }

  /** The ranked items are exactly the dict items. */
  lemma RankedMembers(t: Table)
    requires Valid(t)
    ensures |Ranked(t)| == |t.keys|
    ensures forall x: (string, real) :: x in Ranked(t) <==> x.0 in t.priorities && x.1 == t.priorities[x.0]
  {
    SortBySpec(Items(t), NegatedScore);
    ItemsSpec(t);
    assert forall x :: x in Ranked(t) <==> x in multiset(Ranked(t));
    assert forall x :: x in Items(t) <==> x in multiset(Items(t));
  }

  /** The ranked items come best score first. */
  lemma RankedOrder(t: Table)
    requires Valid(t)
    ensures forall i, j :: 0 <= i < j < |Ranked(t)| ==> Ranked(t)[i].1 >= Ranked(t)[j].1
  {
    var r := Ranked(t);
    SortBySpec(Items(t), NegatedScore);
    forall i, j | 0 <= i < j < |r| ensures r[i].1 >= r[j].1 {
      assert NegatedScore(r[i]) <= NegatedScore(r[j]);
    }
  }

  /** No recommendation is ranked twice. */
  lemma RankedDistinct(t: Table)
    requires Valid(t)
    ensures forall i, j :: 0 <= i < j < |Ranked(t)| ==> Ranked(t)[i].0 != Ranked(t)[j].0
  {
    var r := Ranked(t);
    SortBySpec(Items(t), NegatedScore);
    ItemsSpec(t);
    PermutationDistinct(r, Items(t));
    RankedMembers(t);
    forall i, j | 0 <= i < j < |r| ensures r[i].0 != r[j].0 {
      assert r[i] in r && r[j] in r;
    }
  }

  lemma PermutationDistinct<T>(a: seq<T>, b: seq<T>)
    requires multiset(a) == multiset(b)
    requires forall i, j :: 0 <= i < j < |b| ==> b[i] != b[j]
    ensures forall i, j :: 0 <= i < j < |a| ==> a[i] != a[j]
  {
    forall i, j | 0 <= i < j < |a| ensures a[i] != a[j] {
      if a[i] == a[j] {
        RepeatCount(a, i, j);
        DistinctCount(b, a[i]);
      }
    }
  }

  /** The kept recommendations are the best-scored ones: a recommendation
      left out scores no higher than any kept one. */
  lemma TopSelection(t: Table, rec: string)
    requires Valid(t) && rec in t.priorities
    requires forall k :: 0 <= k < |Take(Ranked(t), TopCount)| ==> Take(Ranked(t), TopCount)[k].0 != rec
    ensures forall k :: 0 <= k < |Take(Ranked(t), TopCount)| ==> t.priorities[rec] <= Take(Ranked(t), TopCount)[k].1
  {
    var r := Ranked(t);
    RankedMembers(t);
    RankedOrder(t);
    assert (rec, t.priorities[rec]) in r;
    var m :| 0 <= m < |r| && r[m] == (rec, t.priorities[rec]);
  }

  // ---------------------------------------------------------------------------
  // the report

  /** The listed recommendations are the ten best ranked items. This
      unfolds `ReportOf` for callers; `ReportOrder` states what the list
      promises. */
  lemma ReportRecs(patterns: seq<Pattern>)
    ensures var top := Take(Ranked(Fold(EmptyTable, Scored(patterns))), TopCount);
      var recs := ReportOf(patterns).priorityRecommendations;
      |recs| == |top| &&
      forall k :: 0 <= k < |recs| ==> recs[k] == Prioritize(top[k])
  {
  }

  /** The report counts the patterns above the medium threshold and their
      recommendations, and its roadmap is built from its list. This unfolds
      `ReportOf` for callers. */
  lemma ReportCounts(patterns: seq<Pattern>)
    ensures var r := ReportOf(patterns);
      r.patternsAnalyzed == |patterns| &&
      r.highConfidencePatterns == |Confident(patterns, MediumConfidence)| &&
      r.totalRecommendations == |AllRecommendations(Confident(patterns, MediumConfidence))| &&
      r.implementationRoadmap == GenerateRoadmap(r.priorityRecommendations)
  {
  }

  /** The list holds at most ten recommendations, best score first, none
      twice. */
  lemma ReportOrder(patterns: seq<Pattern>)
    ensures var recs := ReportOf(patterns).priorityRecommendations;
      |recs| <= TopCount &&
      (forall i, j :: 0 <= i < j < |recs| ==> recs[i].priorityScore >= recs[j].priorityScore) &&
      (forall i, j :: 0 <= i < j < |recs| ==> recs[i].recommendation != recs[j].recommendation)
  {
    var t := Fold(EmptyTable, Scored(patterns));
    RankedOrder(t);
    RankedDistinct(t);
    ReportRecs(patterns);
    var top := Take(Ranked(t), TopCount);
    var recs := ReportOf(patterns).priorityRecommendations;
    forall i, j | 0 <= i < j < |recs|
      ensures recs[i].priorityScore >= recs[j].priorityScore && recs[i].recommendation != recs[j].recommendation
    {
      assert recs[i] == Prioritize(top[i]) && recs[j] == Prioritize(top[j]);
    }
  }

  /** Each listed recommendation carries the score of the last confident
      pattern that makes it and its effort estimate. */
  lemma ReportEntries(patterns: seq<Pattern>)
    ensures var recs := ReportOf(patterns).priorityRecommendations;
      forall k :: 0 <= k < |recs| ==>
        LastPriority(patterns, recs[k].recommendation) == Some(recs[k].priorityScore) &&
        recs[k].estimatedImplementationTime == EstimateEffort(recs[k].recommendation).timeMinutes &&
        recs[k].expectedTokenSavings == EstimateEffort(recs[k].recommendation).tokenSavings &&
        recs[k].confidence == EstimateEffort(recs[k].recommendation).confidence
  {
    var t := Fold(EmptyTable, Scored(patterns));
    RankedMembers(t);
    ReportRecs(patterns);
    var top := Take(Ranked(t), TopCount);
    var recs := ReportOf(patterns).priorityRecommendations;
    forall k | 0 <= k < |recs|
      ensures LastPriority(patterns, recs[k].recommendation) == Some(recs[k].priorityScore)
    {
      assert recs[k] == Prioritize(top[k]);
      assert top[k] in Ranked(t);
      ScoredSpec(patterns, top[k].0);
    }
  }

  /** A recommendation that a confident pattern makes and that is left off
      the list scores no higher than any listed one. */
  lemma ReportSelection(patterns: seq<Pattern>, rec: string)
    requires LastPriority(patterns, rec).Some?
    requires forall k :: 0 <= k < |ReportOf(patterns).priorityRecommendations| ==>
      ReportOf(patterns).priorityRecommendations[k].recommendation != rec
    ensures forall k :: 0 <= k < |ReportOf(patterns).priorityRecommendations| ==>
      LastPriority(patterns, rec).value <= ReportOf(patterns).priorityRecommendations[k].priorityScore
  {
    var t := Fold(EmptyTable, Scored(patterns));
    ScoredSpec(patterns, rec);
    ReportRecs(patterns);
    TopSelection(t, rec);
  }

  // ---------------------------------------------------------------------------
  // the record in `predicted_impact`

  /** The sum as written succeeds exactly when every value is a number, and
      then it is the impact score the report uses. */
  lemma {:induction false} ImpactSumAgrees(impact: seq<(string, ImpactValue)>)
    ensures ImpactSumAsWritten(impact).Some? <==> forall i :: 0 <= i < |impact| ==> impact[i].1.Number?
    ensures ImpactSumAsWritten(impact).Some? ==> ImpactSumAsWritten(impact).value == ImpactScore(impact)
    decreases |impact|
  {
    if |impact| > 0 {
      var init := impact[..|impact| - 1];
      ImpactSumAgrees(init);
      assert forall i :: 0 <= i < |init| ==> init[i] == impact[i];
    }
  }

  /** The report as written raises when a pattern above the medium threshold
      with at least one recommendation has a value that is not a number. */
  predicate ReportRaisesAsWritten(patterns: seq<Pattern>) {
    exists k :: 0 <= k < |patterns| && patterns[k].confidence > MediumConfidence &&
      |patterns[k].recommendations| > 0 && ImpactSumAsWritten(patterns[k].impact).None?
  }

  /** A pattern above the medium threshold with a recommendation and a
      record as its one impact value makes the report as written raise; the
      impact score the report uses ignores the record, so the pattern's
      recommendations are scored at its confidence. */
  lemma RecordRaises(p: Pattern)
    requires p.confidence > MediumConfidence && |p.recommendations| > 0
    requires |p.impact| == 1 && p.impact[0].1.Recommended?
    ensures ReportRaisesAsWritten([p])
    ensures Priority(p) == p.confidence
  {
    assert p.impact[..0] == [];
    assert ImpactSumAsWritten(p.impact).None?;
    assert ImpactScore(p.impact) == 0.0;
    assert [p][0] == p;
  }

  /** An effectiveness pattern over at least six optimization events that
      prioritizes a type makes the report as written raise, while the
      report modelled here scores its recommendations at its confidence. */
  lemma EffectivenessReportRaises(events: seq<Effectiveness.Event>)
    requires |Effectiveness.Optimizations(events)| >= 6
    requires Effectiveness.EffectivenessOf(events).Some?
    requires Effectiveness.Prioritized(Last(Effectiveness.Optimizations(events), Effectiveness.Window)) != []
    ensures ReportRaisesAsWritten([Effectiveness.EffectivenessOf(events).value])
    ensures Priority(Effectiveness.EffectivenessOf(events).value) == Effectiveness.EffectivenessOf(events).value.confidence
  {
    Effectiveness.PrioritizingPattern(events);
    RecordRaises(Effectiveness.EffectivenessOf(events).value);
  }
}
