/** `_estimate_implementation_effort` and `_generate_implementation_roadmap`:
    a recommendation's effort comes from the first table entry whose key
    occurs in it, and the roadmap groups the prioritised recommendations
    into up to three phases by their estimated time. */
module Roadmap {
  import opened Text

  /** One `effort_estimates` entry. */
  datatype Estimate = Estimate(timeMinutes: nat, tokenSavings: nat, confidence: real)

  /** The effort table, in its insertion order. */
  const EffortTable: seq<(string, Estimate)> := [
    ("semantic_compression", Estimate(45, 50000, 0.8)),
    ("context_sharing", Estimate(30, 25000, 0.85)),
    ("handoff_optimization", Estimate(60, 80000, 0.75)),
    ("agent_reduction", Estimate(20, 30000, 0.9)),
    ("implement_token_budgeting", Estimate(40, 40000, 0.8)),
    ("break_down_complex_tasks", Estimate(35, 35000, 0.7)),
    ("optimize_simple_task_contexts", Estimate(25, 20000, 0.85))]

  const DefaultEstimate: Estimate := Estimate(30, 20000, 0.6)

  /** The table scan from entry `k` on: the estimate of the first entry
      whose key occurs in the recommendation, or the default. */
  function Lookup(table: seq<(string, Estimate)>, recommendation: string, k: nat): Estimate
    requires k <= |table|
    decreases |table| - k
  {
    if k == |table| then DefaultEstimate
    else if Contains(recommendation, table[k].0) then table[k].1
    else Lookup(table, recommendation, k + 1)
  }

  function EstimateEffort(recommendation: string): Estimate {
    Lookup(EffortTable, recommendation, 0)
  }

  /** A prioritised recommendation of the report. */
  datatype PriorityRec = PriorityRec(
    recommendation: string,
    priorityScore: real,
    estimatedImplementationTime: nat,
    expectedTokenSavings: nat,
    confidence: real)

  /** One roadmap entry. */
  datatype Phase = Phase(
    phase: string,
    durationEstimate: string,
    recommendations: seq<PriorityRec>,
    expectedImpact: string)

  /** The three phases, in roadmap order. */
  datatype Tier = QuickWins | CoreOptimizations | AdvancedFeatures

  function Rank(t: Tier): nat {
    match t
    case QuickWins => 1
    case CoreOptimizations => 2
    case AdvancedFeatures => 3
  }

  /** The time range of each phase, in minutes. */
  predicate InTier(t: Tier, minutes: nat) {
    match t
    case QuickWins => minutes < 30
    case CoreOptimizations => 30 <= minutes < 60
    case AdvancedFeatures => minutes >= 60
  }

  /** How many recommendations each phase takes. */
  function Limit(t: Tier): nat {
    match t
    case QuickWins => 3
    case CoreOptimizations => 3
    case AdvancedFeatures => 2
  }

  function Title(t: Tier): string {
    match t
    case QuickWins => "Phase 1: Quick Wins"
    case CoreOptimizations => "Phase 2: Core Optimizations"
    case AdvancedFeatures => "Phase 3: Advanced Features"
  }

  function MakePhase(t: Tier, recs: seq<PriorityRec>): Phase {
    match t
    case QuickWins => Phase(Title(t), "1-2 hours", recs, "Immediate 15-20% token reduction")
    case CoreOptimizations => Phase(Title(t), "3-4 hours", recs, "Additional 20-25% improvement")
    case AdvancedFeatures => Phase(Title(t), "4-6 hours", recs, "Final 10-15% optimization")
  }

  /** The recommendations of one phase's time range, in input order. */
  function Bucket(recs: seq<PriorityRec>, t: Tier): seq<PriorityRec> {
    Filter(recs, (r: PriorityRec) => InTier(t, r.estimatedImplementationTime))
  }

  /** The phase of tier `t`, emitted only when its bucket is non-empty. */
  function PhaseFor(recs: seq<PriorityRec>, t: Tier): seq<Phase> {
    var bucket := Bucket(recs, t);
    if |bucket| > 0 then [MakePhase(t, Take(bucket, Limit(t)))] else []
  }

  function GenerateRoadmap(recs: seq<PriorityRec>): seq<Phase> {
    PhaseFor(recs, QuickWins) + PhaseFor(recs, CoreOptimizations) + PhaseFor(recs, AdvancedFeatures)
  }

  /** The tier a roadmap phase belongs to, read off its title. */
  function TierOf(p: Phase): Tier {
    if p.phase == Title(QuickWins) then QuickWins
    else if p.phase == Title(CoreOptimizations) then CoreOptimizations
    else AdvancedFeatures
  }

  // ---------------------------------------------------------------------------
  // properties of the effort lookup

  /** No table entry carries the default estimate. */
  lemma TableAvoidsDefault(k: nat)
    requires k < |EffortTable|
    ensures EffortTable[k].1 != DefaultEstimate
  {
  }

  /** The first entry from `i` on whose key occurs in the recommendation,
      or `|table|` when there is none. */
  function FirstKey(table: seq<(string, Estimate)>, recommendation: string, i: nat): (r: nat)
    requires i <= |table|
    ensures i <= r <= |table|
    ensures forall l :: i <= l < r ==> !Contains(recommendation, table[l].0)
    ensures r < |table| ==> Contains(recommendation, table[r].0)
    decreases |table| - i
  {
    if i == |table| || Contains(recommendation, table[i].0) then i else FirstKey(table, recommendation, i + 1)
  }

  lemma {:induction false} LookupFirstKey(table: seq<(string, Estimate)>, recommendation: string, i: nat)
    requires i <= |table|
    ensures Lookup(table, recommendation, i) ==
      if FirstKey(table, recommendation, i) == |table| then DefaultEstimate else table[FirstKey(table, recommendation, i)].1
    decreases |table| - i
  {
    if i < |table| && !Contains(recommendation, table[i].0) {
      LookupFirstKey(table, recommendation, i + 1);
    }
  }

  /** The estimate is that of the first entry, in table order, whose key
      occurs in the recommendation. */
  lemma EstimateFirstMatch(recommendation: string, k: nat)
    requires k < |EffortTable| && Contains(recommendation, EffortTable[k].0)
    requires forall j :: 0 <= j < k ==> !Contains(recommendation, EffortTable[j].0)
    ensures EstimateEffort(recommendation) == EffortTable[k].1
  {
    LookupFirstKey(EffortTable, recommendation, 0);
  }

  /** The default is returned exactly when no key occurs in the
      recommendation. */
  lemma EstimateDefault(recommendation: string)
    ensures EstimateEffort(recommendation) == DefaultEstimate <==>
      forall k :: 0 <= k < |EffortTable| ==> !Contains(recommendation, EffortTable[k].0)
  {
    LookupFirstKey(EffortTable, recommendation, 0);
    var j := FirstKey(EffortTable, recommendation, 0);
    if j < |EffortTable| {
      TableAvoidsDefault(j);
    }
  }

  /** Every estimate takes between 20 and 60 minutes, and only the
      `handoff_optimization` entry reaches 60. */
  lemma EstimateTimes(recommendation: string)
    ensures 20 <= EstimateEffort(recommendation).timeMinutes <= 60
    ensures EstimateEffort(recommendation).timeMinutes >= 60 ==>
      Contains(recommendation, "handoff_optimization")
  {
    LookupFirstKey(EffortTable, recommendation, 0);
  }

  // ---------------------------------------------------------------------------
  // properties of the roadmap

  /** The title of a phase tells its tier. */
  lemma TierOfMakePhase(t: Tier, recs: seq<PriorityRec>)
    ensures TierOf(MakePhase(t, recs)) == t
  {
    assert Title(QuickWins)[6] == '1' && Title(CoreOptimizations)[6] == '2' && Title(AdvancedFeatures)[6] == '3';
  }

  lemma BucketSpec(recs: seq<PriorityRec>, t: Tier)
    ensures forall r :: r in Bucket(recs, t) <==> r in recs && InTier(t, r.estimatedImplementationTime)
    ensures IsSubsequence(Bucket(recs, t), recs)
  {
    FilterSpec(recs, (r: PriorityRec) => InTier(t, r.estimatedImplementationTime));
  }

  /** A prefix of a subsequence is a subsequence. */
  lemma TakeSubsequence<T>(s: seq<T>, n: nat, b: seq<T>)
    requires IsSubsequence(s, b)
    ensures IsSubsequence(Take(s, n), b)
  {
    if n < |s| {
      TakePrefixSubsequence(s, n, b);
    }
  }

  lemma {:induction false} TakePrefixSubsequence<T>(s: seq<T>, n: nat, b: seq<T>)
    requires n <= |s| && IsSubsequence(s, b)
    ensures IsSubsequence(s[..n], b)
    decreases |b|
  {
    if n > 0 {
      assert |b| > 0;
      assert s[..n][1..] == s[1..][..n - 1];
      if s[0] == b[0] {
        TakePrefixSubsequence(s[1..], n - 1, b[1..]);
      } else {
        TakePrefixSubsequence(s, n, b[1..]);
      }
    }
  }

  /** Each phase holds between one and its limit of recommendations, all
      from the input, in input order, and all in the phase's time range. */
  lemma PhaseForSpec(recs: seq<PriorityRec>, t: Tier)
    ensures forall p :: p in PhaseFor(recs, t) ==>
      TierOf(p) == t && p.phase == Title(t) &&
      0 < |p.recommendations| <= Limit(t) &&
      IsSubsequence(p.recommendations, recs) &&
      forall r :: r in p.recommendations ==> InTier(t, r.estimatedImplementationTime)
  {
    var bucket := Bucket(recs, t);
    BucketSpec(recs, t);
    if |bucket| > 0 {
      TierOfMakePhase(t, Take(bucket, Limit(t)));
      TakeSubsequence(bucket, Limit(t), recs);
      forall r | r in Take(bucket, Limit(t)) ensures InTier(t, r.estimatedImplementationTime) {
        var k :| 0 <= k < |Take(bucket, Limit(t))| && Take(bucket, Limit(t))[k] == r;
        assert r in bucket;
      }
    }
  }

  /** The roadmap holds at most three phases; each has between one and its
      limit of recommendations, from the input, in input order and in the
      phase's time range. */
  lemma RoadmapPhases(recs: seq<PriorityRec>)
    ensures |GenerateRoadmap(recs)| <= 3
    ensures forall p :: p in GenerateRoadmap(recs) ==>
      p.phase == Title(TierOf(p)) &&
      0 < |p.recommendations| <= Limit(TierOf(p)) &&
      IsSubsequence(p.recommendations, recs) &&
      forall x :: x in p.recommendations ==> InTier(TierOf(p), x.estimatedImplementationTime)
  {
    PhaseForSpec(recs, QuickWins);
    PhaseForSpec(recs, CoreOptimizations);
    PhaseForSpec(recs, AdvancedFeatures);
  }

  /** The phases come in phase order. */
  lemma RoadmapOrder(recs: seq<PriorityRec>)
    ensures var r := GenerateRoadmap(recs);
      forall i, j :: 0 <= i < j < |r| ==> Rank(TierOf(r[i])) < Rank(TierOf(r[j]))
  {
    var r := GenerateRoadmap(recs);
    var a, b, c := PhaseFor(recs, QuickWins), PhaseFor(recs, CoreOptimizations), PhaseFor(recs, AdvancedFeatures);
    PhaseForTier(recs, QuickWins);
    PhaseForTier(recs, CoreOptimizations);
    PhaseForTier(recs, AdvancedFeatures);
    forall i, j | 0 <= i < j < |r| ensures Rank(TierOf(r[i])) < Rank(TierOf(r[j])) {
      if i < |a| {
        assert r[i] in a && (r[j] in b || r[j] in c);
      } else {
        assert r[i] in b && r[j] in c;
      }
    }
  }

  /** No recommendation is in two phases. */
  lemma RoadmapDisjoint(recs: seq<PriorityRec>)
    ensures forall p, q, x ::
      (p in GenerateRoadmap(recs) && q in GenerateRoadmap(recs) && x in p.recommendations && x in q.recommendations) ==> p == q
  {
    RoadmapMembers(recs);
    RoadmapPhases(recs);
    forall p, q, x | p in GenerateRoadmap(recs) && q in GenerateRoadmap(recs) && x in p.recommendations && x in q.recommendations
      ensures p == q
    {
      assert TierOf(p) == TierOf(q);
      PhaseForTier(recs, TierOf(p));
    }
  }

  lemma PhaseForTier(recs: seq<PriorityRec>, t: Tier)
    ensures forall p :: p in PhaseFor(recs, t) ==> TierOf(p) == t && p == MakePhase(t, Take(Bucket(recs, t), Limit(t)))
  {
    TierOfMakePhase(t, Take(Bucket(recs, t), Limit(t)));
  }

  /** Every roadmap phase is the phase of its own tier. */
  lemma RoadmapMembers(recs: seq<PriorityRec>)
    ensures forall p :: p in GenerateRoadmap(recs) ==> p in PhaseFor(recs, TierOf(p))
  {
    PhaseForTier(recs, QuickWins);
    PhaseForTier(recs, CoreOptimizations);
    PhaseForTier(recs, AdvancedFeatures);
  }

  /** A phase is emitted exactly when some recommendation falls in its time
      range. */
  lemma RoadmapEmitted(recs: seq<PriorityRec>, t: Tier)
    ensures (exists p :: p in GenerateRoadmap(recs) && TierOf(p) == t) <==>
      (exists x :: x in recs && InTier(t, x.estimatedImplementationTime))
  {
    BucketSpec(recs, t);
    RoadmapMembers(recs);
    if exists x :: x in recs && InTier(t, x.estimatedImplementationTime) {
      var x :| x in recs && InTier(t, x.estimatedImplementationTime);
      assert x in Bucket(recs, t);
      var p := MakePhase(t, Take(Bucket(recs, t), Limit(t)));
      assert p in PhaseFor(recs, t);
      TierOfMakePhase(t, Take(Bucket(recs, t), Limit(t)));
      assert p in GenerateRoadmap(recs);
    }
  }

  /** An emitted phase takes the first recommendations of its time range, up
      to its limit. This restates `GenerateRoadmap` phase by phase for
      callers; the ordering and membership lemmas above carry the proof. */
  lemma RoadmapContent(recs: seq<PriorityRec>, t: Tier)
    ensures forall p :: p in GenerateRoadmap(recs) && TierOf(p) == t ==>
      p.recommendations == Take(Bucket(recs, t), Limit(t))
  {
    RoadmapMembers(recs);
    PhaseForTier(recs, t);
  }
}
