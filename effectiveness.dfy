/** `analyze_optimization_effectiveness`: the optimization events of a
    session log are tallied per optimization type over the last twenty; the
    most efficient type may be recommended and the types that mostly fail
    are to be avoided. */
module Effectiveness {
  import opened Text
  import opened Numeric
  import opened Sorting
  import opened Patterns

  /** Fewer optimization events than this give the insufficient-data pattern. */
  const MinOptimizations: nat := 3
  /** How many of the latest optimization events are tallied. */
  const Window: nat := 20

  /** One session-log record; a missing `optimization_type` is `None`. */
  datatype Event = Event(
    eventType: Option<string>,
    optimizationType: Option<string>,
    tokensSaved: int,
    timeTaken: int,
    success: bool)

  /** `opt.get('optimization_type', 'unknown')`. */
  function TypeOf(e: Event): string {
    match e.optimizationType
    case Some(t) => t
    case None => "unknown"
  }

  function IsOptimization(e: Event): bool {
    e.eventType == Some("optimization")
  }

  /** `[d for d in session_data if d.get('event_type') == 'optimization']`. */
  function Optimizations(events: seq<Event>): seq<Event> {
    Filter(events, IsOptimization)
  }

  function OfType(t: string): Event -> bool {
    (e: Event) => TypeOf(e) == t
  }

  function SucceededAs(t: string): Event -> bool {
    (e: Event) => TypeOf(e) == t && e.success
  }

  /** The counters `optimization_stats` keeps for one type. */
  datatype Stats = Stats(attempts: nat, successes: nat, totalTokensSaved: int, totalTime: int)

  const NoStats: Stats := Stats(0, 0, 0, 0)

  /** One event of the type: an attempt, and on success its tokens and time. */
  function Count(s: Stats, e: Event): Stats {
    if e.success then Stats(s.attempts + 1, s.successes + 1, s.totalTokensSaved + e.tokensSaved, s.totalTime + e.timeTaken)
    else s.(attempts := s.attempts + 1)
  }

  /** The counters of type `t` after the events, in order. */
  function Tally(events: seq<Event>, t: string): Stats
    decreases |events|
  {
    if |events| == 0 then NoStats
    else
      var s := Tally(events[..|events| - 1], t);
      var e := events[|events| - 1];
      if TypeOf(e) == t then Count(s, e) else s
  }

  /** The keys of `optimization_stats`, in insertion order. */
  function Types(events: seq<Event>): seq<string>
    decreases |events|
  {
    if |events| == 0 then []
    else
      var known := Types(events[..|events| - 1]);
      var t := TypeOf(events[|events| - 1]);
      if t in known then known else known + [t]
  }

  function TokenSum(events: seq<Event>): int
    decreases |events|
  {
    if |events| == 0 then 0 else TokenSum(events[..|events| - 1]) + events[|events| - 1].tokensSaved
  }

  function TimeSum(events: seq<Event>): int
    decreases |events|
  {
    if |events| == 0 then 0 else TimeSum(events[..|events| - 1]) + events[|events| - 1].timeTaken
  }

  /** The per-type tally loop. */
  method TallyEvents(recent: seq<Event>) returns (types: seq<string>, stats: map<string, Stats>)
    ensures types == Types(recent)
    ensures Tallied(recent, types, stats)
  {
    types := [];
    stats := map[];
    for i := 0 to |recent|
      invariant types == Types(recent[..i])
      invariant forall t :: t in stats <==> t in types
      invariant forall t :: t in stats ==> stats[t] == Tally(recent[..i], t)
    {
      var opt := recent[i];
      var optType := TypeOf(opt);
      forall t ensures Tally(recent[..i + 1], t) == if optType == t then Count(Tally(recent[..i], t), opt) else Tally(recent[..i], t) {
        TallySnoc(recent, i, t);
      }
      assert recent[..i + 1][..i] == recent[..i];
      if optType !in stats {
        TypesSpec(recent[..i], optType);
        TallyAbsent(recent[..i], optType);
        types := types + [optType];
        stats := stats[optType := NoStats];
      }
      var s := stats[optType];
      s := s.(attempts := s.attempts + 1);
      if opt.success {
        s := s.(successes := s.successes + 1,
                totalTokensSaved := s.totalTokensSaved + opt.tokensSaved,
                totalTime := s.totalTime + opt.timeTaken);
      }
      stats := stats[optType := s];
    }
    assert recent[..|recent|] == recent;
  }

  lemma TallySnoc(events: seq<Event>, i: nat, t: string)
    requires i < |events|
    ensures Tally(events[..i + 1], t) ==
      if TypeOf(events[i]) == t then Count(Tally(events[..i], t), events[i]) else Tally(events[..i], t)
  {
    assert events[..i + 1][..i] == events[..i];
  }

  lemma {:induction false} TallyAbsent(events: seq<Event>, t: string)
    requires forall k :: 0 <= k < |events| ==> TypeOf(events[k]) != t
    ensures Tally(events, t) == NoStats
    decreases |events|
  {
    if |events| > 0 {
      TallyAbsent(events[..|events| - 1], t);
    }
  }

  // ---------------------------------------------------------------------------
  // the metrics computed from the counters

  /** `successes / attempts`. */
  function SuccessRate(s: Stats): real {
    if s.attempts > 0 then s.successes as real / s.attempts as real else 0.0
  }

  /** `total_tokens_saved / successes`, 0 without a success. */
  function AvgTokensSaved(s: Stats): real {
    if s.successes > 0 then s.totalTokensSaved as real / s.successes as real else 0.0
  }

  /** `avg_tokens_saved / (avg_time + 1)`, 0 without a success; `None` when
      the average time is -1, where Python raises `ZeroDivisionError`. */
  function Efficiency(s: Stats): Option<real> {
    if s.successes == 0 then Some(0.0)
    else
      var avgTime := s.totalTime as real / s.successes as real;
      if avgTime + 1.0 == 0.0 then None else Some(AvgTokensSaved(s) / (avgTime + 1.0))
  }

  function EfficiencyScore(s: Stats): real {
    match Efficiency(s)
    case Some(x) => x
    case None => 0.0
  }

  /** A type that fails at least half the time over more than two attempts. */
  predicate Underperforming(s: Stats) {
    SuccessRate(s) < 0.5 && s.attempts > 2
  }

  /** The sort key of `sorted(..., key=efficiency_score, reverse=True)`. */
  function RankKey(recent: seq<Event>): string -> real {
    (t: string) => -EfficiencyScore(Tally(recent, t))
  }

  /** `[f"avoid_{t}" for t in types if underperforming]`. */
  function Avoid(recent: seq<Event>, types: seq<string>): seq<string>
    decreases |types|
  {
    if |types| == 0 then []
    else
      var t := types[|types| - 1];
      Avoid(recent, types[..|types| - 1]) + (if Underperforming(Tally(recent, t)) then ["avoid_" + t] else [])
  }

  /** `min(0.85, 0.60 + n * 0.02)`. */
  function EffectivenessConfidence(n: nat): real {
    Min(0.85, 0.60 + n as real * 0.02)
  }

  const Insufficient: Pattern :=
    Pattern("optimization_effectiveness", 0.40, ["gather_more_optimization_data"], [])

  /** Some type's average time is exactly -1. */
  predicate Raises(recent: seq<Event>) {
    exists t :: t in Types(recent) && Efficiency(Tally(recent, t)).None?
  }

  /** The pattern as a function of the session log; `None` when the
      efficiency computation divides by zero. */
  function EffectivenessOf(events: seq<Event>): Option<Pattern> {
    var opts := Optimizations(events);
    if |opts| < MinOptimizations then Some(Insufficient)
    else
      var recent := Last(opts, Window);
      if Raises(recent) then None
      else
        Some(Pattern("optimization_effectiveness", EffectivenessConfidence(|opts|),
          Prioritized(recent) + Avoid(recent, Types(recent)), BestImpact(recent)))
  }

  /** The best-ranked type, when it succeeds more than 70% of the time and
      scores more than 100. */
  function Best(recent: seq<Event>): Option<string> {
    var ranked := SortBy(Types(recent), RankKey(recent));
    if |ranked| > 0 && SuccessRate(Tally(recent, ranked[0])) > 0.7
      && EfficiencyScore(Tally(recent, ranked[0])) > 100.0 then Some(ranked[0]) else None
  }

  /** The recommendation to prioritize the best type. */
  function Prioritized(recent: seq<Event>): seq<string> {
    if Best(recent).Some? then ["prioritize_" + Best(recent).value] else []
  }

  /** The `recommended_optimization` record of the best type, the one
      non-numeric value a pattern's predicted impact can hold. */
  function BestImpact(recent: seq<Event>): seq<(string, ImpactValue)> {
    match Best(recent)
    case None => []
    case Some(b) =>
      var s := Tally(recent, b);
      [("recommended_optimization", Recommended(b, AvgTokensSaved(s), SuccessRate(s), EfficiencyScore(s)))]
  }

  method AnalyzeEffectiveness(events: seq<Event>) returns (r: Option<Pattern>)
    ensures r == EffectivenessOf(events)
  {
    var optimizations := Optimizations(events);
    if |optimizations| < MinOptimizations {
      return Some(Insufficient);
    }
    var recent := Last(optimizations, Window);
    var types, stats := TallyEvents(recent);
    var raises := ComputeMetrics(recent, types, stats);
    if raises {
      return None;
    }
    var recommendations, predictedImpact := PrioritizeBest(recent, types, stats);
    var avoid := AvoidList(recent, types, stats);
    recommendations := recommendations + avoid;
    r := Some(Pattern("optimization_effectiveness", EffectivenessConfidence(|optimizations|), recommendations, predictedImpact));
  }

  /** `stats` holds, for each type of `types` and no other key, the counters
      of that type over `recent`. */
  ghost predicate Tallied(recent: seq<Event>, types: seq<string>, stats: map<string, Stats>) {
    (forall t :: t in stats <==> t in types) &&
    (forall t :: t in stats ==> stats[t] == Tally(recent, t))
  }

  /** The ranking, the recommendation of the best type and its record. */
  method PrioritizeBest(recent: seq<Event>, types: seq<string>, stats: map<string, Stats>)
    returns (recommendations: seq<string>, predictedImpact: seq<(string, ImpactValue)>)
    requires types == Types(recent)
    requires Tallied(recent, types, stats)
    ensures recommendations == Prioritized(recent)
    ensures predictedImpact == BestImpact(recent)
  {
    recommendations := [];
    predictedImpact := [];
    var ranked := SortBy(types, RankKey(recent));
    if |ranked| > 0 {
      SortByHead(types, RankKey(recent));
      var best := ranked[0];
      var bestStats := stats[best];
      if SuccessRate(bestStats) > 0.7 && EfficiencyScore(bestStats) > 100.0 {
        recommendations := recommendations + ["prioritize_" + best];
        predictedImpact := predictedImpact + [("recommended_optimization",
          Recommended(best, AvgTokensSaved(bestStats), SuccessRate(bestStats), EfficiencyScore(bestStats)))];
      }
    }
  }

  /** The metrics loop over the tallied types; only whether it raises is
      observable, since the metrics themselves are functions of the counters. */
  method ComputeMetrics(recent: seq<Event>, types: seq<string>, stats: map<string, Stats>) returns (raises: bool)
    requires types == Types(recent)
    requires Tallied(recent, types, stats)
    ensures raises == Raises(recent)
  {
    for k := 0 to |types|
      invariant forall j :: 0 <= j < k ==> Efficiency(stats[types[j]]).Some?
    {
      if Efficiency(stats[types[k]]).None? {
        return true;
      }
    }
    forall t | t in types ensures Efficiency(Tally(recent, t)).Some? {
      var j :| 0 <= j < |types| && types[j] == t;
    }
    return false;
  }

  /** The loop that appends `avoid_<type>` for each underperforming type. */
  method AvoidList(recent: seq<Event>, types: seq<string>, stats: map<string, Stats>) returns (recommendations: seq<string>)
    requires Tallied(recent, types, stats)
    ensures recommendations == Avoid(recent, types)
  {
    recommendations := [];
    for k := 0 to |types|
      invariant recommendations == Avoid(recent, types[..k])
    {
      var t := types[k];
      assert types[..k + 1][..k] == types[..k];
      if SuccessRate(stats[t]) < 0.5 && stats[t].attempts > 2 {
        recommendations := recommendations + ["avoid_" + t];
      }
    }
    assert types[..|types|] == types;
  }

  // ---------------------------------------------------------------------------
  // properties

  /** The type list holds each type of the events once. */
  lemma {:induction false} TypesSpec(events: seq<Event>, t: string)
    ensures t in Types(events) <==> exists k :: 0 <= k < |events| && TypeOf(events[k]) == t
    ensures forall i, j :: 0 <= i < j < |Types(events)| ==> Types(events)[i] != Types(events)[j]
    decreases |events|
  {
    if |events| > 0 {
      var init := events[..|events| - 1];
      TypesSpec(init, t);
      TypesSpec(init, TypeOf(events[|events| - 1]));
      if exists k :: 0 <= k < |events| && TypeOf(events[k]) == t {
        var k :| 0 <= k < |events| && TypeOf(events[k]) == t;
        if k < |init| {
          assert TypeOf(init[k]) == t;
        }
      }
      if t in Types(init) {
        var k :| 0 <= k < |init| && TypeOf(init[k]) == t;
        assert events[k] == init[k];
      }
    }
  }

  /** Per type, the attempts are the events of that type and the
      successes those that succeeded, never more than the attempts. */
  lemma {:induction false} TallyCounts(events: seq<Event>, t: string)
    ensures Tally(events, t).attempts == |Filter(events, OfType(t))|
    ensures Tally(events, t).successes == |Filter(events, SucceededAs(t))|
    ensures Tally(events, t).successes <= Tally(events, t).attempts
    decreases |events|
  {
    if |events| > 0 {
      var init := events[..|events| - 1];
      var e := events[|events| - 1];
      TallyCounts(init, t);
      assert events == init + [e];
      FilterAppend(init, [e], OfType(t));
      FilterAppend(init, [e], SucceededAs(t));
    }
  }

  /** Per type, the tokens and the time add up over the successful events
      only. */
  lemma {:induction false} TallySums(events: seq<Event>, t: string)
    ensures Tally(events, t).totalTokensSaved == TokenSum(Filter(events, SucceededAs(t)))
    ensures Tally(events, t).totalTime == TimeSum(Filter(events, SucceededAs(t)))
    decreases |events|
  {
    if |events| > 0 {
      var init := events[..|events| - 1];
      var e := events[|events| - 1];
      TallySums(init, t);
      var keep := SucceededAs(t)(e);
      assert keep == (TypeOf(e) == t && e.success);
      var won := Filter(init, SucceededAs(t));
      assert Filter(events, SucceededAs(t)) == won + (if keep then [e] else []) by {
        assert events == init + [e];
        FilterSnoc(init, e, SucceededAs(t));
      }
      SumsSnoc(won, e, keep);
      var s := Tally(init, t);
      assert Tally(events, t) == if TypeOf(e) == t then Count(s, e) else s;
    }
  }

  lemma SumsSnoc(won: seq<Event>, e: Event, keep: bool)
    ensures var next := won + (if keep then [e] else []);
      TokenSum(next) == TokenSum(won) + (if keep then e.tokensSaved else 0) &&
      TimeSum(next) == TimeSum(won) + (if keep then e.timeTaken else 0)
  {
    if keep {
      assert (won + [e])[..|won|] == won;
    } else {
      assert won + [] == won;
    }
  }

  /** The success rate is below one half exactly when fewer than half the
      attempts succeed. */
  lemma UnderperformingSpec(s: Stats)
    requires s.successes <= s.attempts
    ensures Underperforming(s) <==> s.attempts > 2 && 2 * s.successes < s.attempts
  {
    if s.attempts > 0 {
      DivHalf(s.successes as real, s.attempts as real);
    }
  }

  /** The division by zero happens exactly when some type's successful
      events take -1 time units per success on average. */
  lemma RaisesSpec(s: Stats)
    ensures Efficiency(s).None? <==> s.successes > 0 && s.totalTime == -(s.successes as int)
  {
    if s.successes > 0 {
      var n := s.successes as real;
      var avg := s.totalTime as real / n;
      assert avg * n == s.totalTime as real;
    }
  }

  /** With fewer than three optimization events the insufficient-data
      pattern comes back; with more, the confidence grows by 0.02 per event
      from 0.66 and stops at 0.85, which it reaches from 13 events on. */
  lemma EffectivenessConfidenceSpec(events: seq<Event>)
    ensures var n := |Optimizations(events)|;
      (n < MinOptimizations ==> EffectivenessOf(events) == Some(Insufficient)) &&
      (n >= MinOptimizations && EffectivenessOf(events).Some? ==>
        0.66 <= EffectivenessOf(events).value.confidence <= 0.85 &&
        (EffectivenessOf(events).value.confidence == 0.85 <==> n >= 13))
  {
  }

  lemma {:induction false} AvoidSpec(recent: seq<Event>, types: seq<string>, x: string)
    ensures x in Avoid(recent, types) <==> exists t :: t in types && Underperforming(Tally(recent, t)) && x == "avoid_" + t
    decreases |types|
  {
    if |types| > 0 {
      var init := types[..|types| - 1];
      var last := types[|types| - 1];
      AvoidSpec(recent, init, x);
      assert types == init + [last];
      if exists t :: t in types && Underperforming(Tally(recent, t)) && x == "avoid_" + t {
        var t :| t in types && Underperforming(Tally(recent, t)) && x == "avoid_" + t;
        if t != last {
          assert t in init;
        }
      }
    }
  }

  lemma PrefixesDiffer(b: string, u: string)
    ensures "prioritize_" + b != "avoid_" + u
  {
    assert ("prioritize_" + b)[0] == 'p';
  }

  lemma AvoidPrefix(t: string, u: string)
    requires "avoid_" + t == "avoid_" + u
    ensures t == u
  {
    assert t == ("avoid_" + t)[6..];
    assert u == ("avoid_" + u)[6..];
  }

  /** A type of the last twenty optimization events is to be avoided exactly
      when it failed at least half of more than two attempts. */
  lemma EffectivenessAvoid(events: seq<Event>, t: string)
    requires EffectivenessOf(events).Some?
    requires |Optimizations(events)| >= MinOptimizations
    ensures var recent := Last(Optimizations(events), Window);
      "avoid_" + t in EffectivenessOf(events).value.recommendations <==>
        t in Types(recent) && Underperforming(Tally(recent, t))
  {
    var recent := Last(Optimizations(events), Window);
    var recs := EffectivenessOf(events).value.recommendations;
    var ranked := SortBy(Types(recent), RankKey(recent));
    AvoidSpec(recent, Types(recent), "avoid_" + t);
    if |ranked| > 0 {
      assert ("prioritize_" + ranked[0])[0] == 'p';
      assert ("avoid_" + t)[0] == 'a';
    }
    if "avoid_" + t in Avoid(recent, Types(recent)) {
      var u :| u in Types(recent) && Underperforming(Tally(recent, u)) && "avoid_" + t == "avoid_" + u;
      AvoidPrefix(t, u);
    }
  }

  /** The recommended type is the most efficient of the tallied ones,
      succeeds more than 70% of the time and scores more than 100. */
  lemma PrioritizedSpec(recent: seq<Event>, b: string)
    requires "prioritize_" + b in Prioritized(recent)
    ensures b in Types(recent)
    ensures SuccessRate(Tally(recent, b)) > 0.7 && EfficiencyScore(Tally(recent, b)) > 100.0
    ensures forall t :: t in Types(recent) ==> EfficiencyScore(Tally(recent, t)) <= EfficiencyScore(Tally(recent, b))
  {
    var types := Types(recent);
    var best := Best(recent).value;
    assert b == ("prioritize_" + b)[11..];
    assert best == ("prioritize_" + best)[11..];
    assert b == best;
    SortByHead(types, RankKey(recent));
    forall t | t in types
      ensures EfficiencyScore(Tally(recent, t)) <= EfficiencyScore(Tally(recent, b))
    {
      assert RankKey(recent)(b) <= RankKey(recent)(t);
    }
  }

  /** A type recommended by the pattern is the most efficient of the last
      twenty optimization events, succeeds more than 70% of the time and
      scores more than 100. */
  lemma EffectivenessBest(events: seq<Event>, b: string)
    requires EffectivenessOf(events).Some?
    requires |Optimizations(events)| >= MinOptimizations
    requires "prioritize_" + b in EffectivenessOf(events).value.recommendations
    ensures var recent := Last(Optimizations(events), Window);
      b in Types(recent) &&
      SuccessRate(Tally(recent, b)) > 0.7 && EfficiencyScore(Tally(recent, b)) > 100.0 &&
      forall t :: t in Types(recent) ==> EfficiencyScore(Tally(recent, t)) <= EfficiencyScore(Tally(recent, b))
  {
    var recent := Last(Optimizations(events), Window);
    forall u ensures "prioritize_" + b != "avoid_" + u {
      PrefixesDiffer(b, u);
    }
    AvoidSpec(recent, Types(recent), "prioritize_" + b);
    PrioritizedSpec(recent, b);
  }

  /** A pattern over at least six optimization events that prioritizes a
      type is above the medium threshold, recommends something and holds
      one predicted-impact entry, the record of that type. */
  lemma PrioritizingPattern(events: seq<Event>)
    requires |Optimizations(events)| >= 6
    requires EffectivenessOf(events).Some?
    requires Prioritized(Last(Optimizations(events), Window)) != []
    ensures var p := EffectivenessOf(events).value;
      p.confidence > MediumConfidence && |p.recommendations| > 0 &&
      |p.impact| == 1 && p.impact[0].1.Recommended?
  {
    var recent := Last(Optimizations(events), Window);
    assert EffectivenessOf(events).value.impact == BestImpact(recent);
  }
}
