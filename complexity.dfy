/** `analyze_task_complexity_patterns`: sessions are grouped by their
    complexity label, each non-empty group gets its averages, and two rules
    on the simple and complex groups' averages give the recommendations. */
module Complexity {
  import opened Text
  import opened Numeric
  import opened Patterns

  /** The keys of `complexity_groups`, in insertion order. */
  const Levels: seq<string> := ["simple", "medium", "complex"]

  /** More sessions than this give the higher confidence. */
  const ConfidentSessions: nat := 10

  /** One session-log record; a missing `task_complexity` is `None`. */
  datatype Session = Session(
    taskComplexity: Option<string>,
    totalTokens: int,
    durationSeconds: int,
    successRate: real)

  /** `session.get('task_complexity', 'medium')`. */
  function Label(s: Session): string {
    match s.taskComplexity
    case Some(l) => l
    case None => "medium"
  }

  function Labelled(level: string): Session -> bool {
    (s: Session) => Label(s) == level
  }

  function Unknown(s: Session): bool {
    Label(s) !in Levels
  }

  /** The sessions of one group, in log order. */
  function GroupOf(sessions: seq<Session>, level: string): seq<Session> {
    Filter(sessions, Labelled(level))
  }

  /** The grouping loop; a session whose label is not a level is dropped. */
  method GroupSessions(sessions: seq<Session>) returns (groups: map<string, seq<Session>>)
    ensures forall level :: level in groups <==> level in Levels
    ensures forall level :: level in groups ==> groups[level] == GroupOf(sessions, level)
  {
    groups := map["simple" := [], "medium" := [], "complex" := []];
    for i := 0 to |sessions|
      invariant forall level :: level in groups <==> level in Levels
      invariant forall level :: level in groups ==> groups[level] == GroupOf(sessions[..i], level)
    {
      var session := sessions[i];
      var complexity := Label(session);
      forall level ensures GroupOf(sessions[..i + 1], level) ==
        GroupOf(sessions[..i], level) + (if complexity == level then [session] else [])
      {
        GroupSnoc(sessions, i, level);
      }
      if complexity in groups {
        groups := groups[complexity := groups[complexity] + [session]];
      }
    }
    assert sessions[..|sessions|] == sessions;
  }

  lemma GroupSnoc(sessions: seq<Session>, i: nat, level: string)
    requires i < |sessions|
    ensures GroupOf(sessions[..i + 1], level) ==
      GroupOf(sessions[..i], level) + (if Label(sessions[i]) == level then [sessions[i]] else [])
  {
    assert sessions[..i + 1] == sessions[..i] + [sessions[i]];
    FilterAppend(sessions[..i], [sessions[i]], Labelled(level));
  }

  // ---------------------------------------------------------------------------
  // the statistics of one group

  function Tokens(g: seq<Session>): (r: seq<real>)
    ensures |r| == |g|
  {
    seq(|g|, k requires 0 <= k < |g| => g[k].totalTokens as real)
  }

  function Durations(g: seq<Session>): (r: seq<real>)
    ensures |r| == |g|
  {
    seq(|g|, k requires 0 <= k < |g| => g[k].durationSeconds as real)
  }

  function SuccessRates(g: seq<Session>): (r: seq<real>)
    ensures |r| == |g|
  {
    seq(|g|, k requires 0 <= k < |g| => g[k].successRate)
  }

  /** `max(tokens)`, 0 for an empty group. */
  function MaxTokens(g: seq<Session>): int
    decreases |g|
  {
    if |g| == 0 then 0
    else if |g| == 1 then g[0].totalTokens
    else
      var m := MaxTokens(g[..|g| - 1]);
      if g[|g| - 1].totalTokens > m then g[|g| - 1].totalTokens else m
  }

  /** The entry of `complexity_stats` for a group. */
  datatype GroupStats = GroupStats(
    sessionCount: nat,
    avgTokens: real,
    maxTokens: int,
    avgDuration: real,
    successRate: real,
    tokensPerSecond: real)

  /** `avg_tokens / (avg_duration + 1)` divides by zero: both averages are
      non-zero and the average duration is -1. */
  predicate DividesByZero(g: seq<Session>) {
    Mean(Tokens(g)) != 0.0 && Mean(Durations(g)) == -1.0
  }

  function StatsOf(g: seq<Session>): GroupStats {
    var avgTokens := Mean(Tokens(g));
    var avgDuration := Mean(Durations(g));
    var perSecond := if avgTokens != 0.0 && avgDuration != 0.0 && avgDuration + 1.0 != 0.0
      then avgTokens / (avgDuration + 1.0) else 0.0;
    GroupStats(|g|, avgTokens, MaxTokens(g), avgDuration, Mean(SuccessRates(g)), perSecond)
  }

  /** The statistics loop over the three groups, skipping empty ones;
      `raised` when a group's tokens-per-second divides by zero. */
  method ComputeStats(groups: map<string, seq<Session>>) returns (stats: map<string, GroupStats>, raised: bool)
    requires forall level :: level in Levels ==> level in groups
    ensures raised <==> exists k :: 0 <= k < |Levels| && |groups[Levels[k]]| > 0 && DividesByZero(groups[Levels[k]])
    ensures !raised ==> forall level :: level in stats <==> level in Levels && |groups[level]| > 0
    ensures !raised ==> forall level :: level in stats ==> stats[level] == StatsOf(groups[level])
  {
    stats := map[];
    for k := 0 to |Levels|
      invariant forall j :: 0 <= j < k ==> !(|groups[Levels[j]]| > 0 && DividesByZero(groups[Levels[j]]))
      invariant forall level :: level in stats <==> level in Levels[..k] && |groups[level]| > 0
      invariant forall level :: level in stats ==> level in groups && stats[level] == StatsOf(groups[level])
    {
      var complexity := Levels[k];
      var sessions := groups[complexity];
      assert Levels[..k + 1] == Levels[..k] + [complexity];
      if |sessions| == 0 {
        continue;
      }
      var avgTokens := Mean(Tokens(sessions));
      var avgDuration := Mean(Durations(sessions));
      if avgTokens != 0.0 && avgDuration != 0.0 && avgDuration + 1.0 == 0.0 {
        return map[], true;
      }
      stats := stats[complexity := StatsOf(sessions)];
    }
    assert Levels[..|Levels|] == Levels;
    raised := false;
  }

  // ---------------------------------------------------------------------------
  // the recommendations

  /** `0.70 if len(session_data) > 10 else 0.50`. */
  function ComplexityConfidence(n: nat): real {
    if n > ConfidentSessions then 0.70 else 0.50
  }

  /** Simple tasks use more than 70% of the tokens of complex ones. */
  predicate Misaligned(simple: seq<Session>, complex: seq<Session>) {
    |simple| > 0 && |complex| > 0 && Mean(Tokens(simple)) > Mean(Tokens(complex)) * 0.7
  }

  /** Complex tasks succeed less than 60% of the time on more than 150000
      tokens. */
  predicate Struggling(complex: seq<Session>) {
    |complex| > 0 && Mean(SuccessRates(complex)) < 0.6 && Mean(Tokens(complex)) > 150000.0
  }

  predicate Raises(sessions: seq<Session>) {
    exists k :: 0 <= k < |Levels| && |GroupOf(sessions, Levels[k])| > 0 && DividesByZero(GroupOf(sessions, Levels[k]))
  }

  /** The `complexity_stats` entry of a group, present when the group is
      not empty. */
  function Entry(g: seq<Session>): Option<GroupStats> {
    if |g| > 0 then Some(StatsOf(g)) else None
  }

  /** The two rules on the simple and complex entries: the recommendations
      and the predicted impact. */
  function Rules(simple: Option<GroupStats>, complex: Option<GroupStats>): (seq<string>, seq<(string, ImpactValue)>) {
    var misaligned := simple.Some? && complex.Some? && simple.value.avgTokens > complex.value.avgTokens * 0.7;
    var struggling := complex.Some? && complex.value.successRate < 0.6 && complex.value.avgTokens > 150000.0;
    ((if misaligned then ["optimize_simple_task_contexts"] else []) +
     (if struggling then ["break_down_complex_tasks", "implement_progressive_context_building"] else []),
     if misaligned then [("simple_task_optimization", Number(simple.value.avgTokens * 0.3))] else [])
  }

  /** The pattern as a function of the session log; `None` when the
      statistics divide by zero. */
  function ComplexityOf(sessions: seq<Session>): Option<Pattern> {
    if Raises(sessions) then None
    else
      var rules := Rules(Entry(GroupOf(sessions, "simple")), Entry(GroupOf(sessions, "complex")));
      Some(Pattern("task_complexity", ComplexityConfidence(|sessions|), rules.0, rules.1))
  }

  method AnalyzeComplexity(sessions: seq<Session>) returns (r: Option<Pattern>)
    ensures r == ComplexityOf(sessions)
  {
    var groups := GroupSessions(sessions);
    var stats, raised := ComputeStats(groups);
    assert raised <==> Raises(sessions) by {
      forall k | 0 <= k < |Levels| ensures groups[Levels[k]] == GroupOf(sessions, Levels[k]) {
        assert Levels[k] in Levels;
      }
    }
    if raised {
      return None;
    }
    assert "simple" in Levels && "complex" in Levels;
    var simple := if "simple" in stats then Some(stats["simple"]) else None;
    var complex := if "complex" in stats then Some(stats["complex"]) else None;
    assert simple == Entry(GroupOf(sessions, "simple"));
    assert complex == Entry(GroupOf(sessions, "complex"));
    var recommendations, predictedImpact := ApplyRules(simple, complex);
    var confidence := if |sessions| > ConfidentSessions then 0.70 else 0.50;
    r := Some(Pattern("task_complexity", confidence, recommendations, predictedImpact));
  }

  /** The two checks on the simple and complex entries. */
  method ApplyRules(simple: Option<GroupStats>, complex: Option<GroupStats>)
    returns (recommendations: seq<string>, predictedImpact: seq<(string, ImpactValue)>)
    ensures recommendations == Rules(simple, complex).0
    ensures predictedImpact == Rules(simple, complex).1
  {
    recommendations := [];
    predictedImpact := [];
    if simple.Some? && complex.Some? {
      var simpleAvg := simple.value.avgTokens;
      var complexAvg := complex.value.avgTokens;
      if simpleAvg > complexAvg * 0.7 {
        recommendations := recommendations + ["optimize_simple_task_contexts"];
        predictedImpact := predictedImpact + [("simple_task_optimization", Number(simpleAvg * 0.3))];
      }
    }
    if complex.Some? {
      var complexStats := complex.value;
      if complexStats.successRate < 0.6 && complexStats.avgTokens > 150000.0 {
        recommendations := recommendations + ["break_down_complex_tasks", "implement_progressive_context_building"];
      }
    }
  }

  // ---------------------------------------------------------------------------
  // properties

  /** A session is in a group exactly when its label (`medium` when it has
      none) is that level. */
  lemma GroupSpec(sessions: seq<Session>, level: string)
    ensures forall s :: s in GroupOf(sessions, level) <==> s in sessions && Label(s) == level
    ensures IsSubsequence(GroupOf(sessions, level), sessions)
  {
    FilterSpec(sessions, Labelled(level));
  }

  /** The three groups and the dropped sessions partition the log. */
  lemma {:induction false} GroupPartition(sessions: seq<Session>)
    ensures |GroupOf(sessions, "simple")| + |GroupOf(sessions, "medium")| + |GroupOf(sessions, "complex")|
      + |Filter(sessions, Unknown)| == |sessions|
    decreases |sessions|
  {
    if |sessions| > 0 {
      GroupPartition(sessions[1..]);
      assert "simple"[0] != "medium"[0] && "simple"[0] != "complex"[0] && "medium"[0] != "complex"[0];
    }
  }

  /** The higher confidence comes exactly with more than ten sessions. */
  lemma ComplexityConfidenceSpec(sessions: seq<Session>)
    requires ComplexityOf(sessions).Some?
    ensures ComplexityOf(sessions).value.confidence == 0.70 <==> |sessions| > ConfidentSessions
    ensures ComplexityOf(sessions).value.confidence == 0.50 <==> |sessions| <= ConfidentSessions
  {
  }

  /** Each rule brings its own recommendations, and only those; the
      predicted saving is 30% of the simple tasks' average. */
  lemma ComplexityRecommendations(sessions: seq<Session>)
    requires ComplexityOf(sessions).Some?
    ensures var p := ComplexityOf(sessions).value;
      var simple := GroupOf(sessions, "simple");
      var complex := GroupOf(sessions, "complex");
      ("optimize_simple_task_contexts" in p.recommendations <==> Misaligned(simple, complex)) &&
      ("break_down_complex_tasks" in p.recommendations <==> Struggling(complex)) &&
      ("implement_progressive_context_building" in p.recommendations <==> Struggling(complex)) &&
      (Misaligned(simple, complex) ==> p.impact == [("simple_task_optimization", Number(Mean(Tokens(simple)) * 0.3))]) &&
      (!Misaligned(simple, complex) ==> p.impact == [])
  {
    assert "optimize_simple_task_contexts"[0] != "break_down_complex_tasks"[0];
    assert "optimize_simple_task_contexts"[0] != "implement_progressive_context_building"[0];
  }

  /** When no complex session uses more than 150000 tokens, breaking complex
      tasks down is never recommended. */
  lemma SmallComplexTasks(sessions: seq<Session>)
    requires ComplexityOf(sessions).Some?
    requires forall s :: s in sessions && Label(s) == "complex" ==> s.totalTokens <= 150000
    ensures "break_down_complex_tasks" !in ComplexityOf(sessions).value.recommendations
  {
    var complex := GroupOf(sessions, "complex");
    ComplexityRecommendations(sessions);
    if |complex| > 0 {
      GroupSpec(sessions, "complex");
      forall k | 0 <= k < |complex| ensures Tokens(complex)[k] <= 150000.0 {
        assert complex[k] in complex;
      }
      MeanAtMost(Tokens(complex), 150000.0);
    }
  }

  /** The mean of values at most `hi` is at most `hi`. */
  lemma MeanAtMost(xs: seq<real>, hi: real)
    requires |xs| > 0
    requires forall k :: 0 <= k < |xs| ==> xs[k] <= hi
    ensures Mean(xs) <= hi
  {
    forall k | 0 <= k < |xs| ensures xs[k] >= Lowest(xs) {
      LowestSpec(xs, k);
    }
    MeanBounds(xs, Lowest(xs), hi);
  }

  function Lowest(xs: seq<real>): real
    requires |xs| > 0
    decreases |xs|
  {
    if |xs| == 1 then xs[0] else Min(xs[0], Lowest(xs[1..]))
  }

  lemma {:induction false} LowestSpec(xs: seq<real>, k: nat)
    requires k < |xs|
    ensures Lowest(xs) <= xs[k]
    decreases |xs|
  {
    if |xs| > 1 && k > 0 {
      LowestSpec(xs[1..], k - 1);
    }
  }

  /** The largest token count of a non-empty group is one of its counts and
      bounds the others. */
  lemma {:induction false} MaxTokensSpec(g: seq<Session>)
    requires |g| > 0
    ensures exists k :: 0 <= k < |g| && g[k].totalTokens == MaxTokens(g)
    ensures forall k :: 0 <= k < |g| ==> g[k].totalTokens <= MaxTokens(g)
    decreases |g|
  {
    if |g| > 1 {
      var init := g[..|g| - 1];
      MaxTokensSpec(init);
      var j :| 0 <= j < |init| && init[j].totalTokens == MaxTokens(init);
      assert g[j] == init[j];
      if g[|g| - 1].totalTokens > MaxTokens(init) {
        assert g[|g| - 1].totalTokens == MaxTokens(g);
      } else {
        assert g[j].totalTokens == MaxTokens(g);
      }
      forall k | 0 <= k < |g| - 1 ensures g[k].totalTokens <= MaxTokens(g) {
        assert g[k] == init[k];
      }
    } else {
      assert g[0].totalTokens == MaxTokens(g);
    }
  }
}
