/** `analyze_token_growth_patterns`: the last fifty records of a session log
    are ordered by timestamp, the growth velocity and acceleration are
    averaged over them, and fixed thresholds on those and on the latest token
    count decide the recommendations. Velocity and acceleration follow the
    pure-Python computation used when numpy is not installed. */
module Growth {
  import opened Text
  import opened Numeric
  import opened Sorting
  import opened Patterns

  /** Fewer records than this give the insufficient-data pattern. */
  const MinRecords: nat := 5
  /** How many of the latest records are analysed. */
  const Window: nat := 50

  /** One session-log record; a missing key is `None`. */
  datatype Record = Record(timestamp: Option<real>, totalTokens: Option<int>)

  /** `(d.get('timestamp', 0), d.get('total_tokens', 0))`. */
  function PointOf(r: Record): (real, int) {
    (match r.timestamp case Some(t) => t case None => 0.0,
     match r.totalTokens case Some(n) => n case None => 0)
  }

  function Points(records: seq<Record>): (r: seq<(real, int)>)
    ensures |r| == |records|
  {
    seq(|records|, k requires 0 <= k < |records| => PointOf(records[k]))
  }

  function Time(p: (real, int)): real {
    p.0
  }

  /** `tokens_over_time`: the last fifty points, sorted (stably) by time. */
  function Series(records: seq<Record>): seq<(real, int)> {
    SortBy(Points(Last(records, Window)), Time)
  }

  /** The velocities of the fallback loop: one per consecutive pair of
      points whose time difference is positive. */
  function Velocities(series: seq<(real, int)>): (r: seq<real>)
    ensures |r| <= if |series| == 0 then 0 else |series| - 1
    decreases |series|
  {
    if |series| < 2 then []
    else
      var n := |series|;
      var dt := series[n - 1].0 - series[n - 2].0;
      Velocities(series[..n - 1]) + (if dt > 0.0 then [(series[n - 1].1 - series[n - 2].1) as real / dt] else [])
  }

  /** The mean change between consecutive velocities, 0 with fewer than two. */
  function Acceleration(velocities: seq<real>): real {
    if |velocities| > 1 then Mean(Diffs(velocities)) else 0.0
  }

  /** The latest token count, 0 for an empty series. */
  function CurrentTokens(series: seq<(real, int)>): int {
    if |series| > 0 then series[|series| - 1].1 else 0
  }

  /** `min(0.4, current_tokens * 0.25 / 200000)`. */
  function OptimizationPotential(currentTokens: int): real {
    Min(0.4, currentTokens as real * 0.25 / 200000.0)
  }

  /** The classification: confidence 0.75 raised by 0.10 for a velocity
      above 500 and by 0.05 for an acceleration above 50, capped at 0.95. */
  function Classify(velocity: real, acceleration: real, currentTokens: int): Pattern {
    var fast := velocity > 500.0;
    var accelerating := acceleration > 50.0;
    var large := currentTokens > 150000;
    var steady := velocity > 100.0 && currentTokens > 100000;
    var confidence := 0.75 + (if fast then 0.10 else 0.0) + (if accelerating then 0.05 else 0.0);
    var impact :=
      (if fast then [("urgency_score", Number(0.8))] else []) +
      (if accelerating then [("overflow_risk_5min", Number(0.7))] else []) +
      (if large then [("optimization_potential", Number(OptimizationPotential(currentTokens)))] else []) +
      (if steady then [("handoff_benefit", Number(0.4))] else []);
    Pattern("token_growth", Min(confidence, 0.95), Recommendations(velocity, acceleration, currentTokens), impact)
  }

  /** The recommendations of the four thresholds, in the order they are tested. */
  function Recommendations(velocity: real, acceleration: real, currentTokens: int): seq<string> {
    (if velocity > 500.0 then ["implement_token_budgeting", "consider_agent_reduction"] else []) +
    (if acceleration > 50.0 then ["emergency_handoff_preparation", "enable_predictive_optimization"] else []) +
    (if currentTokens > 150000 then ["semantic_compression", "context_sharing"] else []) +
    (if velocity > 100.0 && currentTokens > 100000 then ["handoff_optimization"] else [])
  }

  const Insufficient: Pattern := Pattern("token_growth", 0.30, [], [])

  /** The pattern as a function of the session log. */
  function GrowthOf(records: seq<Record>): Pattern {
    if |records| < MinRecords then Insufficient
    else
      var series := Series(records);
      var velocities := Velocities(series);
      Classify(Mean(velocities), Acceleration(velocities), CurrentTokens(series))
  }

  method AnalyzeGrowth(records: seq<Record>) returns (p: Pattern)
    ensures p == GrowthOf(records)
  {
    if |records| < MinRecords {
      return Insufficient;
    }
    var series := SortBy(Points(Last(records, Window)), Time);
    var velocity, acceleration := Kinematics(series);
    var currentTokens := if |series| > 0 then series[|series| - 1].1 else 0;
    p := Classify(velocity, acceleration, currentTokens);
  }

  /** The fallback computation: the mean velocity and the mean change of
      velocity. */
  method Kinematics(series: seq<(real, int)>) returns (velocity: real, acceleration: real)
    ensures velocity == Mean(Velocities(series))
    ensures acceleration == Acceleration(Velocities(series))
  {
    if |series| < 2 {
      return 0.0, 0.0;
    }
    var velocities := VelocityLoop(series);
    velocity := if |velocities| > 0 then Sum(velocities) / |velocities| as real else 0.0;
    acceleration := 0.0;
    if |velocities| > 1 {
      var accelValues := AccelerationLoop(velocities);
      acceleration := if |accelValues| > 0 then Sum(accelValues) / |accelValues| as real else 0.0;
    }
  }

  /** The loop over consecutive points, keeping a velocity for each pair a
      positive time apart. */
  method VelocityLoop(series: seq<(real, int)>) returns (velocities: seq<real>)
    ensures velocities == Velocities(series)
  {
    velocities := [];
    if |series| < 2 {
      return;
    }
    for i := 1 to |series|
      invariant velocities == Velocities(series[..i])
    {
      var timeDiff := series[i].0 - series[i - 1].0;
      var tokenDiff := series[i].1 - series[i - 1].1;
      VelocitiesSnoc(series, i);
      if timeDiff > 0.0 {
        velocities := velocities + [tokenDiff as real / timeDiff];
      }
    }
    assert series[..|series|] == series;
  }

  lemma VelocitiesSnoc(series: seq<(real, int)>, i: nat)
    requires 1 <= i < |series|
    ensures var dt := series[i].0 - series[i - 1].0;
      Velocities(series[..i + 1]) ==
        Velocities(series[..i]) + (if dt > 0.0 then [(series[i].1 - series[i - 1].1) as real / dt] else [])
  {
    assert series[..i + 1][..i] == series[..i];
  }

  /** The loop over consecutive velocities. */
  method AccelerationLoop(velocities: seq<real>) returns (accelValues: seq<real>)
    ensures accelValues == Diffs(velocities)
  {
    accelValues := [];
    if |velocities| == 0 {
      return;
    }
    for i := 1 to |velocities|
      invariant accelValues == Diffs(velocities[..i])
    {
      DiffsSnoc(velocities, i);
      accelValues := accelValues + [velocities[i] - velocities[i - 1]];
    }
    assert velocities[..|velocities|] == velocities;
  }

  // ---------------------------------------------------------------------------
  // properties

  /** The series is the last fifty records' points, each once, in time order. */
  lemma SeriesSpec(records: seq<Record>)
    ensures Ascending(Series(records), Time)
    ensures multiset(Series(records)) == multiset(Points(Last(records, Window)))
    ensures |Series(records)| == if |records| <= Window then |records| else Window
  {
    SortBySpec(Points(Last(records, Window)), Time);
  }

  /** The current token count is that of the last record of the window
      with the greatest timestamp. */
  lemma CurrentIsLatest(records: seq<Record>)
    requires |records| > 0
    ensures var series := Series(records);
      exists k :: |records| - |series| <= k < |records| && PointOf(records[k]) == series[|series| - 1]
    ensures var series := Series(records);
      forall k :: |records| - |series| <= k < |records| ==> PointOf(records[k]).0 <= series[|series| - 1].0
    ensures var series := Series(records);
      exists k :: |records| - |series| <= k < |records| && PointOf(records[k]) == series[|series| - 1] &&
        (forall k' :: k < k' < |records| ==> PointOf(records[k']).0 < series[|series| - 1].0)
  {
    var window := Last(records, Window);
    var points := Points(window);
    var series := Series(records);
    var off := |records| - |window|;
    SeriesSpec(records);
    SortByLast(points, Time);
    var i := SortByLastIndex(points, Time);
    WindowPoint(records, off + i);
    forall k | off <= k < |records|
      ensures PointOf(records[k]).0 <= series[|series| - 1].0
    {
      WindowPoint(records, k);
      assert points[k - off] in points;
    }
    forall k' | off + i < k' < |records|
      ensures PointOf(records[k']).0 < series[|series| - 1].0
    {
      WindowPoint(records, k');
    }
  }

  lemma WindowPoint(records: seq<Record>, k: nat)
    requires |records| - |Last(records, Window)| <= k < |records|
    ensures Points(Last(records, Window))[k - (|records| - |Last(records, Window)|)] == PointOf(records[k])
  {
  }

  /** The mean acceleration telescopes: the last velocity minus the first,
      over the number of changes. */
  lemma AccelerationSpec(velocities: seq<real>)
    requires |velocities| > 1
    ensures Acceleration(velocities) == (velocities[|velocities| - 1] - velocities[0]) / (|velocities| - 1) as real
  {
    DiffsSum(velocities);
  }

  /** With fewer than five records the insufficient-data pattern comes
      back; otherwise the confidence is at least 0.75. Either way it never
      exceeds 0.95. */
  lemma GrowthConfidence(records: seq<Record>)
    ensures |records| < MinRecords ==> GrowthOf(records) == Insufficient
    ensures |records| >= MinRecords ==> 0.75 <= GrowthOf(records).confidence <= 0.90
    ensures GrowthOf(records).confidence <= 0.95
  {
  }

  /** Only the last fifty records matter. */
  lemma GrowthWindow(records: seq<Record>)
    requires |records| >= MinRecords
    ensures GrowthOf(records) == GrowthOf(Last(records, Window))
  {
    var w := Last(records, Window);
    assert Last(w, Window) == w;
  }

  /** A velocity above 500 brings the budgeting pair, and nothing else does. */
  lemma ClassifyVelocity(velocity: real, acceleration: real, currentTokens: int)
    ensures var recs := Recommendations(velocity, acceleration, currentTokens);
      ("implement_token_budgeting" in recs <==> velocity > 500.0) &&
      ("consider_agent_reduction" in recs <==> velocity > 500.0)
  {
  }

  /** An acceleration above 50 brings the handoff-preparation pair, and
      nothing else does. */
  lemma ClassifyAcceleration(velocity: real, acceleration: real, currentTokens: int)
    ensures var recs := Recommendations(velocity, acceleration, currentTokens);
      ("emergency_handoff_preparation" in recs <==> acceleration > 50.0) &&
      ("enable_predictive_optimization" in recs <==> acceleration > 50.0)
  {
  }

  /** More than 150000 current tokens bring the compression pair, and a
      velocity above 100 with more than 100000 tokens brings the handoff
      optimization; nothing else brings either. */
  lemma ClassifyTokens(velocity: real, acceleration: real, currentTokens: int)
    ensures var recs := Recommendations(velocity, acceleration, currentTokens);
      ("semantic_compression" in recs <==> currentTokens > 150000) &&
      ("context_sharing" in recs <==> currentTokens > 150000) &&
      ("handoff_optimization" in recs <==> velocity > 100.0 && currentTokens > 100000)
  {
    assert "semantic_compression"[0] != "handoff_optimization"[0];
  }

  /** The predicted optimization potential lies in (0, 0.4] when reported. */
  lemma OptimizationPotentialBounds(currentTokens: int)
    requires currentTokens > 150000
    ensures 0.0 < OptimizationPotential(currentTokens) <= 0.4
    ensures currentTokens >= 320000 ==> OptimizationPotential(currentTokens) == 0.4
  {
  }
}
