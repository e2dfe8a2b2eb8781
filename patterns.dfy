/** `ContextPattern` and the summary counts `save_patterns` writes next to
    the detected patterns. */
module Patterns {
  import opened Text

  /** The confidence thresholds of `PatternAnalyzer`. */
  const HighConfidence: real := 0.85
  const MediumConfidence: real := 0.70
  const LowConfidence: real := 0.55

  /** A value of `predicted_impact`: a number, or the record of the
      recommended optimization (its type, expected tokens saved, success
      probability and efficiency score) that the effectiveness analysis
      stores under `recommended_optimization`. */
  datatype ImpactValue =
    | Number(value: real)
    | Recommended(optimizationType: string, expectedTokensSaved: real, successProbability: real, efficiencyScore: real)

  /** A detected pattern: its type, confidence, recommendations and the
      `predicted_impact` entries in insertion order. The timestamp and the
      free-form characteristics are not modelled. */
  datatype Pattern = Pattern(
    patternType: string,
    confidence: real,
    recommendations: seq<string>,
    impact: seq<(string, ImpactValue)>)

  /** The patterns whose confidence is strictly above `threshold`. */
  function Confident(patterns: seq<Pattern>, threshold: real): (r: seq<Pattern>)
    ensures |r| <= |patterns|
  {
    Filter(patterns, (p: Pattern) => p.confidence > threshold)
  }

  /** The recommendations of the patterns, one list after the other. */
  function AllRecommendations(patterns: seq<Pattern>): seq<string>
    decreases |patterns|
  {
    if |patterns| == 0 then []
    else AllRecommendations(patterns[..|patterns| - 1]) + patterns[|patterns| - 1].recommendations
  }

  /** The loop of `save_patterns` over the pattern dict: the number of
      patterns, those above the high threshold, and the recommendations of
      all of them. */
  method Summarize(patterns: seq<Pattern>) returns (totalPatterns: nat, highConfidencePatterns: nat, actionableRecommendations: nat)
    ensures totalPatterns == |patterns|
    ensures highConfidencePatterns == |Confident(patterns, HighConfidence)|
    ensures actionableRecommendations == |AllRecommendations(patterns)|
  {
    totalPatterns := |patterns|;
    highConfidencePatterns := 0;
    actionableRecommendations := 0;
    for i := 0 to |patterns|
      invariant highConfidencePatterns == |Confident(patterns[..i], HighConfidence)|
      invariant actionableRecommendations == |AllRecommendations(patterns[..i])|
    {
      ConfidentSnoc(patterns, i, HighConfidence);
      assert patterns[..i + 1][..i] == patterns[..i];
      if patterns[i].confidence > HighConfidence {
        highConfidencePatterns := highConfidencePatterns + 1;
      }
      actionableRecommendations := actionableRecommendations + |patterns[i].recommendations|;
    }
    assert patterns[..|patterns|] == patterns;
  }

  lemma ConfidentSnoc(patterns: seq<Pattern>, i: nat, threshold: real)
    requires i < |patterns|
    ensures Confident(patterns[..i + 1], threshold) ==
      Confident(patterns[..i], threshold) + (if patterns[i].confidence > threshold then [patterns[i]] else [])
  {
    assert patterns[..i + 1] == patterns[..i] + [patterns[i]];
    FilterAppend(patterns[..i], [patterns[i]], (p: Pattern) => p.confidence > threshold);
  }

  // ---------------------------------------------------------------------------
  // properties

  /** A pattern is counted exactly when it is above the threshold, and the
      count never exceeds the number of patterns. */
  lemma ConfidentSpec(patterns: seq<Pattern>, threshold: real)
    ensures forall p :: p in Confident(patterns, threshold) <==> p in patterns && p.confidence > threshold
    ensures IsSubsequence(Confident(patterns, threshold), patterns)
  {
    FilterSpec(patterns, (p: Pattern) => p.confidence > threshold);
  }

  /** A higher threshold never counts more patterns. */
  lemma {:induction false} ConfidentMonotone(patterns: seq<Pattern>, low: real, high: real)
    requires low <= high
    ensures |Confident(patterns, high)| <= |Confident(patterns, low)|
    decreases |patterns|
  {
    if |patterns| > 0 {
      ConfidentMonotone(patterns[1..], low, high);
    }
  }

  /** Every recommendation is counted once per pattern that makes it, and
      the count adds up over the patterns. */
  lemma {:induction false} AllRecommendationsAppend(a: seq<Pattern>, b: seq<Pattern>)
    ensures AllRecommendations(a + b) == AllRecommendations(a) + AllRecommendations(b)
    decreases |b|
  {
    if |b| == 0 {
      assert a + b == a;
    } else {
      assert (a + b)[..|a + b| - 1] == a + b[..|b| - 1];
      AllRecommendationsAppend(a, b[..|b| - 1]);
    }
  }

  lemma {:induction false} AllRecommendationsSpec(patterns: seq<Pattern>, r: string)
    ensures r in AllRecommendations(patterns) <==> exists k :: 0 <= k < |patterns| && r in patterns[k].recommendations
    decreases |patterns|
  {
    if |patterns| > 0 {
      var init := patterns[..|patterns| - 1];
      AllRecommendationsSpec(init, r);
      if r in AllRecommendations(patterns) && r !in patterns[|patterns| - 1].recommendations {
        var k :| 0 <= k < |init| && r in init[k].recommendations;
        assert patterns[k] == init[k];
      }
      if exists k :: 0 <= k < |patterns| && r in patterns[k].recommendations {
        var k :| 0 <= k < |patterns| && r in patterns[k].recommendations;
        if k < |init| {
          assert init[k] == patterns[k];
        }
      }
    }
  }
}
