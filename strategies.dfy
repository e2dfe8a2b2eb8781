/** The compression strategies and how `compress_content` picks them from
    the reduction target and the aggressive flag. */
module Strategies {
  datatype Strategy =
    | WhitespaceOptimization
    | RedundancyElimination
    | SemanticCondensation
    | PatternAbstraction
    | ContextDeduplication
    | AggressiveCompression

  /** The name the source uses for the strategy, as reported in `method_used`. */
  function Name(s: Strategy): string {
    match s
    case WhitespaceOptimization => "whitespace_optimization"
    case RedundancyElimination => "redundancy_elimination"
    case SemanticCondensation => "semantic_condensation"
    case PatternAbstraction => "pattern_abstraction"
    case ContextDeduplication => "context_deduplication"
    case AggressiveCompression => "aggressive_compression"
  }

  /** The conservative tiers extend this sequence one strategy at a time. */
  const ConservativeOrder: seq<Strategy> :=
    [WhitespaceOptimization, RedundancyElimination, SemanticCondensation, PatternAbstraction]

  const AggressiveOrder: seq<Strategy> :=
    [AggressiveCompression, ContextDeduplication, SemanticCondensation, WhitespaceOptimization]

  /** The strategy selection of `compress_content`. */
  function Select(targetReduction: real, aggressiveMode: bool): seq<Strategy> {
    if !aggressiveMode then
      if targetReduction <= 0.10 then [WhitespaceOptimization]
      else if targetReduction <= 0.20 then [WhitespaceOptimization, RedundancyElimination]
      else if targetReduction <= 0.30 then [WhitespaceOptimization, RedundancyElimination, SemanticCondensation]
      else [WhitespaceOptimization, RedundancyElimination, SemanticCondensation, PatternAbstraction]
    else
      [AggressiveCompression, ContextDeduplication, SemanticCondensation, WhitespaceOptimization]
  }

  // ---------------------------------------------------------------------------
  // properties

  /** Different strategies have different names. */
  lemma NameInjective(a: Strategy, b: Strategy)
    ensures Name(a) == Name(b) <==> a == b
  {
    if a != b {
      assert Name(a)[..3] != Name(b)[..3] || Name(a)[3] != Name(b)[3] || |Name(a)| != |Name(b)|;
    }
  }

  /** Aggressive mode ignores the target and always runs the same four
      strategies. */
  lemma SelectAggressive(targetReduction: real)
    ensures Select(targetReduction, true) == AggressiveOrder
  {
  }

  /** A conservative selection is the first one to four strategies of the
      conservative order; the tier boundaries are 0.10, 0.20 and 0.30,
      each inclusive. */
  lemma SelectTiers(targetReduction: real)
    ensures var r := Select(targetReduction, false);
      1 <= |r| <= 4 && r == ConservativeOrder[..|r|] &&
      (|r| == 1 <==> targetReduction <= 0.10) &&
      (|r| <= 2 <==> targetReduction <= 0.20) &&
      (|r| <= 3 <==> targetReduction <= 0.30)
  {
  }

  /** A larger target never selects fewer strategies: each conservative tier
      extends the previous one, and a strictly higher tier strictly. */
  lemma SelectMonotone(t1: real, t2: real)
    requires t1 <= t2
    ensures var r1 := Select(t1, false); var r2 := Select(t2, false);
      |r1| <= |r2| && r1 == r2[..|r1|]
  {
    SelectTiers(t1);
    SelectTiers(t2);
  }

  /** No selection names a strategy twice. */
  lemma SelectDistinct(targetReduction: real, aggressiveMode: bool)
    ensures var r := Select(targetReduction, aggressiveMode);
      forall i, j :: 0 <= i < j < |r| ==> r[i] != r[j]
  {
  }
}
