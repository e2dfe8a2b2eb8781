/** `compress_content`: the selected strategies run in order over a working
    copy of the text, the scores multiply, a strategy that raises is skipped,
    the loop stops once the reduction target is met, and results are cached
    by content hash, target and mode. */
module Compressor {
  import opened Text
  import opened Strategies
  import opened Pipeline
  import Whitespace
  import Redundancy
  import Condensation
  import Abstraction
  import Dedup
  import Aggressive

  /** The parts of the strategies the model takes as given: whether a line
      matches a preserve pattern, the `redundant_patterns` rewrite pass, and
      the function and JSON detections of `pattern_abstraction`. */
  datatype Oracles = Oracles(
    isTechnical: string -> bool,
    rewrite: string -> string,
    funcDetect: string -> seq<string>,
    jsonDetect: string -> seq<string>)

  /** One strategy applied to the working text: the new text and its score,
      or `None` when the strategy raises. */
  function Apply(s: Strategy, content: string, env: Oracles): Option<(string, real)> {
    match s
    case WhitespaceOptimization => Some(Whitespace.CompressWhitespace(content))
    case RedundancyElimination => Some(Redundancy.Eliminate(content, env.rewrite))
    case SemanticCondensation => Condensation.Condense(content, env.isTechnical)
    case PatternAbstraction => Some(Abstraction.Abstract(content, env.funcDetect(content), env.jsonDetect(content)))
    case ContextDeduplication => Some(Dedup.Deduplicate(content))
    case AggressiveCompression => Some(Aggressive.AggressiveCompress(content))
  }

  /** The dispatch of `compress_content` over the six strategies. */
  function Dispatch(env: Oracles): Transform {
    (s, c) => Apply(s, c, env)
  }

  /** `f"{content_hash}_{target_reduction}_{aggressive_mode}"`; the time limit
      is not part of it. */
  datatype CacheKey = CacheKey(contentHash: string, targetReduction: real, aggressiveMode: bool)

  class SemanticCompressor {
    const preservationThreshold: real
    /** `hashlib.md5(...).hexdigest()`. */
    const md5: string -> string
    const env: Oracles
    var compressionCache: map<CacheKey, CompressionResult>

    constructor (preservationThreshold: real, md5: string -> string, env: Oracles)
      ensures this.preservationThreshold == preservationThreshold && this.md5 == md5 && this.env == env
      ensures compressionCache == map[]
    {
      this.preservationThreshold := preservationThreshold;
      this.md5 := md5;
      this.env := env;
      compressionCache := map[];
    }

    /** A cached key returns the stored result and changes nothing; otherwise
        the strategies run and the result is stored under the key. */
    method CompressContent(content: string, targetReduction: real, maxTime: int, aggressiveMode: bool,
                           elapsed: nat -> nat, processingTime: real)
      returns (result: CompressionResult)
      modifies this
      ensures var key := CacheKey(md5(content), targetReduction, aggressiveMode);
        if key in old(compressionCache) then
          result == old(compressionCache)[key] && compressionCache == old(compressionCache)
        else
          result == Compress(content, targetReduction, maxTime, aggressiveMode, elapsed, processingTime, md5(content), Dispatch(env)) &&
          compressionCache == old(compressionCache)[key := result]
    {
      var originalSize := |content|;
      var originalTokens := originalSize / CharsPerToken;
      var contentHash := md5(content);
      var cacheKey := CacheKey(contentHash, targetReduction, aggressiveMode);
      if cacheKey in compressionCache {
        return compressionCache[cacheKey];
      }
      var selectedStrategies := Select(targetReduction, aggressiveMode);
      var b := Budget(originalSize, targetReduction, maxTime, elapsed);
      var compressedContent, overallPreservation, methodUsed := RunStrategies(selectedStrategies, content, b, Dispatch(env));
      var compressedSize := |compressedContent|;
      var tokensSaved := originalTokens - compressedSize / CharsPerToken;
      var compressionRatio := if originalSize > 0 then compressedSize as real / originalSize as real else 1.0;
      result := CompressionResult(
        originalSize, compressedSize, tokensSaved, compressionRatio, overallPreservation,
        processingTime, Join(Names(methodUsed), ", "), contentHash);
      compressionCache := compressionCache[cacheKey := result];
    }
  }

  /** One strategy, dispatched by name as the `if`/`elif` chain does. */
  method ApplyStrategy(strategy: Strategy, content: string, env: Oracles) returns (outcome: Option<(string, real)>)
    ensures outcome == Apply(strategy, content, env)
  {
    match strategy
    case WhitespaceOptimization =>
      outcome := Some(Whitespace.CompressWhitespace(content));
    case RedundancyElimination =>
      var c, p := Redundancy.EliminateRedundancy(content, env.rewrite);
      outcome := Some((c, p));
    case SemanticCondensation =>
      outcome := Condensation.SemanticCondensation(content, env.isTechnical);
    case PatternAbstraction =>
      var c, p := Abstraction.PatternAbstraction(content, env.funcDetect(content), env.jsonDetect(content));
      outcome := Some((c, p));
    case ContextDeduplication =>
      var c, p := Dedup.ContextDeduplication(content);
      outcome := Some((c, p));
    case AggressiveCompression =>
      var c, p := Aggressive.AggressiveCompression(content);
      outcome := Some((c, p));
  }

  // ---------------------------------------------------------------------------
  // properties

  /** Only `semantic_condensation` raises, and only on empty text (its score
      divides by the length). */
  lemma ApplyRaises(s: Strategy, content: string, env: Oracles)
    ensures Apply(s, content, env).None? <==> s == SemanticCondensation && content == ""
  {
    if s == SemanticCondensation {
      Condensation.CondenseScore(content, env.isTechnical);
    }
  }

  /** The score each strategy reports: whitespace 1.0, redundancy 0.99,
      condensation between 0.95 and 1, abstraction 0.98, deduplication at
      most 0.99, aggressive 0.90; so every score lies in [0, 1]. */
  lemma ApplyScore(s: Strategy, content: string, env: Oracles)
    requires Apply(s, content, env).Some?
    ensures var score := Apply(s, content, env).value.1;
      0.0 <= score <= 1.0 &&
      (s == WhitespaceOptimization ==> score == 1.0) &&
      (s == RedundancyElimination ==> score == 0.99) &&
      (s == SemanticCondensation ==> 0.95 <= score) &&
      (s == PatternAbstraction ==> score == 0.98) &&
      (s == ContextDeduplication ==> score <= 0.99) &&
      (s == AggressiveCompression ==> score == 0.90)
  {
    if s == SemanticCondensation {
      Condensation.CondenseScore(content, env.isTechnical);
    }
  }

  /** So for an empty original, with no timeout and no semantic condensation
      selected, every selected strategy is reported in `method_used`. */
  lemma EmptyOriginalRunsAll(strategies: seq<Strategy>, b: Budget, env: Oracles)
    requires b.originalSize == 0
    requires forall j :: 0 <= j < |strategies| ==> b.elapsed(j) < b.maxTime
    requires SemanticCondensation !in strategies
    ensures Methods(Steps(strategies, 0, "", b, Dispatch(env))) == strategies
  {
    forall j, c | 0 <= j < |strategies| ensures Dispatch(env)(strategies[j], c).Some? {
      ApplyRaises(strategies[j], c, env);
    }
    StepsRunAll(strategies, 0, "", b, Dispatch(env));
    assert strategies[0..] == strategies;
  }

  /** The strategies of `compress_content` all report scores in [0, 1]. */
  lemma DispatchScores(env: Oracles)
    ensures ScoresInRange(Dispatch(env))
  {
    forall s, c | Dispatch(env)(s, c).Some? ensures 0.0 <= Dispatch(env)(s, c).value.1 <= 1.0 {
      ApplyScore(s, c, env);
    }
  }
}
