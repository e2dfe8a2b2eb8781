/** The strategy loop of `compress_content`, independent of what the
    strategies do: which strategies are applied, in which order, when the
    loop stops, and how the scores combine. */
module Pipeline {
  import opened Text
  import opened Strategies

  /** A strategy runner: the new text and score, or `None` when it raises. */
  type Transform = (Strategy, string) -> Option<(string, real)>

  /** Every score a runner reports lies in [0, 1]. */
  ghost predicate ScoresInRange(apply: Transform) {
    forall s, c :: apply(s, c).Some? ==> 0.0 <= apply(s, c).value.1 <= 1.0
  }

  /** What stays fixed during one run of the loop. `elapsed(i)` is the whole
      seconds of the elapsed time (`timedelta.seconds`) read before strategy
      `i`. */
  datatype Budget = Budget(originalSize: nat, target: real, maxTime: int, elapsed: nat -> nat)

  /** A strategy that was applied, with the text and score it produced. */
  datatype Step = Step(strategy: Strategy, content: string, score: real)

  /** `1 - len(compressed) / original_size >= target_reduction`. */
  predicate Reached(size: nat, b: Budget)
    requires b.originalSize > 0
  {
    1.0 - size as real / b.originalSize as real >= b.target
  }

  /** The applied strategies, from strategy `i` on, starting from `current`.
      The loop ends at a timeout; a strategy that raises is skipped; after an
      applied strategy the loop stops when the target is reached. With an
      empty original the reduction check itself raises, after the strategy
      was recorded, so the loop goes on. */
  function Steps(strategies: seq<Strategy>, i: nat, current: string, b: Budget, apply: Transform): seq<Step>
    requires i <= |strategies|
    decreases |strategies| - i
  {
    if i == |strategies| || b.elapsed(i) >= b.maxTime then []
    else match apply(strategies[i], current)
      case None => Steps(strategies, i + 1, current, b, apply)
      case Some(out) =>
        [Step(strategies[i], out.0, out.1)] +
        (if b.originalSize > 0 && Reached(|out.0|, b) then []
         else Steps(strategies, i + 1, out.0, b, apply))
  }

  /** `overall_preservation *= preservation`. */
  function Scale(preservation: real, score: real): real {
    preservation * score
  }

  /** `overall_preservation`: the product of the applied scores. */
  function Product(steps: seq<Step>): real
    decreases |steps|
  {
    if |steps| == 0 then 1.0 else Scale(Product(steps[..|steps| - 1]), steps[|steps| - 1].score)
  }

  /** `method_used`. */
  function Methods(steps: seq<Step>): (r: seq<Strategy>)
    ensures |r| == |steps|
  {
    seq(|steps|, k requires 0 <= k < |steps| => steps[k].strategy)
  }

  /** The working text after the steps. */
  function Output(steps: seq<Step>, content: string): string {
    if |steps| == 0 then content else steps[|steps| - 1].content
  }

  function Names(methods: seq<Strategy>): (r: seq<string>)
    ensures |r| == |methods|
  {
    seq(|methods|, k requires 0 <= k < |methods| => Name(methods[k]))
  }

  const CharsPerToken: nat := 4

  datatype CompressionResult = CompressionResult(
    originalSize: nat,
    compressedSize: nat,
    tokensSaved: int,
    compressionRatio: real,
    preservationScore: real,
    processingTime: real,
    methodUsed: string,
    contentHash: string)

  /** `compressed_size / original_size`, or 1.0 for an empty original. */
  function CompressionRatio(compressedSize: nat, originalSize: nat): (r: real)
    ensures r >= 0.0
    ensures originalSize == 0 ==> r == 1.0
    ensures originalSize > 0 ==> r * originalSize as real == compressedSize as real
  {
    if originalSize > 0 then compressedSize as real / originalSize as real else 1.0
  }

  /** The result record built from the applied steps. */
  function Summary(content: string, steps: seq<Step>, processingTime: real, contentHash: string): CompressionResult {
    var out := Output(steps, content);
    CompressionResult(
      |content|, |out|, |content| / CharsPerToken - |out| / CharsPerToken,
      CompressionRatio(|out|, |content|), Product(steps), processingTime,
      Join(Names(Methods(steps)), ", "), contentHash)
  }

  /** The strategy loop of `compress_content`, running each strategy
      through the dispatch `apply`. */
  method RunStrategies(strategies: seq<Strategy>, content: string, b: Budget, apply: Transform)
    returns (compressedContent: string, overallPreservation: real, methodUsed: seq<Strategy>)
    ensures var steps := Steps(strategies, 0, content, b, apply);
      compressedContent == Output(steps, content) &&
      overallPreservation == Product(steps) &&
      methodUsed == Methods(steps)
  {
    compressedContent := content;
    overallPreservation := 1.0;
    methodUsed := [];
    ghost var all := Steps(strategies, 0, content, b, apply);
    ghost var done: seq<Step> := [];
    var i := 0;
    while i < |strategies|
      invariant 0 <= i <= |strategies|
      invariant done + Steps(strategies, i, compressedContent, b, apply) == all
      invariant compressedContent == Output(done, content)
      invariant overallPreservation == Product(done)
      invariant methodUsed == Methods(done)
    {
      if b.elapsed(i) >= b.maxTime {
        StepsTimedOut(strategies, i, compressedContent, b, apply);
        assert done + [] == done;
        break;
      }
      var outcome := apply(strategies[i], compressedContent);
      if outcome.None? {
        StepsSkipped(strategies, i, compressedContent, b, apply);
        assert done + Steps(strategies, i + 1, compressedContent, b, apply) == all;
      } else {
        var step := Step(strategies[i], outcome.value.0, outcome.value.1);
        var stop := b.originalSize > 0 && Reached(|step.content|, b);
        StepsApplied(strategies, i, compressedContent, b, apply, step, stop);
        SnocStep(done, step, content, overallPreservation);
        ghost var rest := if stop then [] else Steps(strategies, i + 1, step.content, b, apply);
        Advance(done, step, rest, Steps(strategies, i, compressedContent, b, apply), all);
        done := done + [step];
        compressedContent := step.content;
        overallPreservation := Scale(overallPreservation, step.score);
        methodUsed := methodUsed + [step.strategy];
        if stop {
          assert done + [] == done;
          break;
        }
        assert done + Steps(strategies, i + 1, compressedContent, b, apply) == all;
      }
      i := i + 1;
      assert done + Steps(strategies, i, compressedContent, b, apply) == all;
    }
    if i == |strategies| {
      StepsTimedOut(strategies, i, compressedContent, b, apply);
      assert done + [] == done;
    }
  }

  // ---------------------------------------------------------------------------
  // loop bookkeeping

  lemma StepsTimedOut(strategies: seq<Strategy>, i: nat, current: string, b: Budget, apply: Transform)
    requires i <= |strategies|
    requires i == |strategies| || b.elapsed(i) >= b.maxTime
    ensures Steps(strategies, i, current, b, apply) == []
  {
  }

  lemma StepsSkipped(strategies: seq<Strategy>, i: nat, current: string, b: Budget, apply: Transform)
    requires i < |strategies| && b.elapsed(i) < b.maxTime
    requires apply(strategies[i], current).None?
    ensures Steps(strategies, i, current, b, apply) == Steps(strategies, i + 1, current, b, apply)
  {
  }

  lemma StepsApplied(strategies: seq<Strategy>, i: nat, current: string, b: Budget, apply: Transform, step: Step, stop: bool)
    requires i < |strategies| && b.elapsed(i) < b.maxTime
    requires apply(strategies[i], current) == Some((step.content, step.score))
    requires step.strategy == strategies[i]
    requires stop == (b.originalSize > 0 && Reached(|step.content|, b))
    ensures Steps(strategies, i, current, b, apply) ==
      [step] + (if stop then [] else Steps(strategies, i + 1, step.content, b, apply))
  {
  }

  /** Moving the next step from the pending run to the done prefix. */
  lemma Advance(done: seq<Step>, step: Step, rest: seq<Step>, pending: seq<Step>, all: seq<Step>)
    requires done + pending == all
    requires pending == [step] + rest
    ensures (done + [step]) + rest == all
  {
    assert done + ([step] + rest) == (done + [step]) + rest;
  }

  lemma SnocStep(done: seq<Step>, step: Step, content: string, preservation: real)
    requires preservation == Product(done)
    ensures Product(done + [step]) == Scale(preservation, step.score)
    ensures Methods(done + [step]) == Methods(done) + [step.strategy]
    ensures Output(done + [step], content) == step.content
  {
    assert (done + [step])[..|done|] == done;
  }

  // ---------------------------------------------------------------------------
  // properties

  /** The text each step was applied to: the input for the first step, the
      previous step's output after that. */
  function Before(steps: seq<Step>, k: nat, current: string): string
    requires k < |steps|
  {
    if k == 0 then current else steps[k - 1].content
  }

  /** Each step is its strategy run on the text the previous step left. */
  predicate Chained(steps: seq<Step>, current: string, apply: Transform) {
    forall k :: 0 <= k < |steps| ==>
      apply(steps[k].strategy, Before(steps, k, current)) == Some((steps[k].content, steps[k].score))
  }

  /** Each applied step is its strategy run on the text the previous step
      left. */
  lemma {:induction false} StepsChain(strategies: seq<Strategy>, i: nat, current: string, b: Budget, apply: Transform)
    requires i <= |strategies|
    ensures Chained(Steps(strategies, i, current, b, apply), current, apply)
    decreases |strategies| - i
  {
    if i < |strategies| && b.elapsed(i) < b.maxTime {
      StepsChain(strategies, i + 1, current, b, apply);
      match apply(strategies[i], current)
      case None =>
      case Some(out) =>
        StepsChain(strategies, i + 1, out.0, b, apply);
        var steps := Steps(strategies, i, current, b, apply);
        var rest := Steps(strategies, i + 1, out.0, b, apply);
        if !(b.originalSize > 0 && Reached(|out.0|, b)) {
          assert steps == [Step(strategies[i], out.0, out.1)] + rest;
          forall k | 0 < k < |steps|
            ensures apply(steps[k].strategy, Before(steps, k, current)) == Some((steps[k].content, steps[k].score))
          {
            assert steps[k] == rest[k - 1];
            assert Before(steps, k, current) == Before(rest, k - 1, out.0);
          }
        } else {
          assert steps == [Step(strategies[i], out.0, out.1)];
        }
    }
  }

  /** `method_used` keeps the order of the selection and never repeats a
      strategy position. */
  lemma {:induction false} StepsSubsequence(strategies: seq<Strategy>, i: nat, current: string, b: Budget, apply: Transform)
    requires i <= |strategies|
    ensures IsSubsequence(Methods(Steps(strategies, i, current, b, apply)), strategies[i..])
    decreases |strategies| - i
  {
    var steps := Steps(strategies, i, current, b, apply);
    if i == |strategies| || b.elapsed(i) >= b.maxTime {
    } else {
      assert strategies[i..] == [strategies[i]] + strategies[i + 1..];
      match apply(strategies[i], current)
      case None =>
        StepsSubsequence(strategies, i + 1, current, b, apply);
        SubsequenceDropHead(Methods(steps), strategies[i..]);
      case Some(out) =>
        var rest := if b.originalSize > 0 && Reached(|out.0|, b) then [] else Steps(strategies, i + 1, out.0, b, apply);
        assert steps == [Step(strategies[i], out.0, out.1)] + rest;
        assert Methods(steps) == [strategies[i]] + Methods(rest);
        if !(b.originalSize > 0 && Reached(|out.0|, b)) {
          StepsSubsequence(strategies, i + 1, out.0, b, apply);
        }
        SubsequenceCons(strategies[i], Methods(rest), strategies[i + 1..]);
    }
  }

  /** The loop stops right after the first applied strategy that meets the
      target: no step before the last one met it. */
  predicate StopsOnce(steps: seq<Step>, b: Budget)
    requires b.originalSize > 0
  {
    forall k :: 0 <= k < |steps| - 1 ==> !Reached(|steps[k].content|, b)
  }

  lemma {:induction false} StepsEarlyExit(strategies: seq<Strategy>, i: nat, current: string, b: Budget, apply: Transform)
    requires i <= |strategies|
    requires b.originalSize > 0
    ensures StopsOnce(Steps(strategies, i, current, b, apply), b)
    decreases |strategies| - i
  {
    if i < |strategies| && b.elapsed(i) < b.maxTime {
      match apply(strategies[i], current)
      case None =>
        StepsEarlyExit(strategies, i + 1, current, b, apply);
      case Some(out) =>
        if !Reached(|out.0|, b) {
          StepsEarlyExit(strategies, i + 1, out.0, b, apply);
          var steps := Steps(strategies, i, current, b, apply);
          var rest := Steps(strategies, i + 1, out.0, b, apply);
          assert steps == [Step(strategies[i], out.0, out.1)] + rest;
          forall k | 0 < k < |steps| - 1 ensures !Reached(|steps[k].content|, b) {
            assert steps[k] == rest[k - 1];
          }
        } else {
          assert Steps(strategies, i, current, b, apply) == [Step(strategies[i], out.0, out.1)];
        }
    }
  }

  /** With an empty original the reduction check raises after every applied
      strategy, so with no timeout every strategy that does not raise is
      applied. */
  lemma {:induction false} StepsRunAll(strategies: seq<Strategy>, i: nat, current: string, b: Budget, apply: Transform)
    requires i <= |strategies|
    requires b.originalSize == 0
    requires forall j :: i <= j < |strategies| ==> b.elapsed(j) < b.maxTime
    requires forall j, c :: i <= j < |strategies| ==> apply(strategies[j], c).Some?
    ensures Methods(Steps(strategies, i, current, b, apply)) == strategies[i..]
    decreases |strategies| - i
  {
    if i < |strategies| {
      var out := apply(strategies[i], current).value;
      StepsRunAll(strategies, i + 1, out.0, b, apply);
      var rest := Steps(strategies, i + 1, out.0, b, apply);
      assert Steps(strategies, i, current, b, apply) == [Step(strategies[i], out.0, out.1)] + rest;
      assert strategies[i..] == [strategies[i]] + strategies[i + 1..];
    }
  }

  /** With every factor in [0, 1] the running product starts at 1, stays in
      [0, 1] and never grows. */
  lemma {:induction false} ProductBounds(steps: seq<Step>)
    requires forall k :: 0 <= k < |steps| ==> 0.0 <= steps[k].score <= 1.0
    ensures 0.0 <= Product(steps) <= 1.0
    ensures |steps| > 0 ==> Product(steps) <= Product(steps[..|steps| - 1])
    decreases |steps|
  {
    if |steps| > 0 {
      var p := steps[..|steps| - 1];
      var x := steps[|steps| - 1].score;
      assert Product(steps) == Scale(Product(p), x);
      assert forall k :: 0 <= k < |p| ==> p[k] == steps[k];
      ProductBounds(p);
      MulBounds(Product(p), x);
      assert Product(steps) <= Product(p);
    }
  }

  lemma MulBounds(a: real, x: real)
    requires 0.0 <= a <= 1.0 && 0.0 <= x <= 1.0
    ensures 0.0 <= a * x <= a
  {
  }

  /** The reported preservation is the product of the applied strategies'
      scores; when every score lies in [0, 1] so does the product, and each
      applied strategy can only lower it. */
  lemma PreservationBounds(strategies: seq<Strategy>, current: string, b: Budget, apply: Transform)
    requires ScoresInRange(apply)
    ensures var steps := Steps(strategies, 0, current, b, apply);
      0.0 <= Product(steps) <= 1.0 &&
      forall k :: 0 < k <= |steps| ==> Product(steps[..k]) <= Product(steps[..k - 1])
  {
    var steps := Steps(strategies, 0, current, b, apply);
    StepsChain(strategies, 0, current, b, apply);
    forall k | 0 <= k < |steps| ensures 0.0 <= steps[k].score <= 1.0 {
      assert apply(steps[k].strategy, Before(steps, k, current)) == Some((steps[k].content, steps[k].score));
    }
    ProductBounds(steps);
    forall k | 0 < k <= |steps| ensures Product(steps[..k]) <= Product(steps[..k - 1]) {
      var s := steps[..k];
      ProductBounds(s);
      assert s[..|s| - 1] == steps[..k - 1];
    }
  }

  /** The metrics of a run: the sizes, `tokens_saved` as a difference of
      quarter lengths (negative when the text grew by more than three
      characters), the ratio (1.0 for an empty original), and the hash. */
  lemma SummarySpec(content: string, steps: seq<Step>, processingTime: real, contentHash: string)
    ensures var r := Summary(content, steps, processingTime, contentHash);
      r.originalSize == |content| &&
      r.compressedSize == |Output(steps, content)| &&
      r.tokensSaved == |content| / 4 - r.compressedSize / 4 &&
      (r.compressedSize > |content| + 3 ==> r.tokensSaved < 0) &&
      (|content| == 0 ==> r.compressionRatio == 1.0) &&
      (|content| > 0 ==> r.compressionRatio * |content| as real == r.compressedSize as real) &&
      r.preservationScore == Product(steps) &&
      r.processingTime == processingTime &&
      r.contentHash == contentHash
  {
    var out := Output(steps, content);
    var ratio := CompressionRatio(|out|, |content|);
    assert Summary(content, steps, processingTime, contentHash).compressionRatio == ratio;
  }

  /** A fresh `compress_content` run, as a function of its inputs and of
      the strategy dispatch. */
  function Compress(
    content: string, targetReduction: real, maxTime: int, aggressiveMode: bool,
    elapsed: nat -> nat, processingTime: real, contentHash: string, apply: Transform): CompressionResult
  {
    var b := Budget(|content|, targetReduction, maxTime, elapsed);
    Summary(content, Steps(Select(targetReduction, aggressiveMode), 0, content, b, apply), processingTime, contentHash)
  }

  /** A fresh run whose strategies score in [0, 1] reports a preservation in
      [0, 1] and a `method_used` that names, in order and without repeats, a
      subsequence of the selected strategies. */
  lemma CompressSpec(
    content: string, targetReduction: real, maxTime: int, aggressiveMode: bool,
    elapsed: nat -> nat, processingTime: real, contentHash: string, apply: Transform)
    requires ScoresInRange(apply)
    ensures var r := Compress(content, targetReduction, maxTime, aggressiveMode, elapsed, processingTime, contentHash, apply);
      var selected := Select(targetReduction, aggressiveMode);
      var steps := Steps(selected, 0, content, Budget(|content|, targetReduction, maxTime, elapsed), apply);
      0.0 <= r.preservationScore <= 1.0 &&
      r.methodUsed == Join(Names(Methods(steps)), ", ") &&
      IsSubsequence(Methods(steps), selected)
  {
    var selected := Select(targetReduction, aggressiveMode);
    var b := Budget(|content|, targetReduction, maxTime, elapsed);
    PreservationBounds(selected, content, b, apply);
    StepsSubsequence(selected, 0, content, b, apply);
    assert selected[0..] == selected;
  }
}
