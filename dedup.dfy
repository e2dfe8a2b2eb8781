/** The `context_deduplication` strategy and the word-set Jaccard similarity
    (`calculate_similarity`) it relies on. */
module Dedup {
  import opened Text

  /** Two blocks count as duplicates when their similarity exceeds this. */
  const SimilarityThreshold: real := 0.8

  /** Ceiling of the score `context_deduplication` reports. */
  const MaxDedupScore: real := 0.99

  function Jaccard(w1: set<string>, w2: set<string>): (r: real)
    ensures 0.0 <= r <= 1.0
    ensures |w1| == 0 || |w2| == 0 ==> r == 0.0
  {
    if w1 == {} || w2 == {} then 0.0
    else
      assert w1 * w2 <= w1 + w2;
      SubsetCardinality(w1 * w2, w1 + w2);
      (|w1 * w2| as real) / (|w1 + w2| as real)
  }

  /** `calculate_similarity`: Jaccard index of the two lower-cased word sets,
      0 when either set is empty. */
  function Similarity(text1: string, text2: string): (r: real)
    ensures 0.0 <= r <= 1.0
    ensures |Words(text1)| == 0 || |Words(text2)| == 0 ==> r == 0.0
  {
    Jaccard(Words(text1), Words(text2))
  }

  lemma SimilaritySymmetric(text1: string, text2: string)
    ensures Similarity(text1, text2) == Similarity(text2, text1)
  {
    assert Words(text1) * Words(text2) == Words(text2) * Words(text1);
    assert Words(text1) + Words(text2) == Words(text2) + Words(text1);
  }

  lemma JaccardSelf(w: set<string>)
    requires |w| > 0
    ensures Jaccard(w, w) == 1.0
  {
    assert w * w == w && w + w == w;
    assert |w| > 0;
  }

  /** Identical non-empty word sets have similarity 1. */
  lemma SimilaritySameWords(text1: string, text2: string)
    requires Words(text1) == Words(text2) && |Words(text1)| > 0
    ensures Similarity(text1, text2) == 1.0
  {
    JaccardSelf(Words(text1));
  }

  // ---------------------------------------------------------------------------

  /** `re.split(r'\n\s*\n', content)`: the text between blank-line runs; the
      first and last block may be empty or all whitespace. */
  function SplitBlocks(s: string): (r: seq<string>)
    ensures |r| >= 1
    decreases |s|
  {
    if |s| == 0 then [""]
    else match BlankMatchEnd(s, 2)
      case Some(e) => [""] + SplitBlocks(s[e..])
      case None =>
        var rest := SplitBlocks(s[1..]);
        [[s[0]] + rest[0]] + rest[1..]
  }

  predicate SimilarToKept(block: string, kept: seq<string>) {
    exists k :: 0 <= k < |kept| && Similarity(block, kept[k]) > SimilarityThreshold
  }

  /** The kept blocks after considering one more (already stripped) block. */
  function Admit(b: string, kept: seq<string>): seq<string> {
    if b == "" || SimilarToKept(b, kept) then kept else kept + [b]
  }

  /** The blocks that survive, processing `blocks` in order after `kept`. */
  function KeepUnique(blocks: seq<string>, kept: seq<string>): seq<string>
    decreases |blocks|
  {
    if |blocks| == 0 then kept
    else KeepUnique(blocks[1..], Admit(Strip(blocks[0]), kept))
  }

  lemma KeepUniqueStep(blocks: seq<string>, i: nat, kept: seq<string>)
    requires i < |blocks|
    ensures KeepUnique(blocks[i..], kept) == KeepUnique(blocks[i + 1..], Admit(Strip(blocks[i]), kept))
  {
    assert blocks[i..][1..] == blocks[i + 1..];
  }

  function DedupScore(keptCount: nat, blockCount: nat): (r: real)
    ensures 0.0 <= r <= MaxDedupScore
    ensures blockCount == 0 ==> r == MaxDedupScore
  {
    var ratio := if blockCount > 0 then (keptCount as real) / (blockCount as real) else 1.0;
    if ratio < MaxDedupScore then ratio else MaxDedupScore
  }

  /** `context_deduplication` as a function of its input. */
  function Deduplicate(content: string): (string, real) {
    var blocks := SplitBlocks(content);
    var kept := KeepUnique(blocks, []);
    (Join(kept, "\n\n"), DedupScore(|kept|, |blocks|))
  }

  method ContextDeduplication(content: string) returns (deduplicated: string, score: real)
    ensures (deduplicated, score) == Deduplicate(content)
  {
    var blocks := SplitBlocks(content);
    var uniqueBlocks: seq<string> := [];
    var i := 0;
    assert blocks[0..] == blocks;
    while i < |blocks|
      invariant 0 <= i <= |blocks|
      invariant KeepUnique(blocks[i..], uniqueBlocks) == KeepUnique(blocks, [])
    {
      var block := Strip(blocks[i]);
      KeepUniqueStep(blocks, i, uniqueBlocks);
      if block != "" {
        var isDuplicate := HasSimilar(block, uniqueBlocks);
        if !isDuplicate {
          uniqueBlocks := uniqueBlocks + [block];
        }
      }
      i := i + 1;
    }
    assert blocks[i..] == [];
    deduplicated := Join(uniqueBlocks, "\n\n");
    var originalBlocks := |blocks|;
    var ratio := if originalBlocks > 0 then (|uniqueBlocks| as real) / (originalBlocks as real) else 1.0;
    score := if ratio < MaxDedupScore then ratio else MaxDedupScore;
  }

  method HasSimilar(block: string, kept: seq<string>) returns (isDuplicate: bool)
    ensures isDuplicate == SimilarToKept(block, kept)
  {
    isDuplicate := false;
    var k := 0;
    while k < |kept|
      invariant 0 <= k <= |kept|
      invariant !isDuplicate
      invariant forall j :: 0 <= j < k ==> Similarity(block, kept[j]) <= SimilarityThreshold
    {
      if Similarity(block, kept[k]) > SimilarityThreshold {
        isDuplicate := true;
        return;
      }
      k := k + 1;
    }
  }

  // ---------------------------------------------------------------------------
  // properties of the kept blocks

  /** No kept block is more than 80% similar to a block kept before it. */
  predicate Dissimilar(kept: seq<string>) {
    forall i, j :: 0 <= i < j < |kept| ==> Similarity(kept[j], kept[i]) <= SimilarityThreshold
  }

  /** A block is kept only if it is at most 80% similar to every block kept
      before it. */
  lemma {:induction false} KeepUniqueDissimilar(blocks: seq<string>, kept: seq<string>)
    requires Dissimilar(kept)
    ensures Dissimilar(KeepUnique(blocks, kept))
    decreases |blocks|
  {
    if |blocks| > 0 {
      var b := Strip(blocks[0]);
      if b == "" || SimilarToKept(b, kept) {
        KeepUniqueDissimilar(blocks[1..], kept);
      } else {
        var kept' := kept + [b];
        forall i, j | 0 <= i < j < |kept'| ensures Similarity(kept'[j], kept'[i]) <= SimilarityThreshold {
          if j == |kept| {
            assert kept'[i] == kept[i];
          } else {
            assert kept'[i] == kept[i] && kept'[j] == kept[j];
          }
        }
        KeepUniqueDissimilar(blocks[1..], kept');
      }
    }
  }

  /** Every block that is dropped is empty or more than 80% similar to a
      kept block. */
  lemma {:induction false} KeepUniqueCovers(blocks: seq<string>, kept: seq<string>)
    ensures forall k :: 0 <= k < |blocks| && Strip(blocks[k]) != "" ==>
      Strip(blocks[k]) in KeepUnique(blocks, kept) || SimilarToKept(Strip(blocks[k]), KeepUnique(blocks, kept))
    ensures forall k :: 0 <= k < |kept| ==> kept[k] in KeepUnique(blocks, kept)
    ensures |KeepUnique(blocks, kept)| >= |kept| && KeepUnique(blocks, kept)[..|kept|] == kept
    decreases |blocks|
  {
    if |blocks| > 0 {
      var b := Strip(blocks[0]);
      var kept' := if b == "" || SimilarToKept(b, kept) then kept else kept + [b];
      var result := KeepUnique(blocks, kept);
      assert result == KeepUnique(blocks[1..], kept');
      KeepUniqueCovers(blocks[1..], kept');
      assert result[..|kept|] == result[..|kept'|][..|kept|];
      forall k | 0 <= k < |blocks| && Strip(blocks[k]) != ""
        ensures Strip(blocks[k]) in result || SimilarToKept(Strip(blocks[k]), result)
      {
        if k == 0 {
          if SimilarToKept(b, kept) {
            var j :| 0 <= j < |kept| && Similarity(b, kept[j]) > SimilarityThreshold;
            assert result[j] == kept[j];
          } else {
            assert kept'[|kept|] == b;
            assert result[|kept|] == b;
          }
        } else {
          assert blocks[k] == blocks[1..][k - 1];
        }
      }
    }
  }

  /** The kept blocks are stripped input blocks, in input order. */
  lemma {:induction false} KeepUniqueOrder(blocks: seq<string>, kept: seq<string>, done: seq<string>)
    requires IsSubsequence(kept, done)
    ensures IsSubsequence(KeepUnique(blocks, kept), done + StripAll(blocks))
    decreases |blocks|
  {
    if |blocks| == 0 {
      assert done + StripAll(blocks) == done;
    } else {
      var b := Strip(blocks[0]);
      assert done + StripAll(blocks) == (done + [b]) + StripAll(blocks[1..]);
      if b == "" || SimilarToKept(b, kept) {
        SubsequenceSkip(kept, done, b);
        KeepUniqueOrder(blocks[1..], kept, done + [b]);
      } else {
        SubsequenceExtend(kept, done, b);
        KeepUniqueOrder(blocks[1..], kept + [b], done + [b]);
      }
    }
  }

  /** The first non-empty block is always kept, and kept first. */
  lemma {:induction false} FirstBlockKept(blocks: seq<string>, f: nat)
    requires f < |blocks| && Strip(blocks[f]) != ""
    requires forall k :: 0 <= k < f ==> Strip(blocks[k]) == ""
    ensures |KeepUnique(blocks, [])| > 0 && KeepUnique(blocks, [])[0] == Strip(blocks[f])
    decreases f
  {
    var b := Strip(blocks[0]);
    assert KeepUnique(blocks, []) == KeepUnique(blocks[1..], Admit(b, []));
    if f == 0 {
      assert Admit(b, []) == [b];
      KeepUniqueCovers(blocks[1..], [b]);
      ghost var r := KeepUnique(blocks[1..], [b]);
      assert r[..1] == [b];
      assert r[0] == r[..1][0];
    } else {
      assert Admit(b, []) == [];
      forall k | 0 <= k < f - 1 ensures Strip(blocks[1..][k]) == "" {
        assert blocks[1..][k] == blocks[k + 1];
      }
      FirstBlockKept(blocks[1..], f - 1);
      assert blocks[1..][f - 1] == blocks[f];
    }
  }

  /** The output is the kept blocks joined by one blank line; they are
      pairwise at most 80% similar, appear in input order, and every dropped
      non-empty block is similar to a kept one. */
  lemma DeduplicateSpec(content: string)
    ensures var blocks := SplitBlocks(content);
            var kept := KeepUnique(blocks, []);
            Deduplicate(content).0 == Join(kept, "\n\n") &&
            Dissimilar(kept) &&
            IsSubsequence(kept, StripAll(blocks)) &&
            |kept| <= |blocks| &&
            (forall k :: 0 <= k < |blocks| && Strip(blocks[k]) != "" ==>
               Strip(blocks[k]) in kept || SimilarToKept(Strip(blocks[k]), kept))
  {
    var blocks := SplitBlocks(content);
    KeepUniqueDissimilar(blocks, []);
    KeepUniqueOrder(blocks, [], []);
    assert [] + StripAll(blocks) == StripAll(blocks);
    SubsequenceLength(KeepUnique(blocks, []), StripAll(blocks));
    KeepUniqueCovers(blocks, []);
  }
}
