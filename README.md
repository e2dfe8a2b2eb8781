# awoc context optimisation: a verified model

This project models two parts of awoc's context-window optimisation tooling in Dafny.

**The semantic compressor** (`scripts/semantic-compressor.py`, class `SemanticCompressor`) covers:
- the choice of compression strategies from the reduction target and the aggressive flag;
- the strategy loop of `compress_content`, which applies the strategies in order to a working copy of the text. It multiplies their preservation scores, records `method_used`, stops early once the target is met, and skips a strategy that raises;
- the six text transforms: whitespace, redundancy, condensation, abstraction, deduplication and aggressive;
- the word-set Jaccard similarity;
- the result cache keyed by content hash, target and mode;
- `analyze_content`.

**The pattern analyser** (`scripts/pattern-analyzer.py`, class `PatternAnalyzer`) covers the discrete decision logic:
- the data-sufficiency gates and the counting in the token-growth, optimisation-effectiveness and task-complexity analyses;
- the summary counts of `save_patterns`;
- the scoring, ranking and top-ten selection of `generate_optimization_report`;
- the effort lookup;
- the three-phase implementation roadmap.

Each source file becomes one or more modules:
- `strategies.dfy`, `pipeline.dfy` and `compressor.dfy`: selection, the loop, and the `SemanticCompressor` class with its cache.
- `whitespace.dfy`, `redundancy.dfy`, `condensation.dfy`, `abstraction.dfy`, `dedup.dfy` and `aggressive.dfy`: the transforms.
- `analysis.dfy`: `analyze_content`.
- `patterns.dfy`, `growth.dfy`, `effectiveness.dfy`, `complexity.dfy`, `report.dfy` and `roadmap.dfy`: the analyser.
- `wordruns.dfy`: whole words, and what deleting single-word alternatives does to them.
- `text.dfy`, `numeric.dfy` and `sorting.dfy`: Python's string operations, the few regular expressions that are modelled exactly, `sum`, means, and the stable `sorted`.

Where the source works step by step, the model does too, as methods with loops:
- the strategy loop;
- the line counting and reference tagging;
- the block deduplication;
- the example filter;
- the per-type tally;
- the grouping;
- the scoring loops of the report.

Each such method is proved equal to a function of its inputs, and the properties are proved about that function. `SemanticCompressor` is a class whose `compressionCache` field `CompressContent` updates.

Things that cannot be computed inside the model are inputs to it:
- the clock (seconds elapsed before each strategy, and the processing time);
- `hashlib.md5`;
- the general regular expressions: the preserve-pattern test, the redundant-pattern rewrite pass, and the function and JSON detectors.

Division by zero, which Python raises as `ZeroDivisionError`, is an `Option` result that is `None`. The pipeline's `try` then skips the strategy.

The ratio is described as lying in (0, 1], but the code does not keep it there:
- It is 0 when the whole text is whitespace.
- It exceeds 1 when a strategy lengthens the text: the abstraction dictionary, or `[REF_n]: ` prefixes on short lines.

`Pipeline.CompressionRatio` states only what the code computes.

Fenced code is described as passing every strategy but the aggressive one and the abstraction verbatim. The condensation does not keep that promise: its phrase table runs over the whole text, fences included (scripts/semantic-compressor.py:249-250). `Condensation.FencedPhraseRewritten` shows "```in order to```" becoming "```to```". The model follows the code.

## Model

| member | source | states |
|---|---|---|
| Strategies.SelectAggressive | scripts/semantic-compressor.py:440-443 | In aggressive mode the selection is always aggressive, deduplication, condensation, whitespace, whatever the target. |
| Strategies.SelectTiers | scripts/semantic-compressor.py:429-439 | Without aggressive mode the selection is a prefix of whitespace, redundancy, condensation, abstraction. It has one strategy exactly when the target is at most 0.10, at most two exactly when it is at most 0.20, at most three exactly when it is at most 0.30, and four otherwise. |
| Strategies.SelectMonotone | scripts/semantic-compressor.py:429-439 | A larger target never selects fewer strategies: each tier's list extends the list of every lower tier. |
| Strategies.SelectDistinct | scripts/semantic-compressor.py:427-443 | No selection names a strategy twice. |
| Strategies.NameInjective | scripts/semantic-compressor.py:58-65 | The six strategy names are pairwise different, so `method_used` identifies the strategies applied. |
| Pipeline.RunStrategies | scripts/semantic-compressor.py:446-479 | The loop's final text, running preservation and method list are those of the step sequence `Steps`. That sequence checks the timeout, skips a raising strategy and stops once the target is met. |
| Pipeline.StepsSubsequence | scripts/semantic-compressor.py:450-470 | `method_used` is an in-order subsequence of the selected strategies. |
| Pipeline.StepsChain | scripts/semantic-compressor.py:455-470 | Each applied strategy ran on the text the previously applied one left. A raising strategy leaves the text unchanged and adds nothing. |
| Pipeline.StepsEarlyExit | scripts/semantic-compressor.py:472-475 | The loop stops right after the first applied strategy whose output meets the reduction target; no earlier applied strategy met it. |
| Pipeline.StepsRunAll | scripts/semantic-compressor.py:469-479 | For an empty original, the reduction check raises after the step is recorded. So with no timeout and no raising strategy, every selected strategy is applied and listed. |
| Pipeline.ProductBounds | scripts/semantic-compressor.py:447-469 | A product of factors in [0, 1] starts at 1, stays in [0, 1] and never grows when a factor is added. |
| Pipeline.PreservationBounds | scripts/semantic-compressor.py:446-479 | When every score lies in [0, 1], `overall_preservation` lies in [0, 1] and does not increase along the applied strategies. |
| Pipeline.CompressionRatio | scripts/semantic-compressor.py:484 | The ratio times the original size is the compressed size. It is exactly 1.0 for an empty original and never negative. |
| Pipeline.SummarySpec | scripts/semantic-compressor.py:482-496 | Sizes are in characters. `tokens_saved` is `original // 4 - compressed // 4`, negative when the output grew by more than three characters. The ratio is as above. The preservation is the product of the applied scores. The time and the hash are carried over. |
| Pipeline.CompressSpec | scripts/semantic-compressor.py:406-496 | For a fresh run, the preservation lies in [0, 1]. `method_used` is the `", "`-joined names of the applied strategies, an in-order subsequence of the selection. |
| Compressor.SemanticCompressor.constructor | scripts/semantic-compressor.py:50-65 | The compressor starts with an empty cache and the given preservation threshold. |
| Compressor.SemanticCompressor.CompressContent | scripts/semantic-compressor.py:415-499 | A key already cached returns the stored result and leaves the cache as it was. Otherwise the result is the fresh run over the six transforms, stored under (hash, target, mode); `max_time` is not part of the key. |
| Compressor.ApplyStrategy | scripts/semantic-compressor.py:455-467 | The `if`/`elif` chain runs the transform the strategy names. |
| Compressor.ApplyRaises | scripts/semantic-compressor.py:455-479 | Only `semantic_condensation` raises, and exactly on empty working text. |
| Compressor.ApplyScore | scripts/semantic-compressor.py:147-404 | The scores are fixed per transform: whitespace 1.0, redundancy 0.99, condensation at least 0.95, abstraction 0.98, deduplication at most 0.99, aggressive 0.90. All lie in [0, 1]. |
| Compressor.DispatchScores | scripts/semantic-compressor.py:455-467 | Every transform the loop dispatches reports a score in [0, 1]. |
| Compressor.EmptyOriginalRunsAll | scripts/semantic-compressor.py:450-479 | For empty content, with no timeout and no condensation selected, `method_used` lists every selected strategy. |
| Whitespace.NormalizeLineEndings | scripts/semantic-compressor.py:153 | The output has no carriage return and no character other than the input's and newlines. |
| Whitespace.NormalizeFixpoint | scripts/semantic-compressor.py:153 | Text without carriage returns is unchanged. |
| Whitespace.CollapseNoBlankRun | scripts/semantic-compressor.py:156 | After the collapse no whitespace run holds three newlines. |
| Whitespace.CollapseFixpoint | scripts/semantic-compressor.py:156 | Text without such a run is unchanged. |
| Whitespace.CollapseIdempotent | scripts/semantic-compressor.py:156 | Collapsing twice gives the same text as collapsing once. |
| Whitespace.StripTrailingLines | scripts/semantic-compressor.py:159 | The lines of the output are the input lines with trailing whitespace removed, as many as before. |
| Whitespace.StripTrailingClean | scripts/semantic-compressor.py:159 | No line of the output ends in whitespace. |
| Whitespace.SqueezeNoTrailingBlank | scripts/semantic-compressor.py:172 | Squeezing the blank runs never puts a blank at the end of a line. |
| Whitespace.PiecesCover | scripts/semantic-compressor.py:162-179 | Fenced blocks, blank runs and single other characters cover the text exactly. |
| Whitespace.PiecesCode | scripts/semantic-compressor.py:165-166 | The fenced pieces are exactly the blocks `re.finditer` finds, in order. |
| Whitespace.SqueezeKeepsFences | scripts/semantic-compressor.py:162-179 | The fourth pass turns each blank run outside the fences into one space and puts every fenced block back verbatim, in its original order. |
| Whitespace.CompressWhitespaceSpec | scripts/semantic-compressor.py:147-184 | The output has no carriage return and no line ending in whitespace, and the score is 1.0. |
| Whitespace.SqueezeIdempotent | scripts/semantic-compressor.py:162-179 | Squeezing the blank runs outside the fences a second time changes nothing. |
| Whitespace.SqueezeSkeleton | scripts/semantic-compressor.py:162-179 | The fourth pass keeps every character other than spaces and tabs, newlines included, in order. |
| Whitespace.NoBlankRunSkeleton | scripts/semantic-compressor.py:156 | No whitespace run holds three newlines exactly when, ignoring the other whitespace, no three newlines follow each other. |
| Whitespace.StripTrailingFixpoint | scripts/semantic-compressor.py:159 | Text whose lines end in no whitespace passes the third pass unchanged. |
| Whitespace.CompressWhitespaceIdempotent | scripts/semantic-compressor.py:147-184 | Running the whitespace transform on its own output returns that output unchanged. |
| Whitespace.CompressWhitespaceStages | scripts/semantic-compressor.py:153-179 | After the collapse no run of three newlines remains, and the fenced blocks of the trimmed text reappear verbatim and in order in the result. |
| Redundancy.EliminateRedundancy | scripts/semantic-compressor.py:186-225 | The result is the redundant-pattern pass applied to the tagged lines joined by newlines, with score 0.99. |
| Redundancy.LineFrequencies | scripts/semantic-compressor.py:195-198 | The map holds, for each non-blank stripped line and nothing else, its number of occurrences. |
| Redundancy.TagRepeatedLines | scripts/semantic-compressor.py:201-216 | The emitted lines are the tagged lines `TagLines`. |
| Redundancy.TagLine | scripts/semantic-compressor.py:205-216 | One iteration emits the tagged line and moves the reference map and counter to their state after that line. |
| Redundancy.NumberingAgrees | scripts/semantic-compressor.py:202-212 | The reference map gives every repeated text seen so far its number in order of first appearance. The counter is one past the numbers handed out. |
| Redundancy.TagLinesSpec | scripts/semantic-compressor.py:204-216 | A line whose stripped text is blank or occurs at most twice is kept. For a repeated text, the first occurrence becomes `[REF_n]: ` plus the line, and every later one becomes its indentation plus `[REF_n]`, with the same `n`. |
| Redundancy.TagLinesNoRepeats | scripts/semantic-compressor.py:204-216 | Content in which no line text occurs more than twice passes the tagging unchanged. |
| Redundancy.RefNumberInjective | scripts/semantic-compressor.py:209-212 | Different repeated texts get different reference numbers. |
| Redundancy.RefNumberRange | scripts/semantic-compressor.py:209-212 | Reference numbers run from 1 to the number of repeated texts. |
| Condensation.SemanticCondensation | scripts/semantic-compressor.py:227-276 | The result is the phrase table followed by the per-line filler removal, or `None` on empty content. |
| Condensation.CondensePhrases | scripts/semantic-compressor.py:249-250 | The phrase loop applies the ten rules in table order. The text changes exactly when one of the table's phrases occurs in it as whole words, and it never grows. |
| Condensation.PhraseCondensedChanges | scripts/semantic-compressor.py:234-250 | The phrase table leaves the text unchanged exactly when none of its phrases occurs in it as whole words, in any letter case. |
| Condensation.ApplyRulesFree | scripts/semantic-compressor.py:249-250 | Text holding none of the rules' phrases passes the rules unchanged. |
| Condensation.ApplyRulesShortens | scripts/semantic-compressor.py:249-250 | With every phrase longer than its replacement, text holding one of the phrases comes out strictly shorter. |
| Condensation.PhraseRulesStrict | scripts/semantic-compressor.py:234-245 | Every verbose phrase of the table is strictly longer than its replacement. |
| Condensation.FencedPhraseRewritten | scripts/semantic-compressor.py:249-250 | The table also rewrites inside fenced code: "```in order to```" becomes "```to```". |
| Condensation.RewriteAll | scripts/semantic-compressor.py:249-250 | Each rule rewrites the whole text in turn; with shrinking rules the text never grows. |
| Condensation.PhraseRulesShrinking | scripts/semantic-compressor.py:234-245 | Every verbose phrase is non-empty and no shorter than its replacement. |
| Condensation.RemoveFillers | scripts/semantic-compressor.py:256-268 | The line loop replaces each line by its cleaned form. |
| Condensation.StripFillers | scripts/semantic-compressor.py:265-266 | A prose line loses its filler words, then its whitespace runs become single spaces. Its words are exactly the line's words other than the fillers, and no filler word is left in it. |
| Condensation.UnfilledWords | scripts/semantic-compressor.py:253-265 | Deleting the fillers keeps exactly the line's words that are not fillers. |
| Condensation.UnfilledNoFiller | scripts/semantic-compressor.py:253-265 | After the deletion no filler word occurs: deleting one never joins two pieces into a new filler. |
| Condensation.SqueezeKeepsWords | scripts/semantic-compressor.py:266 | Squeezing the whitespace keeps the words of the line. |
| WordRuns.DeleteWordsFrom | scripts/semantic-compressor.py:265 | Deleting single-word alternatives removes exactly those words, in any letter case, and keeps every other word of the text. |
| WordRuns.NoWordNoMatch | scripts/semantic-compressor.py:265 | Text none of whose words is an alternative holds no match of them. |
| Condensation.SqueezeSpaces | scripts/semantic-compressor.py:266 | After the squeeze the only whitespace is single spaces, none next to another, and the text is no longer. |
| Condensation.CleanLineSpec | scripts/semantic-compressor.py:259-268 | A technical line or a list item is kept verbatim. Any other line has no two whitespace characters in a row. |
| Condensation.CondenseLines | scripts/semantic-compressor.py:256-270 | The output has as many lines as the condensed text. Protected lines are unchanged, and prose lines have single spaces only. |
| Condensation.CondensationScore | scripts/semantic-compressor.py:273-274 | The score is at least 0.95, and at most 1 when the text did not grow. |
| Condensation.CondenseScore | scripts/semantic-compressor.py:273-274 | The transform raises exactly on empty content. Otherwise its score lies in [0.95, 1]. |
| Condensation.CondenseShrinks | scripts/semantic-compressor.py:234-270 | The output is never longer than the input. |
| Abstraction.PatternAbstraction | scripts/semantic-compressor.py:278-311 | The result is the detected matches replaced by their tags, followed by the dictionary when anything was abstracted, with score 0.98. |
| Abstraction.SelectLarge | scripts/semantic-compressor.py:286-289 | The loop keeps the matches longer than the bound, tagged by their index. |
| Abstraction.SelectedSpec | scripts/semantic-compressor.py:286-296 | An abstraction is made exactly for each match longer than the bound, tagged with that match's index among all matches. |
| Abstraction.AbstractionsLong | scripts/semantic-compressor.py:285-296 | Every abstracted pattern is longer than 200 characters and so non-empty. |
| Abstraction.ApplyAbstractions | scripts/semantic-compressor.py:299-301 | The replacement loop applies the abstractions in order, each to the whole text. |
| Abstraction.ReplaceAllLength | scripts/semantic-compressor.py:301 | `str.replace` changes the length by the number of occurrences times the length difference. |
| Abstraction.ReplaceAllAbsent | scripts/semantic-compressor.py:301 | Text without the pattern is unchanged by `str.replace`. |
| Abstraction.BuildDictionary | scripts/semantic-compressor.py:304-308 | The dictionary is the header followed by one line per abstraction. |
| Abstraction.EntriesTruncated | scripts/semantic-compressor.py:307 | Every dictionary line shows the tag, the first 100 characters and `...`: no abstracted pattern is short enough to be shown whole. |
| Abstraction.AbstractSpec | scripts/semantic-compressor.py:298-310 | With no abstraction the content is returned unchanged. Otherwise the result is the replaced text followed by the dictionary. The score is 0.98 either way. |
| Dedup.Jaccard | scripts/semantic-compressor.py:353-359 | The index lies in [0, 1] and is 0 when either set is empty. |
| Dedup.Similarity | scripts/semantic-compressor.py:346-359 | The similarity lies in [0, 1] and is 0 when either text has no words. |
| Dedup.SimilaritySymmetric | scripts/semantic-compressor.py:346-359 | The similarity is symmetric. |
| Dedup.SimilaritySameWords | scripts/semantic-compressor.py:346-359 | Texts with the same non-empty word set have similarity 1. |
| Dedup.ContextDeduplication | scripts/semantic-compressor.py:313-344 | The result is the kept blocks joined by a blank line, with the block-count score. |
| Dedup.HasSimilar | scripts/semantic-compressor.py:327-332 | The inner loop reports a duplicate exactly when some kept block is more than 0.8 similar. |
| Dedup.DedupScore | scripts/semantic-compressor.py:340-342 | The score lies in [0, 0.99] and is 0.99 when there are no blocks. |
| Dedup.KeepUniqueDissimilar | scripts/semantic-compressor.py:321-335 | No kept block is more than 0.8 similar to a block kept before it. |
| Dedup.KeepUniqueCovers | scripts/semantic-compressor.py:321-335 | Every dropped non-empty block is more than 0.8 similar to a kept block, and blocks already kept stay kept, in front. |
| Dedup.KeepUniqueOrder | scripts/semantic-compressor.py:321-335 | The kept blocks are stripped input blocks, in input order. |
| Dedup.FirstBlockKept | scripts/semantic-compressor.py:321-335 | The first non-empty block is always kept, and kept first. |
| Dedup.DeduplicateSpec | scripts/semantic-compressor.py:313-342 | The output joins kept blocks that are pairwise dissimilar, stripped, in input order, no more than the blocks. Every non-empty block is kept or similar to a kept one. |
| Aggressive.AggressiveCompression | scripts/semantic-compressor.py:361-404 | The result is the comment passes, the example filter and the abbreviation table in order, with score 0.90. |
| Aggressive.LineCommentsGone | scripts/semantic-compressor.py:365-366 | After a line-comment pass, every comment marker left is on the last line: every comment a newline follows is gone. |
| Aggressive.NoNewlineKept | scripts/semantic-compressor.py:365-366 | Text without a newline passes a line-comment pass unchanged. |
| Aggressive.StripBlockComments | scripts/semantic-compressor.py:367 | Removing block comments never lengthens the text. |
| Aggressive.FilterExamples | scripts/semantic-compressor.py:370-384 | The counting loop keeps the lines `KeepExamples` keeps. |
| Aggressive.KeepExamplesSpec | scripts/semantic-compressor.py:374-382 | Every line without an example phrase is kept in order. Of the example lines, exactly the first two are kept. |
| Aggressive.KeepExamplesSubsequence | scripts/semantic-compressor.py:370-384 | The kept lines are input lines in input order. |
| Aggressive.AbbreviationsShrinking | scripts/semantic-compressor.py:387-398 | Every abbreviated word is non-empty and no shorter than its abbreviation. |
| Aggressive.AggressiveShrinks | scripts/semantic-compressor.py:361-404 | The output is never longer than the input, and the score is 0.90. |
| Analysis.AnalyzeContent | scripts/semantic-compressor.py:86-145 | The analysis is `Analyze` of the content and the redundant-pattern matches. |
| Analysis.CountLines | scripts/semantic-compressor.py:103-108 | The dictionary holds the count of every stripped line longer than 20 characters, and nothing else. Its keys are in order of first occurrence. |
| Analysis.CountLine | scripts/semantic-compressor.py:106-108 | One update raises the line's count by one and adds the key the first time. |
| Analysis.RepetitiveSections | scripts/semantic-compressor.py:110-117 | The loop over the items builds the repeated-line sections in key order. |
| Analysis.LargeBlockSections | scripts/semantic-compressor.py:120-128 | The loop over the fenced blocks builds the large-block sections. |
| Analysis.DistinctMembers | scripts/semantic-compressor.py:104-108 | The dictionary's keys are exactly the counted lines. |
| Analysis.DistinctUnique | scripts/semantic-compressor.py:104-108 | No key appears twice. |
| Analysis.RepetitiveSectionsSpec | scripts/semantic-compressor.py:103-117 | There is a section (line, n, savings) exactly when the line is a stripped line longer than 20 characters occurring n > 2 times, and savings = length × (n − 1). |
| Analysis.RepetitiveSectionsUnique | scripts/semantic-compressor.py:110-117 | No line is reported twice. |
| Analysis.LargeBlockSectionsSpec | scripts/semantic-compressor.py:120-128 | There is a large-block section exactly for each fenced block longer than 1000 characters: its first 100 characters and `...`, its size, and a fifth of the size as savings. |
| Analysis.Density | scripts/semantic-compressor.py:131-132 | The density lies in [0, 1] and is 0 for empty content. |
| Analysis.Potential | scripts/semantic-compressor.py:135-137 | The potential is at most 0.5, non-negative when the savings are, and 0 for empty content. |
| Analysis.AnalyzeBounds | scripts/semantic-compressor.py:86-145 | The token estimate is `len // 4`. The density lies in [0, 1] and the potential in [0, 0.5]; both are 0 for empty content. |
| Patterns.Summarize | scripts/pattern-analyzer.py:494-515 | The summary counts all patterns, those above 0.85, and the total length of their recommendation lists. |
| Patterns.ConfidentSpec | scripts/pattern-analyzer.py:512-513 | A pattern is counted exactly when its confidence is above the threshold, in order. |
| Patterns.ConfidentMonotone | scripts/pattern-analyzer.py:512-513 | A higher threshold never counts more patterns. |
| Patterns.AllRecommendationsSpec | scripts/pattern-analyzer.py:515 | A recommendation is counted exactly when some pattern makes it. |
| Growth.AnalyzeGrowth | scripts/pattern-analyzer.py:83-188 | The pattern is `GrowthOf` the session log. |
| Growth.Kinematics | scripts/pattern-analyzer.py:122-140 | The fallback gives the mean velocity and the mean change of velocity. |
| Growth.VelocityLoop | scripts/pattern-analyzer.py:124-129 | There is one velocity per consecutive pair of points a positive time apart. |
| Growth.AccelerationLoop | scripts/pattern-analyzer.py:134-137 | The acceleration values are the consecutive velocity differences. |
| Growth.SeriesSpec | scripts/pattern-analyzer.py:97-98 | The series is the last 50 records' points, each once, in time order. |
| Growth.CurrentIsLatest | scripts/pattern-analyzer.py:96-144 | The current token count is that of the last record of the window with the greatest timestamp: no record of the window has a later timestamp, and every record after it has an earlier one. |
| Growth.AccelerationSpec | scripts/pattern-analyzer.py:133-138 | The mean acceleration telescopes to (last velocity − first) / (count − 1). |
| Growth.GrowthConfidence | scripts/pattern-analyzer.py:86-183 | Fewer than five records give the insufficient-data pattern. Otherwise the confidence lies in [0.75, 0.90], and it never exceeds 0.95. |
| Growth.GrowthWindow | scripts/pattern-analyzer.py:97 | Only the last 50 records matter. |
| Growth.ClassifyVelocity | scripts/pattern-analyzer.py:156-160 | The budgeting and agent-reduction recommendations come exactly with a velocity above 500. |
| Growth.ClassifyAcceleration | scripts/pattern-analyzer.py:163-167 | The handoff-preparation and predictive recommendations come exactly with an acceleration above 50. |
| Growth.ClassifyTokens | scripts/pattern-analyzer.py:170-179 | Compression and sharing come exactly above 150000 tokens. Handoff optimisation comes exactly with a velocity above 100 and more than 100000 tokens. |
| Growth.OptimizationPotentialBounds | scripts/pattern-analyzer.py:174 | The predicted potential lies in (0, 0.4] and is 0.4 from 320000 tokens on. |
| Effectiveness.TallyEvents | scripts/pattern-analyzer.py:207-230 | The types are in first-seen order, and each type's counters are its tally over the last 20 events. |
| Effectiveness.TypesSpec | scripts/pattern-analyzer.py:207-215 | The type list holds each type of the events, once. |
| Effectiveness.TallyCounts | scripts/pattern-analyzer.py:225-228 | The attempts are the events of the type and the successes those that succeeded; successes never exceed attempts. |
| Effectiveness.TallySums | scripts/pattern-analyzer.py:227-230 | Tokens and time add up over the successful events only. |
| Effectiveness.ComputeMetrics | scripts/pattern-analyzer.py:233-239 | The metrics loop raises exactly when some type's efficiency divides by zero. |
| Effectiveness.RaisesSpec | scripts/pattern-analyzer.py:237-239 | The efficiency divides by zero exactly when a type has successes whose total time is minus their number, so that the average time plus one is 0. |
| Effectiveness.UnderperformingSpec | scripts/pattern-analyzer.py:265 | A success rate below one half means fewer than half the attempts succeeded. |
| Effectiveness.PrioritizeBest | scripts/pattern-analyzer.py:244-261 | The ranking yields the prioritize recommendation and the `recommended_optimization` record of the best type. |
| Effectiveness.PrioritizedSpec | scripts/pattern-analyzer.py:244-258 | The recommended type is tallied, succeeds more than 70% of the time, scores above 100, and no type scores higher. |
| Effectiveness.AvoidList | scripts/pattern-analyzer.py:263-266 | The loop appends `avoid_<type>` for each underperforming type, in type order. |
| Effectiveness.AnalyzeEffectiveness | scripts/pattern-analyzer.py:190-283 | The pattern is `EffectivenessOf` the session log. |
| Effectiveness.EffectivenessConfidenceSpec | scripts/pattern-analyzer.py:194-268 | Fewer than three optimisation events give the insufficient-data pattern. Otherwise the confidence starts at 0.66 and stops at 0.85, which it reaches from 13 events on. |
| Effectiveness.EffectivenessAvoid | scripts/pattern-analyzer.py:263-266 | A type is to be avoided exactly when it failed at least half of more than two attempts among the last 20 events. |
| Effectiveness.EffectivenessBest | scripts/pattern-analyzer.py:244-258 | A prioritised type is the most efficient of the last 20 events, succeeds more than 70% of the time and scores above 100. |
| Effectiveness.PrioritizingPattern | scripts/pattern-analyzer.py:253-268 | With at least six events and a prioritised type, the pattern is above the medium threshold and its impact is that type's record. |
| Complexity.GroupSessions | scripts/pattern-analyzer.py:413-417 | There are exactly three groups, each holding the sessions with that label in log order. |
| Complexity.GroupSpec | scripts/pattern-analyzer.py:413-417 | A session is in a group exactly when its label (`medium` when missing) is that level. |
| Complexity.GroupPartition | scripts/pattern-analyzer.py:413-417 | The three groups and the dropped sessions partition the log. |
| Complexity.ComputeStats | scripts/pattern-analyzer.py:420-445 | The loop raises exactly when a non-empty group's tokens-per-second divides by zero. Otherwise each non-empty group has its statistics and no other key appears. |
| Complexity.MaxTokensSpec | scripts/pattern-analyzer.py:441 | The largest token count is one of the group's counts and bounds the others. |
| Complexity.ApplyRules | scripts/pattern-analyzer.py:451-465 | The two checks give the rules' recommendations and impact. |
| Complexity.AnalyzeComplexity | scripts/pattern-analyzer.py:409-482 | The pattern is `ComplexityOf` the session log. |
| Complexity.ComplexityConfidenceSpec | scripts/pattern-analyzer.py:467 | The confidence is 0.70 exactly with more than ten sessions, and 0.50 otherwise. |
| Complexity.ComplexityRecommendations | scripts/pattern-analyzer.py:451-465 | Each rule brings its recommendations exactly when its condition holds. The predicted saving is 30% of the simple tasks' average. |
| Complexity.SmallComplexTasks | scripts/pattern-analyzer.py:460-465 | Without a complex session over 150000 tokens, breaking tasks down is never recommended. |
| Report.GenerateReport | scripts/pattern-analyzer.py:524-596 | The report is `ReportOf` the patterns. |
| Report.ScorePatterns | scripts/pattern-analyzer.py:543-553 | It counts the patterns above 0.70 and collects their recommendations. The priority dictionary is the in-order fold of their scores. |
| Report.ScoreOne | scripts/pattern-analyzer.py:543-553 | One pattern of the outer loop keeps the loop's state in step with its first patterns. |
| Report.ScorePattern | scripts/pattern-analyzer.py:547-553 | The inner loop assigns the pattern's score to each of its recommendations. |
| Report.FoldPairs | scripts/pattern-analyzer.py:547-553 | After a confident pattern its recommendations carry its score, and every other key keeps its score. |
| Report.ScoredSpec | scripts/pattern-analyzer.py:543-553 | A recommendation has a score exactly when a confident pattern makes it. The score is that of the last such pattern. |
| Report.LastPrioritySpec | scripts/pattern-analyzer.py:543-553 | The kept score is that of the last confident pattern recommending it. |
| Report.LastPriorityNone | scripts/pattern-analyzer.py:543-553 | No score is kept exactly when no confident pattern makes the recommendation. |
| Report.RankedMembers | scripts/pattern-analyzer.py:558-559 | The ranked items are exactly the dictionary's items. |
| Report.RankedOrder | scripts/pattern-analyzer.py:558-559 | The ranked items come best score first. |
| Report.RankedDistinct | scripts/pattern-analyzer.py:558-559 | No recommendation is ranked twice. |
| Report.TopSelection | scripts/pattern-analyzer.py:558-562 | A recommendation left out of the top ten scores no higher than any kept one. |
| Report.PrioritizeTop | scripts/pattern-analyzer.py:562-572 | Each listed entry carries its recommendation, score and effort estimate. |
| Report.ReportRecs | scripts/pattern-analyzer.py:558-572 | The list is the ten best ranked items with their estimates. |
| Report.ReportCounts | scripts/pattern-analyzer.py:527-594 | The report counts all patterns, those above 0.70 and their recommendations, and builds the roadmap from its list. |
| Report.ReportOrder | scripts/pattern-analyzer.py:558-572 | At most ten recommendations are listed, best score first, none twice. |
| Report.ReportEntries | scripts/pattern-analyzer.py:562-572 | Each listed recommendation has the score of the last confident pattern making it, and its effort estimate. |
| Report.ReportSelection | scripts/pattern-analyzer.py:558-572 | A confident recommendation left off the list scores no higher than any listed one. |
| Report.ImpactSumAgrees | scripts/pattern-analyzer.py:551 | The sum as written succeeds exactly when every impact value is a number, and then it equals the impact score the report uses. |
| Report.RecordRaises | scripts/pattern-analyzer.py:551 | A confident pattern with a recommendation and a record as its impact makes the sum as written raise. |
| Report.EffectivenessReportRaises | scripts/pattern-analyzer.py:551 | An effectiveness pattern over six or more events that prioritises a type makes the report as written raise. The modelled report scores it at its confidence. |
| Roadmap.EstimateFirstMatch | scripts/pattern-analyzer.py:612-615 | The estimate is that of the first table entry, in table order, whose key occurs in the recommendation. |
| Roadmap.EstimateDefault | scripts/pattern-analyzer.py:612-618 | The default (30, 20000, 0.6) is returned exactly when no key occurs in the recommendation. |
| Roadmap.EstimateTimes | scripts/pattern-analyzer.py:601-618 | Every estimate takes 20 to 60 minutes, and only `handoff_optimization` reaches 60. |
| Roadmap.TableAvoidsDefault | scripts/pattern-analyzer.py:601-618 | No table entry equals the default estimate. |
| Roadmap.BucketSpec | scripts/pattern-analyzer.py:625-645 | A bucket holds exactly the recommendations in its time range, in input order. |
| Roadmap.PhaseForSpec | scripts/pattern-analyzer.py:624-653 | An emitted phase has its title and one to its limit (3, 3 or 2) of recommendations from its time range, in input order. |
| Roadmap.RoadmapPhases | scripts/pattern-analyzer.py:620-655 | There are at most three phases. Each has one to its limit of input recommendations, all in its time range, in input order. |
| Roadmap.RoadmapOrder | scripts/pattern-analyzer.py:620-655 | The phases come in the order quick wins, core, advanced. |
| Roadmap.RoadmapDisjoint | scripts/pattern-analyzer.py:620-655 | No recommendation is in two phases. |
| Roadmap.RoadmapEmitted | scripts/pattern-analyzer.py:620-655 | A phase is emitted exactly when some recommendation falls in its time range. |
| Roadmap.RoadmapContent | scripts/pattern-analyzer.py:620-655 | An emitted phase takes the first recommendations of its range, up to its limit. |
| Sorting.SortBySpec | scripts/pattern-analyzer.py:558-559 | `sorted(..., reverse=True)` is a stable sort by the negated key: it is ordered by key and a permutation of its input. |
| Sorting.SortByStable | scripts/pattern-analyzer.py:558-559 | The sort is stable: for every key, the items with that key come out in their input order. |
| Sorting.SortByHead | scripts/pattern-analyzer.py:245-251 | The head of the sorted list is the first input item with the best key: every earlier input item has a worse key. |
| Sorting.SortByLast | scripts/pattern-analyzer.py:96-97 | The last item of the sorted list is the last input item with the greatest key: every later input item has a smaller key. |

## Findings

| source | as written | input that shows it | evidently intended | confidence | as-written member | corrected member |
|---|---|---|---|---|---|---|
| scripts/pattern-analyzer.py:551 | `sum(pattern.predicted_impact.values())` adds every impact value. The effectiveness analysis stores a dict under `recommended_optimization` (lines 256-261), and adding it raises `TypeError`. `main` catches it (lines 713-716), so the `report` action prints an error and exits with status 1. | A session log with six `optimization` events of one type, each successful, saving 1000 tokens in 1 second (efficiency 500). The type is prioritised, the pattern's confidence is 0.72 > 0.70, and `generate_optimization_report` raises, so the `report` action fails with exit status 1. | `predicted_impact` is declared `Dict[str, float]` (line 40); the score should sum the numeric values only. | not executed | Report.EffectivenessReportRaises | Report.ImpactSumAgrees |

`Report.ImpactSumAsWritten` is the sum as written. The report uses `Report.ImpactScore`, which sums the numbers and skips the record. `Report.ImpactSumAgrees` proves that the two agree wherever the sum as written does not raise.

## Left out

- Whitespace.SqueezeKeepsFences: each fenced block is put back where it was cut out. The source puts blocks back by replacing the first `<<<CODE_BLOCK>>>` text still present (line 177), so content that already holds that literal gets its blocks moved. That case is not modelled.
- Abstraction.PatternAbstraction: the function and JSON matches are inputs. With the source's regular expression, `re.findall` returns only the captured function name (line 285), so the 200-character test at line 287 is applied to names. The model takes whatever the detector returns.
- Report.PrioritizeTop: stores the unrounded priority score. The source rounds it to three decimals (line 567), so `Report.ReportEntries` and `Report.ReportOrder` speak of the unrounded score.
- `predicted_savings` of the report (scripts/pattern-analyzer.py:574-589): the totals and the formatted `efficiency_improvement` string are not modelled.
- Floating point: every float is a Dafny `real`. Rounding, the numpy path (scripts/pattern-analyzer.py:109-121, 429-432) and the `1e-6` guard are not modelled; the pure-Python fallback is.
- The characteristics dictionaries and timestamps of the patterns, and the timestamp of the report, are not modelled.
- The agent-coordination analysis and `detect_context_usage_patterns` of the analyser are not part of this model.
- The analysis result computed at scripts/semantic-compressor.py:424 is not used by `compress_content`, so the model does not compute it there.
- The preservation threshold is stored but never consulted by the source, so it only appears in the constructor.
- Clocks: `datetime.now()` is an input function giving the whole seconds elapsed before each strategy, plus the final processing time.
- `hashlib.md5` is an input function.
- Regular expressions with backreferences or lookahead are inputs:
  - the preserve-pattern test of a line;
  - the redundant-pattern rewrite pass (scripts/semantic-compressor.py:221-222) and its `findall` in `analyze_content`;
  - the function and JSON detectors.

  The phrase tables, the filler and example alternations, the comment patterns, the code-fence pattern, the blank-line collapse and the block split are modelled exactly.
- Characters: `\w` is ASCII letters, digits and `_`, and lower-casing is ASCII only; Unicode case folding and non-ASCII word characters are not modelled. `\s` is the set `str.isspace` accepts.
- I/O: `main`, argument parsing, file and stdin reading, JSON output, directory creation, logging, `set_resource_limits`, `timeout_handler` and the signal alarm are left out.
