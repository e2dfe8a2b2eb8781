/** The `semantic_condensation` strategy: verbose phrases are replaced by
    short ones, then filler words are removed from prose lines. */
module Condensation {
  import opened Text
  import opened WordRuns

  /** One `re.sub(r'\b(?:a|b|...)\b', replacement, s, flags=re.IGNORECASE)`. */
  datatype Rule = Rule(alternatives: seq<string>, replacement: string)

  /** The verbose-phrase table, in the order it is applied. */
  const PhraseRules: seq<Rule> := [ToRule, BecauseRule, NowRule, ForRule, RegardingRule,
                                     NoteRule, FromRule, IfRule, UseRule, HelpRule]

  const ToRule := Rule(["in order to", "so as to"], "to")
  const BecauseRule := Rule(["due to the fact that", "because of the fact that"], "because")
  const NowRule := Rule(["at this point in time", "at the present time"], "now")
  const ForRule := Rule(["for the purpose of"], "for")
  const RegardingRule := Rule(["with regard to", "with respect to", "in relation to"], "regarding")
  const NoteRule := Rule(["it should be noted that", "it is important to note that"], "note:")
  const FromRule := Rule(["as a result of"], "from")
  const IfRule := Rule(["in the event that"], "if")
  const UseRule := Rule(["make use of"], "use")
  const HelpRule := Rule(["provide assistance to"], "help")

  /** The filler words removed from prose lines. */
  const Fillers: seq<string> := [
    "actually", "basically", "essentially", "literally", "obviously", "really", "very",
    "quite", "rather", "pretty", "just", "simply", "merely", "only"
  ]

  /** The floor of the preservation score. */
  const MinCondensationScore: real := 0.95

  /** Every alternative is non-empty and no shorter than its replacement. */
  predicate Shrinking(rules: seq<Rule>) {
    forall k :: 0 <= k < |rules| ==> ShrinkingRule(rules[k])
  }

  predicate ShrinkingRule(rule: Rule) {
    NonEmptyAlternatives(rule.alternatives) &&
    forall j :: 0 <= j < |rule.alternatives| ==> |rule.replacement| <= |rule.alternatives[j]|
  }

  lemma PhraseRulesShrinking()
    ensures Shrinking(PhraseRules)
  {
    LongRulesShrinking();
    ShortRulesShrinking();
  }

  lemma LongRulesShrinking()
    ensures ShrinkingRule(ToRule) && ShrinkingRule(BecauseRule) && ShrinkingRule(NowRule)
    ensures ShrinkingRule(RegardingRule) && ShrinkingRule(NoteRule)
  {
  }

  lemma ShortRulesShrinking()
    ensures ShrinkingRule(ForRule) && ShrinkingRule(FromRule) && ShrinkingRule(IfRule)
    ensures ShrinkingRule(UseRule) && ShrinkingRule(HelpRule)
  {
  }

  lemma FillersNonEmpty()
    ensures NonEmptyAlternatives(Fillers)
  {
  }

  /** Every alternative of the rule is strictly longer than its replacement. */
  predicate StrictRule(rule: Rule) {
    forall j :: 0 <= j < |rule.alternatives| ==> |rule.replacement| < |rule.alternatives[j]|
  }

  lemma PhraseRulesStrict()
    ensures forall r :: 0 <= r < |PhraseRules| ==> StrictRule(PhraseRules[r])
  {
    LongRulesStrict();
    ShortRulesStrict();
  }

  lemma LongRulesStrict()
    ensures StrictRule(ToRule) && StrictRule(BecauseRule) && StrictRule(NowRule)
    ensures StrictRule(RegardingRule) && StrictRule(NoteRule)
  {
  }

  lemma ShortRulesStrict()
    ensures StrictRule(ForRule) && StrictRule(FromRule) && StrictRule(IfRule)
    ensures StrictRule(UseRule) && StrictRule(HelpRule)
  {
  }

  /** The filler words are single words. */
  lemma FillersAreWords()
    ensures WordAlternatives(Fillers)
  {
  }

  /** The rules applied one after the other; the text never grows. */
  function ApplyRules(s: string, rules: seq<Rule>): (r: string)
    requires Shrinking(rules)
    ensures |r| <= |s|
    decreases |rules|
  {
    if |rules| == 0 then s
    else
      ReplaceFromShrinks(s, 0, rules[0].alternatives, rules[0].replacement);
      ApplyRules(ReplaceWords(s, rules[0].alternatives, rules[0].replacement), rules[1..])
  }

  /** The text after the verbose-phrase table. */
  function PhraseCondensed(content: string): (r: string)
    ensures |r| <= |content|
  {
    PhraseRulesShrinking();
    ApplyRules(content, PhraseRules)
  }

  /** `re.sub(r'\s+', ' ', s)`: every whitespace run becomes one space. */
  function SqueezeSpaces(s: string): (r: string)
    ensures |r| <= |s|
    ensures |s| > 0 ==> |r| > 0 && (r[0] == ' ' <==> IsSpace(s[0]))
    ensures forall i :: 0 <= i < |r| && IsSpace(r[i]) ==> r[i] == ' '
    ensures forall i :: 0 <= i < |r| - 1 ==> !(r[i] == ' ' && r[i + 1] == ' ')
    decreases |s|
  {
    if |s| == 0 then ""
    else if IsSpace(s[0]) then
      var n := WsRunLen(s);
      var rest := SqueezeSpaces(s[n..]);
      assert |rest| > 0 ==> rest[0] != ' ';
      " " + rest
    else
      var rest := SqueezeSpaces(s[1..]);
      [s[0]] + rest
  }

  /** The stripped line starts like a list item: `*`, `-`, `1.`, `2.` or `3.`. */
  predicate IsListItem(line: string) {
    var t := Strip(line);
    StartsWith(t, "*") || StartsWith(t, "-") || StartsWith(t, "1.") || StartsWith(t, "2.") || StartsWith(t, "3.")
  }

  /** A line is left alone when it is technical (matches a preserve pattern)
      or a list item. */
  predicate Protected(line: string, technical: bool) {
    technical || IsListItem(line)
  }

  /** A prose line loses its filler words and its whitespace runs. */
  function CleanLine(line: string, technical: bool): string {
    if Protected(line, technical) then line else Unfilled(line)
  }

  /** The filler words removed, then the whitespace runs squeezed. */
  function Unfilled(line: string): string {
    FillersNonEmpty();
    SqueezeSpaces(ReplaceWords(line, Fillers, ""))
  }

  function CleanLines(lines: seq<string>, isTechnical: string -> bool): (r: seq<string>)
    ensures |r| == |lines|
  {
    seq(|lines|, k requires 0 <= k < |lines| => CleanLine(lines[k], isTechnical(lines[k])))
  }

  /** `max(0.95, 1.0 - (changes_made / len(original_content)) * 2)`. */
  function CondensationScore(originalSize: nat, newSize: nat): (r: real)
    requires originalSize > 0
    ensures MinCondensationScore <= r
    ensures newSize <= originalSize ==> r <= 1.0
  {
    assert newSize <= originalSize ==> ((originalSize - newSize) as real) / originalSize as real >= 0.0;
    var changes := (originalSize - newSize) as real;
    var s := 1.0 - (changes / originalSize as real) * 2.0;
    if s < MinCondensationScore then MinCondensationScore else s
  }

  /** `semantic_condensation` as a function of its input; `isTechnical` says
      whether a line matches one of the preserve patterns. On empty content
      the score divides by zero, which is `None`. */
  function Condense(content: string, isTechnical: string -> bool): Option<(string, real)> {
    var lines := Split(PhraseCondensed(content), '\n');
    var out := Join(CleanLines(lines, isTechnical), "\n");
    if |content| == 0 then None else Some((out, CondensationScore(|content|, |out|)))
  }

  method SemanticCondensation(content: string, isTechnical: string -> bool) returns (result: Option<(string, real)>)
    ensures result == Condense(content, isTechnical)
  {
    var text := CondensePhrases(content);
    var lines := Split(text, '\n');
    var processedLines := RemoveFillers(lines, isTechnical);
    var out := Join(processedLines, "\n");
    if |content| == 0 {
      return None;
    }
    var changesMade := |content| - |out|;
    var score := 1.0 - (changesMade as real / |content| as real) * 2.0;
    if score < MinCondensationScore {
      score := MinCondensationScore;
    }
    assert score == CondensationScore(|content|, |out|);
    result := Some((out, score));
  }

  /** The verbose-phrase table applied rule by rule. */
  method CondensePhrases(content: string) returns (text: string)
    ensures text == PhraseCondensed(content)
    ensures |text| <= |content|
    ensures text == content <==> RulesFree(content, PhraseRules)
  {
    PhraseRulesShrinking();
    text := RewriteAll(content, PhraseRules);
    PhraseCondensedChanges(content);
  }

  /** The loop over a substitution table: each rule rewrites the whole text. */
  method RewriteAll(content: string, rules: seq<Rule>) returns (text: string)
    requires Shrinking(rules)
    ensures text == ApplyRules(content, rules)
  {
    text := content;
    var r := 0;
    while r < |rules|
      invariant 0 <= r <= |rules|
      invariant ApplyRules(text, rules[r..]) == ApplyRules(content, rules)
    {
      assert rules[r..][1..] == rules[r + 1..];
      text := ReplaceWords(text, rules[r].alternatives, rules[r].replacement);
      r := r + 1;
    }
  }

  /** The per-line filler removal. */
  method RemoveFillers(lines: seq<string>, isTechnical: string -> bool) returns (processedLines: seq<string>)
    ensures processedLines == CleanLines(lines, isTechnical)
  {
    processedLines := [];
    var i := 0;
    while i < |lines|
      invariant 0 <= i <= |lines|
      invariant processedLines == CleanLines(lines[..i], isTechnical)
    {
      var line := lines[i];
      if !isTechnical(line) && !IsListItem(line) {
        line := StripFillers(line);
      }
      CleanLinesSnoc(lines, i, isTechnical);
      processedLines := processedLines + [line];
      i := i + 1;
    }
    assert lines[..i] == lines;
  }

  lemma CleanLinesSnoc(lines: seq<string>, i: nat, isTechnical: string -> bool)
    requires i < |lines|
    ensures CleanLines(lines[..i + 1], isTechnical) ==
      CleanLines(lines[..i], isTechnical) + [CleanLine(lines[i], isTechnical(lines[i]))]
  {
  }

  /** One prose line: the filler words go, then the whitespace runs. */
  method StripFillers(line: string) returns (r: string)
    ensures r == Unfilled(line)
    ensures Words(r) == Words(line) - AltSet(Fillers)
    ensures !SearchFrom(r, 0, Fillers)
  {
    FillersNonEmpty();
    r := ReplaceWords(line, Fillers, "");
    r := SqueezeSpaces(r);
    UnfilledWords(line);
    UnfilledNoFiller(line);
  }

  // ---------------------------------------------------------------------------
  // properties

  /** Joining pieces that are pointwise no longer gives a text no longer. */
  lemma {:induction false} JoinShorter(a: seq<string>, b: seq<string>, sep: string)
    requires |a| == |b|
    requires forall k :: 0 <= k < |a| ==> |a[k]| <= |b[k]|
    ensures |Join(a, sep)| <= |Join(b, sep)|
    decreases |a|
  {
    if |a| > 1 {
      JoinShorter(a[1..], b[1..], sep);
    }
  }

  /** A cleaned line is never longer than the line. */
  lemma CleanLineShorter(line: string, technical: bool)
    ensures |CleanLine(line, technical)| <= |line|
  {
    if !Protected(line, technical) {
      FillersNonEmpty();
      ReplaceFromShrinks(line, 0, Fillers, "");
    }
  }

  /** The output is never longer than the input. */
  lemma CondenseShrinks(content: string, isTechnical: string -> bool)
    requires content != ""
    ensures |Condense(content, isTechnical).value.0| <= |content|
  {
    var phrased := PhraseCondensed(content);
    var lines := Split(phrased, '\n');
    var cleaned := CleanLines(lines, isTechnical);
    forall k | 0 <= k < |lines| ensures |cleaned[k]| <= |lines[k]| {
      CleanLineShorter(lines[k], isTechnical(lines[k]));
    }
    JoinShorter(cleaned, lines, "\n");
    JoinSplit(phrased, '\n');
  }

  /** Empty content raises; otherwise the score lies in [0.95, 1]. */
  lemma CondenseScore(content: string, isTechnical: string -> bool)
    ensures Condense(content, isTechnical).None? <==> content == ""
    ensures Condense(content, isTechnical).Some? ==>
      MinCondensationScore <= Condense(content, isTechnical).value.1 <= 1.0
  {
    if content != "" {
      CondenseShrinks(content, isTechnical);
    }
  }

  /** A cleaned line never holds a newline. */
  lemma CleanLineNoNewline(line: string, technical: bool)
    requires '\n' !in line
    ensures '\n' !in CleanLine(line, technical)
  {
    if !Protected(line, technical) {
      var r := CleanLine(line, technical);
      forall i | 0 <= i < |r| ensures r[i] != '\n' {
        assert IsSpace('\n');
      }
    }
  }

  /** The line structure survives: line `k` of the output is the cleaned line
      `k` of the phrase-condensed text, so a technical or list line comes out
      unchanged, and a prose line has single spaces only. */
  lemma CondenseLines(content: string, isTechnical: string -> bool, k: nat)
    requires content != ""
    requires k < |Split(PhraseCondensed(content), '\n')|
    ensures var lines := Split(PhraseCondensed(content), '\n');
      var outLines := Split(Condense(content, isTechnical).value.0, '\n');
      |outLines| == |lines| &&
      (Protected(lines[k], isTechnical(lines[k])) ==> outLines[k] == lines[k]) &&
      (!Protected(lines[k], isTechnical(lines[k])) ==>
         forall i :: 0 <= i < |outLines[k]| - 1 ==> !(IsSpace(outLines[k][i]) && IsSpace(outLines[k][i + 1])))
  {
    var lines := Split(PhraseCondensed(content), '\n');
    CondenseSplit(content, isTechnical);
    CleanLineSpec(lines[k], isTechnical(lines[k]));
  }

  /** Splitting the output at newlines gives back the cleaned lines. */
  lemma CondenseSplit(content: string, isTechnical: string -> bool)
    requires content != ""
    ensures Split(Condense(content, isTechnical).value.0, '\n') ==
      CleanLines(Split(PhraseCondensed(content), '\n'), isTechnical)
  {
    var lines := Split(PhraseCondensed(content), '\n');
    var cleaned := CleanLines(lines, isTechnical);
    forall j | 0 <= j < |cleaned| ensures '\n' !in cleaned[j] {
      CleanLineNoNewline(lines[j], isTechnical(lines[j]));
    }
    SplitJoin(cleaned, '\n');
  }

  /** A protected line is kept; any other has no two whitespace characters
      in a row. */
  lemma CleanLineSpec(line: string, technical: bool)
    ensures Protected(line, technical) ==> CleanLine(line, technical) == line
    ensures !Protected(line, technical) ==>
      var r := CleanLine(line, technical);
      forall i :: 0 <= i < |r| - 1 ==> !(IsSpace(r[i]) && IsSpace(r[i + 1]))
  {
  }

  // ---------------------------------------------------------------------------
  // the phrase table

  /** No rule of the table matches anywhere in `s`. */
  predicate RulesFree(s: string, rules: seq<Rule>) {
    forall r :: 0 <= r < |rules| ==> !SearchFrom(s, 0, rules[r].alternatives)
  }

  /** Text holding no phrase of the table passes through it unchanged. */
  lemma {:induction false} ApplyRulesFree(s: string, rules: seq<Rule>)
    requires Shrinking(rules) && RulesFree(s, rules)
    ensures ApplyRules(s, rules) == s
    decreases |rules|
  {
    if |rules| > 0 {
      ReplaceFromNoMatch(s, 0, rules[0].alternatives, rules[0].replacement);
      assert s[0..] == s;
      ApplyRulesFree(s, rules[1..]);
    }
  }

  /** Text holding a phrase of a table of strictly shorter replacements comes
      out strictly shorter. */
  lemma {:induction false} ApplyRulesShortens(s: string, rules: seq<Rule>)
    requires Shrinking(rules) && forall r :: 0 <= r < |rules| ==> StrictRule(rules[r])
    requires !RulesFree(s, rules)
    ensures |ApplyRules(s, rules)| < |s|
    decreases |rules|
  {
    var first := rules[0];
    if SearchFrom(s, 0, first.alternatives) {
      ReplaceFromShortens(s, 0, first.alternatives, first.replacement);
    } else {
      ReplaceFromNoMatch(s, 0, first.alternatives, first.replacement);
      assert s[0..] == s;
      var r :| 0 <= r < |rules| && SearchFrom(s, 0, rules[r].alternatives);
      assert rules[1..][r - 1] == rules[r];
      ApplyRulesShortens(s, rules[1..]);
    }
  }

  /** The phrase table changes the text exactly when one of its phrases
      occurs in it as whole words, in any letter case. */
  lemma PhraseCondensedChanges(content: string)
    ensures PhraseCondensed(content) == content <==> RulesFree(content, PhraseRules)
  {
    PhraseRulesShrinking();
    PhraseRulesStrict();
    if RulesFree(content, PhraseRules) {
      ApplyRulesFree(content, PhraseRules);
    } else {
      ApplyRulesShortens(content, PhraseRules);
    }
  }

  /** The phrase table also rewrites phrases inside fenced code:
      "```in order to```" comes out as "```to```". */
  lemma FencedPhraseRewritten()
    ensures PhraseCondensed("```in order to```") == "```to```"
  {
    PhraseRulesShrinking();
    var s := "```in order to```";
    FenceToRule(s);
    LaterPhrasesUnchanged("```to```", PhraseRules[1..]);
    assert ApplyRules(s, PhraseRules) == ApplyRules("```to```", PhraseRules[1..]);
  }

  /** Every phrase of the table after its first rule is longer than eight
      characters, so a text of eight characters passes those rules unchanged. */
  lemma LaterPhrasesUnchanged(t: string, rules: seq<Rule>)
    requires |t| <= 8 && rules == PhraseRules[1..]
    ensures Shrinking(rules) && ApplyRules(t, rules) == t
  {
    PhraseRulesShrinking();
    LaterRulesLong();
    ShortTextFree(t, rules, 8);
    ApplyRulesFree(t, rules);
  }

  /** Every alternative of every rule has more than `n` characters. */
  predicate LongerThan(rules: seq<Rule>, n: nat) {
    forall r :: 0 <= r < |rules| ==> RuleLongerThan(rules[r], n)
  }

  predicate RuleLongerThan(rule: Rule, n: nat) {
    forall k :: 0 <= k < |rule.alternatives| ==> n < |rule.alternatives[k]|
  }

  lemma LaterRulesLong()
    ensures LongerThan(PhraseRules[1..], 8)
  {
    assert RuleLongerThan(BecauseRule, 8) && RuleLongerThan(NowRule, 8) && RuleLongerThan(ForRule, 8);
    assert RuleLongerThan(RegardingRule, 8) && RuleLongerThan(NoteRule, 8) && RuleLongerThan(FromRule, 8);
    assert RuleLongerThan(IfRule, 8) && RuleLongerThan(UseRule, 8) && RuleLongerThan(HelpRule, 8);
  }

  lemma FenceToRule(s: string)
    requires s == "```in order to```"
    ensures ReplaceWords(s, ToRule.alternatives, ToRule.replacement) == "```to```"
  {
    var fence, rest := "```", "in order to```";
    FencePieces(s, fence, rest);
    FenceRewrite(s, fence, rest, ToRule.alternatives, ToRule.replacement);
    assert fence + ToRule.replacement + fence == "```to```";
  }

  lemma FencePieces(s: string, fence: string, rest: string)
    requires s == "```in order to```" && fence == "```" && rest == "in order to```"
    ensures |fence| == 3 && forall i :: 0 <= i < 3 ==> !IsWordChar(fence[i])
    ensures |rest| == 14 && rest[11..] == fence && s == fence + rest
    ensures var alts := ToRule.alternatives;
      NonEmptyAlternatives(alts) && |alts| > 0 && |alts[0]| == 11 &&
      forall k :: 0 <= k < |alts| ==> |alts[k]| > 3
    ensures MatchesAt(s, 3, ToRule.alternatives[0])
  {
    FenceMatches(s, rest);
  }

  lemma FenceMatches(s: string, rest: string)
    requires s == "```in order to```" && rest == "in order to```"
    ensures MatchesAt(s, 3, ToRule.alternatives[0])
  {
    assert s[3..14] == rest[..11] == ToRule.alternatives[0];
  }

  /** A match of the first alternative framed by three characters that are not
      word characters on each side. */
  lemma FenceRewrite(s: string, fence: string, rest: string, alts: seq<string>, repl: string)
    requires |fence| == 3 && forall i :: 0 <= i < 3 ==> !IsWordChar(fence[i])
    requires |rest| == 14 && rest[11..] == fence && s == fence + rest
    requires NonEmptyAlternatives(alts) && |alts| > 0 && |alts[0]| == 11 && MatchesAt(s, 3, alts[0])
    requires forall k :: 0 <= k < |alts| ==> |alts[k]| > 3
    ensures ReplaceFrom(s, 0, alts, repl) == fence + repl + fence
  {
    FenceHeadCopied(s, fence, alts, repl);
    assert FirstMatch(s, 3, alts) == Some(0);
    ReplaceFromReplaces(s, 3, alts, repl, 14);
    FenceTailCopied(s, alts, repl);
    assert s[14..17] == fence;
  }

  lemma FenceHeadCopied(s: string, fence: string, alts: seq<string>, repl: string)
    requires |fence| == 3 && forall i :: 0 <= i < 3 ==> !IsWordChar(fence[i])
    requires |s| >= 3 && s[..3] == fence && NonEmptyAlternatives(alts)
    ensures ReplaceFrom(s, 0, alts, repl) == fence + ReplaceFrom(s, 3, alts, repl)
  {
    forall j | 0 <= j < 3 ensures FirstMatch(s, j, alts).None? {
      assert s[j] == fence[j] && (j == 0 || s[j - 1] == fence[j - 1]);
      assert !IsBoundary(s, j);
    }
    ReplaceFromCopiesRun(s, 0, 3, alts, repl);
    assert s[0..3] == fence;
  }

  lemma FenceTailCopied(s: string, alts: seq<string>, repl: string)
    requires |s| == 17 && NonEmptyAlternatives(alts)
    requires forall k :: 0 <= k < |alts| ==> |alts[k]| > 3
    ensures ReplaceFrom(s, 14, alts, repl) == s[14..17]
  {
    forall j | 14 <= j < 17 ensures FirstMatch(s, j, alts).None? {
    }
    ReplaceFromCopiesRun(s, 14, 3, alts, repl);
    assert ReplaceFrom(s, 17, alts, repl) == [];
  }

  /** A text shorter than every phrase of the table holds none of them. */
  lemma ShortTextFree(s: string, rules: seq<Rule>, n: nat)
    requires |s| <= n && LongerThan(rules, n)
    ensures RulesFree(s, rules)
  {
  }

  // ---------------------------------------------------------------------------
  // filler removal

  /** Where the first `n` characters hold no whitespace, they are copied. */
  lemma {:induction false} SqueezeCopies(s: string, n: nat)
    requires n <= |s| && forall i :: 0 <= i < n ==> !IsSpace(s[i])
    ensures SqueezeSpaces(s) == s[..n] + SqueezeSpaces(s[n..])
    decreases n
  {
    if n > 0 {
      SqueezeCopies(s[1..], n - 1);
      assert s[1..][n - 1..] == s[n..];
      assert s[..n] == [s[0]] + s[1..][..n - 1];
    }
  }

  /** Squeezing a text that does not start with a word character gives one
      that does not either. */
  lemma SqueezeHead(t: string)
    requires |t| == 0 || !IsWordChar(t[0])
    ensures var r := SqueezeSpaces(t); |r| == 0 || !IsWordChar(r[0])
  {
  }

  /** Squeezing whitespace keeps every word. */
  lemma {:induction false} SqueezeKeepsWords(s: string)
    ensures Words(SqueezeSpaces(s)) == Words(s)
    decreases |s|
  {
    if |s| > 0 {
      if IsSpace(s[0]) {
        var n := WsRunLen(s);
        SqueezeKeepsWords(s[n..]);
        WordsNonWordCons(' ', SqueezeSpaces(s[n..]));
        WordsSkip(s, n);
      } else if !IsWordChar(s[0]) {
        SqueezeKeepsWords(s[1..]);
        WordsNonWordCons(s[0], SqueezeSpaces(s[1..]));
      } else {
        var e := RunEnd(s, 0);
        SqueezeCopies(s, e);
        SqueezeKeepsWords(s[e..]);
        SqueezeHead(s[e..]);
        assert s[0..] == s && s[0..e] == s[..e];
        WordsRunPrefix(s[..e], SqueezeSpaces(s[e..]));
        WordsAtRun(s, 0);
      }
    }
  }

  /** A prose line keeps exactly its words that are not filler words. */
  lemma UnfilledWords(line: string)
    ensures Words(Unfilled(line)) == Words(line) - AltSet(Fillers)
  {
    FillersAreWords();
    DeleteWordsFrom(line, 0, Fillers);
    assert line[0..] == line;
    SqueezeKeepsWords(ReplaceWords(line, Fillers, ""));
  }

  /** No filler word is left in a prose line. */
  lemma UnfilledNoFiller(line: string)
    ensures !SearchFrom(Unfilled(line), 0, Fillers)
  {
    UnfilledWords(line);
    FillersAreWords();
    NoWordNoMatch(Unfilled(line), Fillers);
  }
}
