/** The `pattern_abstraction` strategy: large detected functions and JSON
    objects are replaced by short tags, and a dictionary of the tags is
    appended. The two detections (`re.findall` of the function and of the
    JSON pattern) are inputs: `funcMatches` holds what the function search
    returns, which because of its capture group is the function NAME, and
    `jsonMatches` the JSON objects found. */
module Abstraction {
  import opened Text

  /** The score `pattern_abstraction` reports. */
  const AbstractionScore: real := 0.98

  /** A function match is abstracted when it is longer than this. */
  const MinFuncLength: nat := 200

  /** A JSON match is abstracted when it is longer than this. */
  const MinJsonLength: nat := 300

  /** How much of a pattern the dictionary shows. */
  const PreviewLength: nat := 100

  const DictionaryHeader: string := "\n\n--- Pattern Abstractions ---\n"

  /** A pattern and the tag that replaces it. */
  datatype PatternTag = PatternTag(pattern: string, tag: string)

  /** `f"[{prefix}{i}]"`. */
  function Tag(prefix: string, i: nat): string {
    "[" + prefix + Decimal(i) + "]"
  }

  /** The abstractions for the matches from index `i` on: a match longer than
      `minLength` is tagged with its index among all matches. */
  function Selected(matches: seq<string>, prefix: string, minLength: nat, i: nat): seq<PatternTag>
    requires i <= |matches|
    decreases |matches| - i
  {
    if i == |matches| then []
    else
      (if |matches[i]| > minLength then [PatternTag(matches[i], Tag(prefix, i))] else []) +
      Selected(matches, prefix, minLength, i + 1)
  }

  /** All abstractions: the functions first, then the JSON objects. */
  function Abstractions(funcMatches: seq<string>, jsonMatches: seq<string>): seq<PatternTag> {
    Selected(funcMatches, "FUNC_", MinFuncLength, 0) + Selected(jsonMatches, "JSON_", MinJsonLength, 0)
  }

  /** `s.replace(pattern, replacement)`: every occurrence, left to right,
      without overlaps. */
  function ReplaceAll(s: string, pattern: string, replacement: string): string
    requires |pattern| > 0
    decreases |s|
  {
    if StartsWith(s, pattern) then replacement + ReplaceAll(s[|pattern|..], pattern, replacement)
    else if |s| == 0 then ""
    else [s[0]] + ReplaceAll(s[1..], pattern, replacement)
  }

  /** Every abstraction has a non-empty pattern. */
  predicate NonEmptyPatterns(abs: seq<PatternTag>) {
    forall k :: 0 <= k < |abs| ==> |abs[k].pattern| > 0
  }

  /** The replacements applied in order. */
  function ApplyAll(s: string, abs: seq<PatternTag>): string
    requires NonEmptyPatterns(abs)
    decreases |abs|
  {
    if |abs| == 0 then s
    else ApplyAll(ReplaceAll(s, abs[0].pattern, abs[0].tag), abs[1..])
  }

  /** One dictionary line: the tag, the first 100 characters of the pattern
      and `...` when the pattern is longer. */
  function Entry(a: PatternTag): string {
    var preview := if |a.pattern| <= PreviewLength then a.pattern else a.pattern[..PreviewLength];
    a.tag + ": " + preview + (if |a.pattern| > PreviewLength then "..." else "") + "\n"
  }

  function Entries(abs: seq<PatternTag>): string
    decreases |abs|
  {
    if |abs| == 0 then "" else Entry(abs[0]) + Entries(abs[1..])
  }

  /** The content after every abstraction has been applied. */
  function Replaced(content: string, funcMatches: seq<string>, jsonMatches: seq<string>): string {
    AbstractionsLong(funcMatches, jsonMatches);
    ApplyAll(content, Abstractions(funcMatches, jsonMatches))
  }

  /** `pattern_abstraction` as a function of its input and the detections. */
  function Abstract(content: string, funcMatches: seq<string>, jsonMatches: seq<string>): (string, real) {
    var abs := Abstractions(funcMatches, jsonMatches);
    var replaced := Replaced(content, funcMatches, jsonMatches);
    (if |abs| > 0 then replaced + (DictionaryHeader + Entries(abs)) else replaced, AbstractionScore)
  }

  method PatternAbstraction(content: string, funcMatches: seq<string>, jsonMatches: seq<string>)
    returns (abstractedContent: string, score: real)
    ensures (abstractedContent, score) == Abstract(content, funcMatches, jsonMatches)
  {
    var funcAbstractions := SelectLarge(funcMatches, "FUNC_", MinFuncLength);
    var jsonAbstractions := SelectLarge(jsonMatches, "JSON_", MinJsonLength);
    var patternAbstractions := funcAbstractions + jsonAbstractions;
    AbstractionsLong(funcMatches, jsonMatches);
    abstractedContent := ApplyAbstractions(content, patternAbstractions);
    if |patternAbstractions| > 0 {
      var abstractionDict := BuildDictionary(patternAbstractions);
      abstractedContent := abstractedContent + abstractionDict;
    }
    score := AbstractionScore;
  }

  /** The replacement loop: each abstraction rewrites the whole text. */
  method ApplyAbstractions(content: string, abs: seq<PatternTag>) returns (text: string)
    requires NonEmptyPatterns(abs)
    ensures text == ApplyAll(content, abs)
  {
    text := content;
    var i := 0;
    while i < |abs|
      invariant 0 <= i <= |abs|
      invariant ApplyAll(text, abs[i..]) == ApplyAll(content, abs)
    {
      assert abs[i..][1..] == abs[i + 1..];
      text := ReplaceAll(text, abs[i].pattern, abs[i].tag);
      i := i + 1;
    }
  }

  /** The dictionary loop: the header, then one line per abstraction. */
  method BuildDictionary(abs: seq<PatternTag>) returns (dict: string)
    ensures dict == DictionaryHeader + Entries(abs)
  {
    dict := DictionaryHeader;
    var k := 0;
    while k < |abs|
      invariant 0 <= k <= |abs|
      invariant dict + Entries(abs[k..]) == DictionaryHeader + Entries(abs)
    {
      assert abs[k..][1..] == abs[k + 1..];
      var p := abs[k].pattern;
      var preview := if |p| <= PreviewLength then p else p[..PreviewLength];
      var line := abs[k].tag + ": " + preview + (if |p| > PreviewLength then "..." else "") + "\n";
      EntriesStep(abs, k, dict, line);
      dict := dict + line;
      k := k + 1;
    }
    assert abs[k..] == [];
  }

  lemma EntriesStep(abs: seq<PatternTag>, k: nat, dict: string, line: string)
    requires k < |abs|
    requires line == Entry(abs[k])
    ensures (dict + line) + Entries(abs[k + 1..]) == dict + Entries(abs[k..])
  {
    assert abs[k..][1..] == abs[k + 1..];
  }

  /** One `enumerate` loop over the matches, keeping the large ones. */
  method SelectLarge(matches: seq<string>, prefix: string, minLength: nat) returns (selected: seq<PatternTag>)
    ensures selected == Selected(matches, prefix, minLength, 0)
  {
    selected := [];
    var i := 0;
    while i < |matches|
      invariant 0 <= i <= |matches|
      invariant selected + Selected(matches, prefix, minLength, i) == Selected(matches, prefix, minLength, 0)
    {
      if |matches[i]| > minLength {
        selected := selected + [PatternTag(matches[i], Tag(prefix, i))];
      }
      i := i + 1;
    }
  }

  // ---------------------------------------------------------------------------
  // properties

  /** An abstraction is made exactly for each match longer than the bound,
      tagged with the match's index. */
  lemma {:induction false} SelectedSpec(matches: seq<string>, prefix: string, minLength: nat, i: nat, a: PatternTag)
    requires i <= |matches|
    ensures a in Selected(matches, prefix, minLength, i) <==>
      exists j :: i <= j < |matches| && |matches[j]| > minLength && a == PatternTag(matches[j], Tag(prefix, j))
    decreases |matches| - i
  {
    if i < |matches| {
      SelectedSpec(matches, prefix, minLength, i + 1, a);
      var head := if |matches[i]| > minLength then [PatternTag(matches[i], Tag(prefix, i))] else [];
      var tail := Selected(matches, prefix, minLength, i + 1);
      assert Selected(matches, prefix, minLength, i) == head + tail;
      if a in head {
        assert i <= i < |matches| && |matches[i]| > minLength && a == PatternTag(matches[i], Tag(prefix, i));
      } else if a in tail {
        var j :| i + 1 <= j < |matches| && |matches[j]| > minLength && a == PatternTag(matches[j], Tag(prefix, j));
        assert i <= j;
      }
      if exists j :: i <= j < |matches| && |matches[j]| > minLength && a == PatternTag(matches[j], Tag(prefix, j)) {
        var j :| i <= j < |matches| && |matches[j]| > minLength && a == PatternTag(matches[j], Tag(prefix, j));
        if j == i {
          assert a in head;
        } else {
          assert a in tail;
        }
      }
    }
  }

  lemma {:induction false} SelectedLong(matches: seq<string>, prefix: string, minLength: nat, i: nat)
    requires i <= |matches|
    ensures forall k :: 0 <= k < |Selected(matches, prefix, minLength, i)| ==>
      |Selected(matches, prefix, minLength, i)[k].pattern| > minLength
    decreases |matches| - i
  {
    if i < |matches| {
      SelectedLong(matches, prefix, minLength, i + 1);
    }
  }

  /** Every abstracted pattern is longer than 200 characters. */
  lemma AbstractionsLong(funcMatches: seq<string>, jsonMatches: seq<string>)
    ensures var abs := Abstractions(funcMatches, jsonMatches);
      NonEmptyPatterns(abs) &&
      forall k :: 0 <= k < |abs| ==> |abs[k].pattern| > MinFuncLength
  {
    SelectedLong(funcMatches, "FUNC_", MinFuncLength, 0);
    SelectedLong(jsonMatches, "JSON_", MinJsonLength, 0);
    var f := Selected(funcMatches, "FUNC_", MinFuncLength, 0);
    var abs := Abstractions(funcMatches, jsonMatches);
    forall k | 0 <= k < |abs| ensures |abs[k].pattern| > MinFuncLength {
      if k >= |f| {
        assert abs[k] == Selected(jsonMatches, "JSON_", MinJsonLength, 0)[k - |f|];
      }
    }
  }

  /** Every dictionary line ends in `...`: no abstracted pattern is short
      enough to be shown whole. */
  lemma EntriesTruncated(funcMatches: seq<string>, jsonMatches: seq<string>)
    ensures var abs := Abstractions(funcMatches, jsonMatches);
      forall k :: 0 <= k < |abs| ==>
        |abs[k].pattern| > PreviewLength &&
        Entry(abs[k]) == abs[k].tag + ": " + abs[k].pattern[..PreviewLength] + "...\n"
  {
    AbstractionsLong(funcMatches, jsonMatches);
  }

  /** Text without the pattern is left unchanged. */
  lemma {:induction false} ReplaceAllAbsent(s: string, pattern: string, replacement: string)
    requires |pattern| > 0
    requires forall i :: 0 <= i <= |s| ==> !StartsWith(s[i..], pattern)
    ensures ReplaceAll(s, pattern, replacement) == s
    decreases |s|
  {
    assert s[0..] == s;
    if |s| > 0 {
      forall i | 0 <= i <= |s[1..]| ensures !StartsWith(s[1..][i..], pattern) {
        assert s[1..][i..] == s[i + 1..];
      }
      ReplaceAllAbsent(s[1..], pattern, replacement);
    }
  }

  /** Number of occurrences `ReplaceAll` replaces. */
  function Occurrences(s: string, pattern: string): nat
    requires |pattern| > 0
    decreases |s|
  {
    if StartsWith(s, pattern) then 1 + Occurrences(s[|pattern|..], pattern)
    else if |s| == 0 then 0
    else Occurrences(s[1..], pattern)
  }

  /** Each replaced occurrence changes the length by the difference between
      the replacement and the pattern. */
  lemma {:induction false} ReplaceAllLength(s: string, pattern: string, replacement: string)
    requires |pattern| > 0
    ensures |ReplaceAll(s, pattern, replacement)| == |s| + Occurrences(s, pattern) * (|replacement| - |pattern|)
    decreases |s|
  {
    if StartsWith(s, pattern) {
      ReplaceAllLength(s[|pattern|..], pattern, replacement);
      var n := Occurrences(s[|pattern|..], pattern);
      var d := |replacement| - |pattern|;
      assert (1 + n) * d == d + n * d;
    } else if |s| > 0 {
      ReplaceAllLength(s[1..], pattern, replacement);
    }
  }

  /** Replacing a pattern by itself changes nothing. */
  lemma {:induction false} ReplaceAllSelf(s: string, pattern: string)
    requires |pattern| > 0
    ensures ReplaceAll(s, pattern, pattern) == s
    decreases |s|
  {
    if StartsWith(s, pattern) {
      ReplaceAllSelf(s[|pattern|..], pattern);
      assert s == pattern + s[|pattern|..];
    } else if |s| > 0 {
      ReplaceAllSelf(s[1..], pattern);
      assert s == [s[0]] + s[1..];
    }
  }

  /** Without a large match the content comes back unchanged; otherwise it
      is the replaced text followed by the header and one line per
      abstraction. The score is 0.98 either way. This unfolds `Abstract`
      for callers; the properties of the dictionary are proved below. */
  lemma AbstractSpec(content: string, funcMatches: seq<string>, jsonMatches: seq<string>)
    ensures var abs := Abstractions(funcMatches, jsonMatches);
      var r := Abstract(content, funcMatches, jsonMatches);
      var replaced := Replaced(content, funcMatches, jsonMatches);
      r.1 == AbstractionScore &&
      (|abs| == 0 ==> r.0 == content) &&
      (|abs| > 0 ==>
         StartsWith(r.0, replaced) && r.0[|replaced|..] == DictionaryHeader + Entries(abs))
  {
    var abs := Abstractions(funcMatches, jsonMatches);
    var replaced := Replaced(content, funcMatches, jsonMatches);
    if |abs| > 0 {
      var r := replaced + (DictionaryHeader + Entries(abs));
      assert r[..|replaced|] == replaced;
      assert r[|replaced|..] == DictionaryHeader + Entries(abs);
    }
  }
}
