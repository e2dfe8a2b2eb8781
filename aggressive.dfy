/** The `aggressive_compression` strategy: comments are removed, only the
    first two example lines are kept, and long words are abbreviated. */
module Aggressive {
  import opened Text
  import opened Condensation

  /** The score `aggressive_compression` reports. */
  const AggressiveScore: real := 0.90

  /** How many lines mentioning an example survive. */
  const MaxExamples: nat := 2

  /** `\b(?:example|e\.g\.|for instance|such as)\b`, case-insensitive. */
  const ExamplePhrases: seq<string> := ["example", "e.g.", "for instance", "such as"]

  /** The abbreviation table, in the order it is applied. */
  const Abbreviations: seq<Rule> := [
    Rule(["function"], "fn"),
    Rule(["parameter"], "param"),
    Rule(["argument"], "arg"),
    Rule(["variable"], "var"),
    Rule(["configuration"], "config"),
    Rule(["environment"], "env"),
    Rule(["directory"], "dir"),
    Rule(["execute"], "exec"),
    Rule(["initialization"], "init"),
    Rule(["optimization"], "opt")
  ]

  lemma AbbreviationsShrinking()
    ensures Shrinking(Abbreviations)
  {
  }

  function Abbreviate(s: string): (r: string)
    ensures |r| <= |s|
  {
    AbbreviationsShrinking();
    ApplyRules(s, Abbreviations)
  }

  // ---------------------------------------------------------------------------
  // comments

  /** Index of the first newline of `s`. */
  function FirstNewline(s: string): (j: nat)
    requires '\n' in s
    ensures j < |s| && s[j] == '\n' && '\n' !in s[..(j)]
    decreases |s|
  {
    if s[0] == '\n' then 0
    else
      assert s == [s[0]] + s[1..];
      var j := FirstNewline(s[1..]);
      assert s[..j + 1] == [s[0]] + s[1..][..j];
      j + 1
  }

  /** `re.sub(marker + r'[^\n]*\n', '\n', s)`: a comment that runs up to a
      newline is dropped, the newline stays; a comment on the last line,
      with no newline after it, is left as it is. */
  function StripLineComments(s: string, marker: string): (r: string)
    requires |marker| > 0
    ensures |r| <= |s|
    decreases |s|
  {
    if |s| == 0 then ""
    else if StartsWith(s, marker) && '\n' in s[|marker|..] then
      var j := |marker| + FirstNewline(s[|marker|..]);
      "\n" + StripLineComments(s[j + 1..], marker)
    else [s[0]] + StripLineComments(s[1..], marker)
  }

  // Index of the first closing `*` `/` pair in `s`, if any.
  function CloseIndex(s: string): (r: Option<nat>)
    ensures r.Some? ==> r.value + 2 <= |s| && s[r.value..(r.value + 2)] == "*/"
    decreases |s|
  {
    if |s| < 2 then None
    else if s[..2] == "*/" then Some(0)
    else match CloseIndex(s[1..])
      case None => None
      case Some(j) => Some(j + 1)
  }

  // `re.sub(r'/\*.*?\*/', '', s, flags=re.DOTALL)`: a block comment is
  // dropped up to the first closing pair after its opening; an unclosed one
  // stays.
  function StripBlockComments(s: string): (r: string)
    ensures |r| <= |s|
    decreases |s|
  {
    if |s| == 0 then ""
    else if StartsWith(s, "/*") && CloseIndex(s[2..]).Some? then
      StripBlockComments(s[2 + CloseIndex(s[2..]).value + 2..])
    else [s[0]] + StripBlockComments(s[1..])
  }

  /** The three comment passes in order. */
  function StripComments(s: string): (r: string)
    ensures |r| <= |s|
  {
    StripBlockComments(StripLineComments(StripLineComments(s, "#"), "//"))
  }

  // ---------------------------------------------------------------------------
  // example lines

  predicate MentionsExample(line: string) {
    SearchFrom(line, 0, ExamplePhrases)
  }

  /** The lines kept when `seen` example lines came before them. */
  function KeepExamples(lines: seq<string>, seen: nat, isExample: string -> bool): seq<string>
    decreases |lines|
  {
    if |lines| == 0 then []
    else if isExample(lines[0]) then
      (if seen + 1 <= MaxExamples then [lines[0]] else []) + KeepExamples(lines[1..], seen + 1, isExample)
    else [lines[0]] + KeepExamples(lines[1..], seen, isExample)
  }

  /** `aggressive_compression` as a function of its input. */
  function AggressiveCompress(content: string): (string, real) {
    var lines := Split(StripComments(content), '\n');
    (Abbreviate(Join(KeepExamples(lines, 0, MentionsExample), "\n")), AggressiveScore)
  }

  method AggressiveCompression(content: string) returns (compressed: string, score: real)
    ensures (compressed, score) == AggressiveCompress(content)
  {
    var text := StripLineComments(content, "#");
    text := StripLineComments(text, "//");
    text := StripBlockComments(text);
    var lines := Split(text, '\n');
    var filteredLines := FilterExamples(lines, MentionsExample);
    AbbreviationsShrinking();
    compressed := RewriteAll(Join(filteredLines, "\n"), Abbreviations);
    score := AggressiveScore;
  }

  /** The loop that counts example lines and drops all but the first two;
      `isExample` is the example-phrase search. */
  method FilterExamples(lines: seq<string>, isExample: string -> bool) returns (filteredLines: seq<string>)
    ensures filteredLines == KeepExamples(lines, 0, isExample)
  {
    filteredLines := [];
    var exampleCount := 0;
    var i := 0;
    while i < |lines|
      invariant 0 <= i <= |lines|
      invariant filteredLines + KeepExamples(lines[i..], exampleCount, isExample) == KeepExamples(lines, 0, isExample)
    {
      var line := lines[i];
      KeepStep(lines, i, exampleCount, isExample);
      ghost var before := filteredLines;
      if isExample(line) {
        exampleCount := exampleCount + 1;
        if exampleCount <= MaxExamples {
          filteredLines := filteredLines + [line];
          assert filteredLines + KeepExamples(lines[i + 1..], exampleCount, isExample)
            == before + ([line] + KeepExamples(lines[i + 1..], exampleCount, isExample));
        } else {
          assert [] + KeepExamples(lines[i + 1..], exampleCount, isExample) == KeepExamples(lines[i + 1..], exampleCount, isExample);
        }
      } else {
        filteredLines := filteredLines + [line];
        assert filteredLines + KeepExamples(lines[i + 1..], exampleCount, isExample)
          == before + ([line] + KeepExamples(lines[i + 1..], exampleCount, isExample));
      }
      i := i + 1;
    }
  }

  lemma KeepStep(lines: seq<string>, i: nat, seen: nat, isExample: string -> bool)
    requires i < |lines|
    ensures KeepExamples(lines[i..], seen, isExample) ==
      if isExample(lines[i]) then
        (if seen + 1 <= MaxExamples then [lines[i]] else []) + KeepExamples(lines[i + 1..], seen + 1, isExample)
      else [lines[i]] + KeepExamples(lines[i + 1..], seen, isExample)
  {
    assert lines[i..][0] == lines[i];
    assert lines[i..][1..] == lines[i + 1..];
  }

  // ---------------------------------------------------------------------------
  // properties of the comment passes

  /** Text without a newline passes a line-comment pass unchanged. */
  lemma {:induction false} NoNewlineKept(s: string, marker: string)
    requires |marker| > 0 && '\n' !in s
    ensures StripLineComments(s, marker) == s
    decreases |s|
  {
    if |s| > 0 {
      if |marker| <= |s| {
        NoNewlineSuffix(s, |marker|);
      }
      NoNewlineSuffix(s, 1);
      NoNewlineKept(s[1..], marker);
      assert StripLineComments(s, marker) == [s[0]] + StripLineComments(s[1..], marker);
      assert [s[0]] + s[1..] == s;
    }
  }

  lemma NoNewlineSuffix(s: string, k: nat)
    requires '\n' !in s && k <= |s|
    ensures '\n' !in s[k..]
  {
    assert forall c :: c in s[k..] ==> c in s;
  }

  /** A newline-free start of the output is copied from the input. */
  lemma {:induction false} PrefixKept(s: string, marker: string, k: nat)
    requires |marker| > 0
    ensures k <= |StripLineComments(s, marker)| && '\n' !in StripLineComments(s, marker)[..k] ==>
      k <= |s| && StripLineComments(s, marker)[..k] == s[..k]
    decreases |s|
  {
    var r := StripLineComments(s, marker);
    if k > 0 && k <= |r| && StartsWith(s, marker) && '\n' in s[|marker|..] {
      assert r[..k][0] == '\n';
    } else if k > 0 && k <= |r| {
      var r' := StripLineComments(s[1..], marker);
      assert r == [s[0]] + r';
      assert r[..k] == [s[0]] + r'[..k - 1];
      assert forall c :: c in r'[..k - 1] ==> c in r[..k];
      PrefixKept(s[1..], marker, k - 1);
    }
  }

  /** Every suffix of `r` that starts with `marker` has no newline: each
      marker left is on the last line. */
  predicate MarkersOnLastLine(r: string, marker: string) {
    forall i :: 0 <= i <= |r| && StartsWith(r[i..], marker) ==> '\n' !in r[i..]
  }

  /** The suffixes of `[c] + r` past the first are those of `r`. */
  lemma MarkersCons(c: char, r: string, marker: string)
    requires MarkersOnLastLine(r, marker)
    requires StartsWith([c] + r, marker) ==> '\n' !in [c] + r
    ensures MarkersOnLastLine([c] + r, marker)
  {
    var t := [c] + r;
    forall i | 0 <= i <= |t| && StartsWith(t[i..], marker) ensures '\n' !in t[i..] {
      if i > 0 {
        assert t[i..] == r[i - 1..];
      }
    }
  }

  /** If `[s[0]] + out` starts with the marker and `out` copies `s[1..]` as
      far as it has no newline, `s` starts with the marker too. */
  lemma MarkerFromCopy(s: string, out: string, marker: string)
    requires |s| > 0 && |marker| > 0 && '\n' !in marker
    requires StartsWith([s[0]] + out, marker)
    requires var k := |marker| - 1;
      k <= |out| && '\n' !in out[..k] ==> k <= |s[1..]| && out[..k] == s[1..][..k]
    ensures StartsWith(s, marker)
  {
    var m := |marker|;
    assert marker == [s[0]] + out[..m - 1] by {
      assert ([s[0]] + out)[..m] == [s[0]] + out[..m - 1];
    }
    assert marker[1..] == out[..m - 1];
    assert forall c :: c in marker[1..] ==> c in marker;
    assert s[1..][..m - 1] == s[1..m];
    assert s[..m] == [s[0]] + s[1..m];
  }

  /** When the text starts with a marker that the pass keeps, the whole text
      passes unchanged and has no newline. */
  lemma KeptMarker(s: string, marker: string)
    requires |s| > 0 && |marker| > 0 && '\n' !in marker
    requires !(StartsWith(s, marker) && '\n' in s[|marker|..])
    requires StartsWith([s[0]] + StripLineComments(s[1..], marker), marker)
    ensures StripLineComments(s[1..], marker) == s[1..] && '\n' !in s
  {
    PrefixKept(s[1..], marker, |marker| - 1);
    MarkerFromCopy(s, StripLineComments(s[1..], marker), marker);
    MarkerLineNoNewline(s, marker);
    NoNewlineKept(s[1..], marker);
  }

  lemma MarkerLineNoNewline(s: string, marker: string)
    requires |s| > 0 && '\n' !in marker && StartsWith(s, marker) && '\n' !in s[|marker|..]
    ensures '\n' !in s && '\n' !in s[1..]
  {
    var m := |marker|;
    assert s == s[..m] + s[m..];
    assert forall c :: c in s ==> c in s[..m] || c in s[m..];
    assert forall c :: c in s[1..] ==> c in s;
  }

  /** After a line-comment pass, every marker left in the text is on the last
      line: the pass removed every comment that a newline follows. */
  lemma {:induction false} LineCommentsGone(s: string, marker: string)
    requires |marker| > 0 && '\n' !in marker
    ensures MarkersOnLastLine(StripLineComments(s, marker), marker)
    decreases |s|
  {
    var m := |marker|;
    if |s| > 0 {
      if StartsWith(s, marker) && '\n' in s[m..] {
        var j := m + FirstNewline(s[m..]);
        var r' := StripLineComments(s[j + 1..], marker);
        assert StripLineComments(s, marker) == "\n" + r';
        LineCommentsGone(s[j + 1..], marker);
        assert marker[0] in marker;
        MarkersCons('\n', r', marker);
      } else {
        var r' := StripLineComments(s[1..], marker);
        assert StripLineComments(s, marker) == [s[0]] + r';
        LineCommentsGone(s[1..], marker);
        if StartsWith([s[0]] + r', marker) {
          KeptMarker(s, marker);
          assert s == [s[0]] + s[1..];
        }
        MarkersCons(s[0], r', marker);
      }
    }
  }

  // ---------------------------------------------------------------------------
  // properties of the example filter

  function ExampleLines(lines: seq<string>, isExample: string -> bool): seq<string>
    decreases |lines|
  {
    if |lines| == 0 then []
    else (if isExample(lines[0]) then [lines[0]] else []) + ExampleLines(lines[1..], isExample)
  }

  function OtherLines(lines: seq<string>, isExample: string -> bool): seq<string>
    decreases |lines|
  {
    if |lines| == 0 then []
    else (if isExample(lines[0]) then [] else [lines[0]]) + OtherLines(lines[1..], isExample)
  }

  /** How many more example lines may be kept after `seen`. */
  function Quota(seen: nat): nat {
    if seen >= MaxExamples then 0 else MaxExamples - seen
  }

  lemma {:induction false} ExampleLinesConcat(a: seq<string>, b: seq<string>, isExample: string -> bool)
    ensures ExampleLines(a + b, isExample) == ExampleLines(a, isExample) + ExampleLines(b, isExample)
    ensures OtherLines(a + b, isExample) == OtherLines(a, isExample) + OtherLines(b, isExample)
    decreases |a|
  {
    if |a| == 0 {
      assert a + b == b;
    } else {
      var x := a[0];
      assert (a + b)[0] == x;
      assert (a + b)[1..] == a[1..] + b;
      ExampleLinesConcat(a[1..], b, isExample);
      var e := if isExample(x) then [x] else [];
      var o := if isExample(x) then [] else [x];
      assert ExampleLines(a + b, isExample) == e + ExampleLines(a[1..] + b, isExample);
      assert ExampleLines(a, isExample) == e + ExampleLines(a[1..], isExample);
      assert OtherLines(a + b, isExample) == o + OtherLines(a[1..] + b, isExample);
      assert OtherLines(a, isExample) == o + OtherLines(a[1..], isExample);
    }
  }

  /** Every other line is kept in order, and of the example lines exactly the
      first `Quota(seen)` are kept. */
  lemma {:induction false} KeepExamplesSpec(lines: seq<string>, seen: nat, isExample: string -> bool)
    ensures OtherLines(KeepExamples(lines, seen, isExample), isExample) == OtherLines(lines, isExample)
    ensures var ex := ExampleLines(lines, isExample);
      ExampleLines(KeepExamples(lines, seen, isExample), isExample) == ex[..if Quota(seen) < |ex| then Quota(seen) else |ex|]
    decreases |lines|
  {
    if |lines| > 0 {
      var l := lines[0];
      var rest := lines[1..];
      if isExample(l) {
        KeepExamplesSpec(rest, seen + 1, isExample);
        var head := if seen + 1 <= MaxExamples then [l] else [];
        ExampleLinesConcat(head, KeepExamples(rest, seen + 1, isExample), isExample);
        var ex := ExampleLines(lines, isExample);
        assert ex == [l] + ExampleLines(rest, isExample);
        if seen + 1 <= MaxExamples {
          assert Quota(seen) == Quota(seen + 1) + 1;
        }
      } else {
        KeepExamplesSpec(rest, seen, isExample);
        ExampleLinesConcat([l], KeepExamples(rest, seen, isExample), isExample);
      }
    }
  }

  /** The kept lines are input lines, in input order. */
  lemma {:induction false} KeepExamplesSubsequence(lines: seq<string>, seen: nat, isExample: string -> bool)
    ensures IsSubsequence(KeepExamples(lines, seen, isExample), lines)
    decreases |lines|
  {
    if |lines| > 0 {
      var x := lines[0];
      var rest := lines[1..];
      assert lines == [x] + rest;
      var seen' := if isExample(x) then seen + 1 else seen;
      var k' := KeepExamples(rest, seen', isExample);
      KeepExamplesSubsequence(rest, seen', isExample);
      if !isExample(x) || seen + 1 <= MaxExamples {
        assert KeepExamples(lines, seen, isExample) == [x] + k';
        SubsequenceCons(x, k', rest);
      } else {
        assert KeepExamples(lines, seen, isExample) == k';
        SubsequenceDropHead(k', lines);
      }
    }
  }

  /** Joining fewer of the pieces, in order, gives a text no longer. */
  lemma {:induction false} JoinSubsequenceShorter(a: seq<string>, b: seq<string>, sep: string)
    requires IsSubsequence(a, b)
    ensures |Join(a, sep)| <= |Join(b, sep)|
    decreases |b|
  {
    if |a| > 0 {
      SubsequenceLength(a, b);
      if |b| > 1 {
        if a[0] == b[0] {
          JoinSubsequenceShorter(a[1..], b[1..], sep);
        } else {
          JoinSubsequenceShorter(a, b[1..], sep);
        }
      } else {
        if a[0] != b[0] {
          SubsequenceLength(a, b[1..]);
        }
      }
    }
  }

  /** The output is never longer than the input, and the score is 0.90. */
  lemma AggressiveShrinks(content: string)
    ensures |AggressiveCompress(content).0| <= |content|
    ensures AggressiveCompress(content).1 == AggressiveScore
  {
    var text := StripComments(content);
    var lines := Split(text, '\n');
    KeepExamplesSubsequence(lines, 0, MentionsExample);
    JoinSubsequenceShorter(KeepExamples(lines, 0, MentionsExample), lines, "\n");
    JoinSplit(text, '\n');
  }
}
