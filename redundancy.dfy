/** The `redundancy_elimination` strategy: every line whose stripped text
    occurs more than twice is replaced by a numbered reference, the first
    occurrence keeping the text as the reference's definition. */
module Redundancy {
  import opened Text

  /** The score `eliminate_redundancy` reports. */
  const RedundancyScore: real := 0.99

  // The numbering is stated over `clean`, the stripped lines.

  /** Number of lines whose stripped text is `c`. */
  function Count(clean: seq<string>, c: string): nat
  {
    if |clean| == 0 then 0
    else Count(clean[..|clean| - 1], c) + (if clean[|clean| - 1] == c then 1 else 0)
  }

  /** A non-blank line text that occurs more than twice. */
  predicate Repeated(clean: seq<string>, c: string) {
    c != "" && Count(clean, c) > 2
  }

  /** The repeated texts among the first `i` lines. */
  function RepSet(clean: seq<string>, i: nat): set<string>
    requires i <= |clean|
  {
    if i == 0 then {}
    else RepSet(clean, i - 1) + (if Repeated(clean, clean[i - 1]) then {clean[i - 1]} else {})
  }

  /** Index of the first line at or after `i` whose stripped text is `c`. */
  function FirstFrom(clean: seq<string>, c: string, i: nat): (j: nat)
    requires i <= |clean| && c in clean[i..]
    ensures i <= j < |clean| && clean[j] == c
    ensures c !in clean[i..(j)]
    decreases |clean| - i
  {
    if clean[i] == c then i
    else
      assert clean[i..] == [clean[i]] + clean[i + 1..];
      var j := FirstFrom(clean, c, i + 1);
      assert clean[i..j] == [clean[i]] + clean[i + 1..j];
      j
  }

  /** Index of the first line whose stripped text is `c`. */
  function FirstIndex(clean: seq<string>, c: string): (j: nat)
    requires c in clean
    ensures j < |clean| && clean[j] == c && c !in clean[..(j)]
  {
    assert clean[0..] == clean;
    var j := FirstFrom(clean, c, 0);
    assert clean[..j] == clean[0..j];
    j
  }

  /** References are numbered from 1 in the order the repeated texts first
      appear. */
  function RefNumber(clean: seq<string>, c: string): nat
    requires c in clean
  {
    |RepSet(clean, FirstIndex(clean, c))| + 1
  }

  function RefTag(n: nat): string {
    "[REF_" + Decimal(n) + "]"
  }

  /** Line `k` after tagging: unchanged unless its text is repeated; the first
      occurrence becomes the definition `[REF_n]: line`, every later one the
      reference `[REF_n]` under the line's own indentation. */
  function Tagged(lines: seq<string>, k: nat): string
    requires k < |lines|
  {
    var clean := StripAll(lines);
    var c := clean[k];
    if !Repeated(clean, c) then lines[k]
    else if c !in RepSet(clean, k) then RefTag(RefNumber(clean, c)) + ": " + lines[k]
    else Spaces(IndentWidth(lines[k])) + RefTag(RefNumber(clean, c))
  }

  /** Every line after tagging. */
  function TagLines(lines: seq<string>): (r: seq<string>)
    ensures |r| == |lines|
  {
    seq(|lines|, k requires 0 <= k < |lines| => Tagged(lines, k))
  }

  lemma TagLinesAt(lines: seq<string>, k: nat)
    requires k < |lines|
    ensures TagLines(lines)[k] == Tagged(lines, k)
  {
  }

  lemma TagLinesSnoc(lines: seq<string>, i: nat, prefix: seq<string>, x: string)
    requires i < |lines| && prefix == TagLines(lines)[..i] && x == Tagged(lines, i)
    ensures prefix + [x] == TagLines(lines)[..i + 1]
  {
    TagLinesAt(lines, i);
  }

  /** `eliminate_redundancy` as a function of its input; `rewrite` stands for
      the pass of the redundant-pattern substitutions over the joined text. */
  function Eliminate(content: string, rewrite: string -> string): (string, real) {
    (rewrite(Join(TagLines(Split(content, '\n')), "\n")), RedundancyScore)
  }

  method EliminateRedundancy(content: string, rewrite: string -> string) returns (result: string, score: real)
    ensures (result, score) == Eliminate(content, rewrite)
  {
    var lines := Split(content, '\n');
    var lineFrequency := LineFrequencies(lines);
    var processed := TagRepeatedLines(lines, lineFrequency);
    result := rewrite(Join(processed, "\n"));
    score := RedundancyScore;
  }

  /** `freq` maps each non-blank text in `clean` to its number of occurrences. */
  ghost predicate Frequencies(clean: seq<string>, freq: map<string, nat>) {
    (forall c :: c in freq <==> c != "" && Count(clean, c) > 0) &&
    (forall c :: c in freq ==> freq[c] == Count(clean, c))
  }

  /** The first pass: how often each non-blank stripped line occurs. */
  method LineFrequencies(lines: seq<string>) returns (lineFrequency: map<string, nat>)
    ensures Frequencies(StripAll(lines), lineFrequency)
  {
    ghost var clean := StripAll(lines);
    lineFrequency := map[];
    var i := 0;
    while i < |lines|
      invariant 0 <= i <= |lines|
      invariant Frequencies(clean[..i], lineFrequency)
    {
      var cleanLine := Strip(lines[i]);
      assert cleanLine == clean[i];
      FrequenciesStep(clean, i, lineFrequency);
      if cleanLine != "" {
        var seen := if cleanLine in lineFrequency then lineFrequency[cleanLine] else 0;
        lineFrequency := lineFrequency[cleanLine := seen + 1];
      }
      i := i + 1;
    }
    assert clean[..i] == clean;
  }

  /** Counting one more line keeps the map in step with the counts. */
  lemma FrequenciesStep(clean: seq<string>, i: nat, freq: map<string, nat>)
    requires i < |clean| && Frequencies(clean[..i], freq)
    ensures var c := clean[i];
      Frequencies(clean[..i + 1], if c == "" then freq else freq[c := (if c in freq then freq[c] else 0) + 1])
  {
    assert clean[..i + 1][..i] == clean[..i];
  }

  /** The second pass: repeated lines become definitions and references. */
  method TagRepeatedLines(lines: seq<string>, lineFrequency: map<string, nat>) returns (processed: seq<string>)
    requires Frequencies(StripAll(lines), lineFrequency)
    ensures processed == TagLines(lines)
  {
    processed := [];
    var lineRefs: map<string, nat> := map[];
    var refCounter := 1;
    var i := 0;
    while i < |lines|
      invariant 0 <= i <= |lines|
      invariant processed == TagLines(lines)[..i]
      invariant Numbering(lineRefs, refCounter) == NumberingAfter(StripAll(lines), i)
    {
      var emitted: string;
      emitted, lineRefs, refCounter := TagLine(lines, i, lineFrequency, lineRefs, refCounter);
      TagLinesSnoc(lines, i, processed, emitted);
      processed := processed + [emitted];
      i := i + 1;
    }
    assert TagLines(lines)[..i] == TagLines(lines);
  }

  /** The state of the second pass after the first `i` lines: the reference
      map and the next reference number. */
  datatype Numbering = Numbering(refs: map<string, nat>, counter: nat)

  ghost function NumberingAfter(clean: seq<string>, i: nat): Numbering
    requires i <= |clean|
  {
    if i == 0 then Numbering(map[], 1)
    else
      var n := NumberingAfter(clean, i - 1);
      var c := clean[i - 1];
      if Repeated(clean, c) && c !in n.refs then Numbering(n.refs[c := n.counter], n.counter + 1)
      else n
  }

  /** The pass's reference map gives every repeated text seen so far its
      reference number, and the counter is one past the numbers handed out. */
  lemma NumberingAgrees(clean: seq<string>, i: nat)
    requires i <= |clean|
    ensures RefsAgree(clean, i, NumberingAfter(clean, i).refs)
    ensures NumberingAfter(clean, i).counter == |RepSet(clean, i)| + 1
  {
    var k := 0;
    while k < i
      invariant k <= i
      invariant RefsAgree(clean, k, NumberingAfter(clean, k).refs)
      invariant NumberingAfter(clean, k).counter == |RepSet(clean, k)| + 1
    {
      NumberingStep(clean, k);
      k := k + 1;
    }
  }

  lemma NumberingStep(clean: seq<string>, i: nat)
    requires i < |clean|
    requires RefsAgree(clean, i, NumberingAfter(clean, i).refs)
    requires NumberingAfter(clean, i).counter == |RepSet(clean, i)| + 1
    ensures RefsAgree(clean, i + 1, NumberingAfter(clean, i + 1).refs)
    ensures NumberingAfter(clean, i + 1).counter == |RepSet(clean, i + 1)| + 1
  {
    RefsStep(clean, i, NumberingAfter(clean, i).refs);
  }

  /** One iteration of the second pass: the line emitted for `lines[i]`, and
      the reference map and counter after it. */
  method TagLine(lines: seq<string>, i: nat, lineFrequency: map<string, nat>, lineRefs: map<string, nat>, refCounter: nat)
    returns (emitted: string, lineRefs': map<string, nat>, refCounter': nat)
    requires i < |lines|
    requires Frequencies(StripAll(lines), lineFrequency)
    requires Numbering(lineRefs, refCounter) == NumberingAfter(StripAll(lines), i)
    ensures emitted == Tagged(lines, i)
    ensures Numbering(lineRefs', refCounter') == NumberingAfter(StripAll(lines), i + 1)
  {
    ghost var clean := StripAll(lines);
    NumberingAgrees(clean, i);
    assert Frequencies(clean, lineFrequency);
    var line := lines[i];
    var cleanLine := Strip(line);
    assert cleanLine == clean[i];
    CountPositive(clean, i);
    assert cleanLine != "" ==> lineFrequency[cleanLine] == Count(clean, cleanLine);
    var repeated := cleanLine != "" && lineFrequency[cleanLine] > 2;
    TagStep(lines, i, lineRefs, refCounter, repeated);
    lineRefs', refCounter' := lineRefs, refCounter;
    if repeated {
      if cleanLine !in lineRefs {
        emitted := RefTag(refCounter) + ": " + line;
        lineRefs' := lineRefs[cleanLine := refCounter];
        refCounter' := refCounter + 1;
      } else {
        emitted := Spaces(|line| - |LStrip(line)|) + RefTag(lineRefs[cleanLine]);
      }
    } else {
      emitted := line;
    }
  }

  // ---------------------------------------------------------------------------
  // facts about the seen set and first occurrences

  /** `refs` maps each repeated text seen among the first `i` lines to its
      reference number. */
  ghost predicate RefsAgree(clean: seq<string>, i: nat, refs: map<string, nat>)
    requires i <= |clean|
  {
    refs.Keys == RepSet(clean, i) &&
    forall c :: c in refs ==> c in clean && refs[c] == RefNumber(clean, c)
  }

  /** How the reference map evolves past line `i`. */
  lemma RefsStep(clean: seq<string>, i: nat, refs: map<string, nat>)
    requires i < |clean| && RefsAgree(clean, i, refs)
    ensures var c := clean[i];
      (Repeated(clean, c) && c !in refs ==>
         RefsAgree(clean, i + 1, refs[c := |RepSet(clean, i)| + 1]) &&
         |RepSet(clean, i + 1)| == |RepSet(clean, i)| + 1) &&
      (!Repeated(clean, c) || c in refs ==> RefsAgree(clean, i + 1, refs))
  {
    var c := clean[i];
    RepSetStep(clean, i);
    if Repeated(clean, c) && c !in refs {
      var refs' := refs[c := |RepSet(clean, i)| + 1];
      assert RepSet(clean, i + 1) == RepSet(clean, i) + {c};
      assert refs'.Keys == RepSet(clean, i + 1);
      forall d | d in refs' ensures d in clean && refs'[d] == RefNumber(clean, d) {
        if d != c {
          assert d in refs;
        }
      }
    }
  }

  /** One step of the second pass: the line it emits is the tagged line. */
  lemma TagStep(lines: seq<string>, i: nat, refs: map<string, nat>, counter: nat, repeated: bool)
    requires i < |lines|
    requires RefsAgree(StripAll(lines), i, refs) && counter == |RepSet(StripAll(lines), i)| + 1
    requires repeated == Repeated(StripAll(lines), Strip(lines[i]))
    ensures var c := Strip(lines[i]);
      Tagged(lines, i) ==
        if !repeated then lines[i]
        else if c !in refs then RefTag(counter) + ": " + lines[i]
        else Spaces(|lines[i]| - |LStrip(lines[i])|) + RefTag(refs[c])
  {
    TaggedCases(lines, i);
  }

  /** The three shapes a tagged line can take, by the state before it. */
  lemma TaggedCases(lines: seq<string>, i: nat)
    requires i < |lines|
    ensures var clean := StripAll(lines);
      var c := Strip(lines[i]);
      c == clean[i] && c in clean &&
      (!Repeated(clean, c) ==> Tagged(lines, i) == lines[i]) &&
      (Repeated(clean, c) && c !in RepSet(clean, i) ==>
         Tagged(lines, i) == RefTag(|RepSet(clean, i)| + 1) + ": " + lines[i]) &&
      (Repeated(clean, c) && c in RepSet(clean, i) ==>
         Tagged(lines, i) == Spaces(|lines[i]| - |LStrip(lines[i])|) + RefTag(RefNumber(clean, c)))
  {
    RepSetStep(StripAll(lines), i);
  }

  lemma {:induction false} CountPositive(clean: seq<string>, k: nat)
    requires k < |clean|
    ensures Count(clean, clean[k]) > 0
    decreases |clean|
  {
    if k < |clean| - 1 {
      assert clean[..|clean| - 1][k] == clean[k];
      CountPositive(clean[..|clean| - 1], k);
    }
  }

  lemma {:induction false} RepSetMember(clean: seq<string>, i: nat, c: string)
    requires i <= |clean|
    ensures c in RepSet(clean, i) <==> Repeated(clean, c) && c in clean[..i]
    decreases i
  {
    if i > 0 {
      RepSetMember(clean, i - 1, c);
      assert clean[..i] == clean[..i - 1] + [clean[i - 1]];
    }
  }

  lemma {:induction false} RepSetMono(clean: seq<string>, i: nat, j: nat)
    requires i <= j <= |clean|
    ensures RepSet(clean, i) <= RepSet(clean, j)
    decreases j - i
  {
    if i < j {
      RepSetMono(clean, i, j - 1);
    }
  }

  /** How the seen set and the numbering evolve past line `i`. */
  lemma RepSetStep(clean: seq<string>, i: nat)
    requires i < |clean|
    ensures var c := clean[i];
      c in clean &&
      (Repeated(clean, c) && c !in RepSet(clean, i) ==>
         |RepSet(clean, i + 1)| == |RepSet(clean, i)| + 1 && RefNumber(clean, c) == |RepSet(clean, i)| + 1) &&
      (!Repeated(clean, c) || c in RepSet(clean, i) ==> RepSet(clean, i + 1) == RepSet(clean, i))
  {
    var c := clean[i];
    if Repeated(clean, c) && c !in RepSet(clean, i) {
      RepSetMember(clean, i, c);
      var j := FirstIndex(clean, c);
    }
  }

  /** A repeated text enters the seen set right after its first occurrence. */
  lemma FirstOccurrence(clean: seq<string>, c: string, k: nat)
    requires k < |clean| && clean[k] == c && Repeated(clean, c)
    ensures var j := FirstIndex(clean, c);
      j <= k && c !in RepSet(clean, j) && c in RepSet(clean, j + 1) &&
      (c in RepSet(clean, k) <==> j < k)
  {
    var j := FirstIndex(clean, c);
    RepSetMember(clean, j, c);
    RepSetMember(clean, j + 1, c);
    RepSetMember(clean, k, c);
    assert clean[..j + 1] == clean[..j] + [c];
    if j < k {
      assert clean[j] in clean[..k];
    } else {
      assert clean[..k] == clean[..j];
    }
  }

  // ---------------------------------------------------------------------------
  // properties of the numbering and of the tagged lines

  lemma NumberBelow(clean: seq<string>, c: string, j: nat, later: nat)
    requires j < later <= |clean| && clean[j] == c && Repeated(clean, c)
    requires c !in clean[..j]
    ensures |RepSet(clean, j)| < |RepSet(clean, later)|
  {
    RepSetMember(clean, j, c);
    var before := RepSet(clean, j);
    assert c !in before;
    assert RepSet(clean, j + 1) == before + {c};
    assert |before + {c}| == |before| + 1;
    RepSetMono(clean, j + 1, later);
    SubsetCardinality(before + {c}, RepSet(clean, later));
  }

  /** Different repeated texts get different reference numbers. */
  lemma RefNumberInjective(clean: seq<string>, c1: string, c2: string)
    requires c1 in clean && c2 in clean
    requires Repeated(clean, c1) && Repeated(clean, c2)
    requires RefNumber(clean, c1) == RefNumber(clean, c2)
    ensures c1 == c2
  {
    var j1 := FirstIndex(clean, c1);
    var j2 := FirstIndex(clean, c2);
    if j1 < j2 {
      NumberBelow(clean, c1, j1, j2);
    } else if j2 < j1 {
      NumberBelow(clean, c2, j2, j1);
    }
  }

  /** The numbers used are exactly 1 .. the number of repeated texts. */
  lemma RefNumberRange(clean: seq<string>, c: string)
    requires c in clean && Repeated(clean, c)
    ensures 1 <= RefNumber(clean, c) <= |RepSet(clean, |clean|)|
  {
    var j := FirstIndex(clean, c);
    NumberBelow(clean, c, j, |clean|);
  }

  /** Each tagged line: unchanged when its text occurs at most twice; for a
      repeated text, the definition `[REF_n]: line` at its first occurrence
      and the bare reference, indented as the line was, everywhere else; the
      definition comes first and carries the same number. */
  lemma TagLinesSpec(lines: seq<string>, k: nat)
    requires k < |lines|
    ensures var clean := StripAll(lines);
      var c := clean[k];
      var r := TagLines(lines);
      (!Repeated(clean, c) ==> r[k] == lines[k]) &&
      (Repeated(clean, c) ==>
         var j := FirstIndex(clean, c);
         var tag := RefTag(RefNumber(clean, c));
         j <= k && clean[j] == c &&
         r[j] == tag + ": " + lines[j] &&
         (j < k ==> r[k] == Spaces(IndentWidth(lines[k])) + tag))
  {
    var clean := StripAll(lines);
    var c := clean[k];
    if Repeated(clean, c) {
      FirstOccurrence(clean, c, k);
      var j := FirstIndex(clean, c);
      FirstOccurrence(clean, c, j);
    }
  }

  /** Content in which no line text occurs more than twice passes the
      tagging stage unchanged. */
  lemma TagLinesNoRepeats(lines: seq<string>)
    requires forall c :: c in StripAll(lines) ==> !Repeated(StripAll(lines), c)
    ensures TagLines(lines) == lines
  {
    var clean := StripAll(lines);
    forall k | 0 <= k < |lines| ensures TagLines(lines)[k] == lines[k] {
      assert clean[k] in clean;
    }
  }
}
