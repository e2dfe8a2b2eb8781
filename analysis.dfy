/** `analyze_content`: token estimate, repeated long lines, large fenced
    blocks, word density and the capped optimization potential. The
    `re.findall` results of the redundant patterns are an input
    (`redundantMatches`, already converted with `str`). */
module Analysis {
  import opened Text

  const CharsPerToken: nat := 4

  /** Only stripped lines longer than this are counted. */
  const MinLineLength: nat := 20

  /** A fenced block longer than this is reported. */
  const LargeBlockSize: nat := 1000

  const BlockPreviewLength: nat := 100

  /** The share of a large block counted as savings. */
  const BlockSavingsRate: real := 0.2

  /** The cap on the optimization potential. */
  const MaxPotential: real := 0.5

  datatype Section =
    | RepetitiveLine(content: string, count: nat, savings: nat)
    | LargeCodeBlock(content: string, size: nat, estimate: real)

  datatype ContentAnalysis = ContentAnalysis(
    totalTokens: nat,
    redundantPatterns: seq<string>,
    sections: seq<Section>,
    density: real,
    potential: real)

  // ---------------------------------------------------------------------------
  // the line counts, as the dictionary builds them

  /** The stripped lines longer than 20 characters, in order. */
  function LongLines(lines: seq<string>): (r: seq<string>)
    ensures forall k :: 0 <= k < |r| ==> |r[k]| > MinLineLength
    decreases |lines|
  {
    if |lines| == 0 then []
    else
      var t := Strip(lines[|lines| - 1]);
      LongLines(lines[..|lines| - 1]) + (if |t| > MinLineLength then [t] else [])
  }

  /** How often `x` occurs in `xs`. */
  function Count(xs: seq<string>, x: string): nat
    decreases |xs|
  {
    if |xs| == 0 then 0
    else Count(xs[..|xs| - 1], x) + (if xs[|xs| - 1] == x then 1 else 0)
  }

  /** The elements of `xs` in order of first occurrence: the keys of a
      dictionary filled from `xs`. */
  function Distinct(xs: seq<string>): seq<string>
    decreases |xs|
  {
    if |xs| == 0 then []
    else
      var d := Distinct(xs[..|xs| - 1]);
      if xs[|xs| - 1] in d then d else d + [xs[|xs| - 1]]
  }

  /** `len(line) * (count - 1)`: the characters saved by keeping one copy. */
  function LineSavings(length: nat, count: nat): nat
    requires count >= 1
  {
    length * (count - 1)
  }

  /** The `repetitive_line` sections for the given keys: a line seen more than
      twice saves its length once per extra occurrence. */
  function Repetitives(long: seq<string>, keys: seq<string>): seq<Section>
    decreases |keys|
  {
    if |keys| == 0 then []
    else
      var n := Count(long, keys[0]);
      (if n > 2 then [RepetitiveLine(keys[0], n, LineSavings(|keys[0]|, n))] else []) +
      Repetitives(long, keys[1..])
  }

  /** The `large_code_block` sections: the first 100 characters and `...`,
      the size, and a fifth of the size as savings. */
  function LargeBlocks(blocks: seq<string>): seq<Section>
    decreases |blocks|
  {
    if |blocks| == 0 then []
    else
      var b := blocks[0];
      (if |b| > LargeBlockSize then [LargeCodeBlock(b[..BlockPreviewLength] + "...", |b|, |b| as real * BlockSavingsRate)] else []) +
      LargeBlocks(blocks[1..])
  }

  function SumLengths(ps: seq<string>): nat
    decreases |ps|
  {
    if |ps| == 0 then 0 else |ps[0]| + SumLengths(ps[1..])
  }

  function Savings(s: Section): real {
    match s
    case RepetitiveLine(_, _, n) => n as real
    case LargeCodeBlock(_, _, r) => r
  }

  function SumSavings(sections: seq<Section>): real
    decreases |sections|
  {
    if |sections| == 0 then 0.0 else Savings(sections[0]) + SumSavings(sections[1..])
  }

  function Sections(content: string): seq<Section> {
    var long := LongLines(Split(content, '\n'));
    Repetitives(long, Distinct(long)) + LargeBlocks(Fences(content))
  }

  /** Distinct words per character; 0 for empty content. */
  function Density(content: string): (r: real)
    ensures 0.0 <= r <= 1.0
    ensures content == "" ==> r == 0.0
  {
    if |content| == 0 then 0.0
    else
      WordsBound(content);
      Ratio(|Words(content)|, |content|)
  }

  /** `a / b` for `a <= b`. */
  function Ratio(a: nat, b: nat): (r: real)
    requires 0 < b && a <= b
    ensures 0.0 <= r <= 1.0
  {
    var q := a as real / b as real;
    assert q * b as real == a as real;
    q
  }

  /** The redundancy share plus the repetition share, capped at one half. */
  function Potential(size: nat, redundantLength: nat, savings: real): (r: real)
    ensures r <= MaxPotential
    ensures savings >= 0.0 ==> 0.0 <= r
    ensures size == 0 ==> r == 0.0
  {
    var redundancy := if size == 0 then 0.0 else redundantLength as real / size as real;
    var repetition := if size == 0 then 0.0 else savings / size as real;
    assert savings >= 0.0 ==> redundancy + repetition >= 0.0;
    if redundancy + repetition < MaxPotential then redundancy + repetition else MaxPotential
  }

  /** `analyze_content` as a function of its input. */
  function Analyze(content: string, redundantMatches: seq<string>): ContentAnalysis {
    var sections := Sections(content);
    ContentAnalysis(
      |content| / CharsPerToken, redundantMatches, sections, Density(content),
      Potential(|content|, SumLengths(redundantMatches), SumSavings(sections)))
  }

  method AnalyzeContent(content: string, redundantMatches: seq<string>) returns (analysis: ContentAnalysis)
    ensures analysis == Analyze(content, redundantMatches)
  {
    var estimatedTokens := |content| / CharsPerToken;
    var lines := Split(content, '\n');
    var keys, lineCounts := CountLines(lines);
    var compressibleSections := RepetitiveSections(LongLines(lines), keys, lineCounts);
    var blockSections := LargeBlockSections(Fences(content));
    compressibleSections := compressibleSections + blockSections;
    var semanticDensity := Density(content);
    var redundancyScore := if |content| == 0 then 0.0 else SumLengths(redundantMatches) as real / |content| as real;
    var repetitionScore := if |content| == 0 then 0.0 else SumSavings(compressibleSections) / |content| as real;
    var optimizationPotential := redundancyScore + repetitionScore;
    if MaxPotential <= optimizationPotential {
      optimizationPotential := MaxPotential;
    }
    assert optimizationPotential == Potential(|content|, SumLengths(redundantMatches), SumSavings(compressibleSections));
    analysis := ContentAnalysis(estimatedTokens, redundantMatches, compressibleSections, semanticDensity, optimizationPotential);
  }

  /** The dictionary `line_counts` holds the count of every long line, and
      nothing else. */
  ghost predicate Tally(long: seq<string>, lineCounts: map<string, nat>) {
    (forall c :: c in lineCounts <==> c in long) &&
    (forall c :: c in lineCounts ==> lineCounts[c] == Count(long, c))
  }

  /** The counting loop. A Python dictionary keeps its insertion order, so it
      is modelled by the map and the sequence of its keys. */
  method CountLines(lines: seq<string>) returns (keys: seq<string>, lineCounts: map<string, nat>)
    ensures keys == Distinct(LongLines(lines))
    ensures Tally(LongLines(lines), lineCounts)
  {
    keys := [];
    lineCounts := map[];
    var i := 0;
    while i < |lines|
      invariant 0 <= i <= |lines|
      invariant keys == Distinct(LongLines(lines[..i]))
      invariant Tally(LongLines(lines[..i]), lineCounts)
    {
      var lineClean := Strip(lines[i]);
      var long := LongLines(lines[..i]);
      LongLinesSnoc(lines, i);
      if |lineClean| > MinLineLength {
        keys, lineCounts := CountLine(long, keys, lineCounts, lineClean);
        assert LongLines(lines[..i + 1]) == long + [lineClean];
      } else {
        assert LongLines(lines[..i + 1]) == long;
      }
      i := i + 1;
    }
    assert lines[..i] == lines;
  }

  /** `line_counts[line_clean] = line_counts.get(line_clean, 0) + 1`. */
  method CountLine(long: seq<string>, keys: seq<string>, lineCounts: map<string, nat>, lineClean: string)
    returns (keys': seq<string>, lineCounts': map<string, nat>)
    requires keys == Distinct(long)
    requires Tally(long, lineCounts)
    ensures keys' == Distinct(long + [lineClean])
    ensures Tally(long + [lineClean], lineCounts')
  {
    TallyStep(long, lineCounts, keys, lineClean);
    var seen := if lineClean in lineCounts then lineCounts[lineClean] else 0;
    keys' := keys;
    if lineClean !in lineCounts {
      keys' := keys + [lineClean];
    }
    lineCounts' := lineCounts[lineClean := seen + 1];
  }

  lemma LongLinesSnoc(lines: seq<string>, i: nat)
    requires i < |lines|
    ensures |Strip(lines[i])| > MinLineLength ==> LongLines(lines[..i + 1]) == LongLines(lines[..i]) + [Strip(lines[i])]
    ensures |Strip(lines[i])| <= MinLineLength ==> LongLines(lines[..i + 1]) == LongLines(lines[..i])
  {
    assert lines[..i + 1][..i] == lines[..i];
    assert lines[..i + 1][i] == lines[i];
  }

  /** The loop over `line_counts.items()`. */
  method RepetitiveSections(long: seq<string>, keys: seq<string>, lineCounts: map<string, nat>)
    returns (sections: seq<Section>)
    requires keys == Distinct(long)
    requires Tally(long, lineCounts)
    ensures sections == Repetitives(long, keys)
  {
    DistinctMembers(long);
    sections := [];
    var j := 0;
    while j < |keys|
      invariant 0 <= j <= |keys|
      invariant sections + Repetitives(long, keys[j..]) == Repetitives(long, keys)
    {
      assert keys[j..][1..] == keys[j + 1..];
      var line := keys[j];
      assert line in long;
      var count := lineCounts[line];
      assert count == Count(long, line);
      var head: seq<Section> := if count > 2 then [RepetitiveLine(line, count, LineSavings(|line|, count))] else [];
      assert Repetitives(long, keys[j..]) == head + Repetitives(long, keys[j + 1..]);
      sections := sections + head;
      j := j + 1;
    }
  }

  /** The loop over the fenced blocks. */
  method LargeBlockSections(blocks: seq<string>) returns (sections: seq<Section>)
    ensures sections == LargeBlocks(blocks)
  {
    sections := [];
    var j := 0;
    while j < |blocks|
      invariant 0 <= j <= |blocks|
      invariant sections + LargeBlocks(blocks[j..]) == LargeBlocks(blocks)
    {
      assert blocks[j..][1..] == blocks[j + 1..];
      var block := blocks[j];
      var head: seq<Section> := [];
      if |block| > LargeBlockSize {
        head := [LargeCodeBlock(block[..BlockPreviewLength] + "...", |block|, |block| as real * BlockSavingsRate)];
      }
      assert LargeBlocks(blocks[j..]) == head + LargeBlocks(blocks[j + 1..]);
      sections := sections + head;
      j := j + 1;
    }
  }

  // ---------------------------------------------------------------------------
  // properties

  /** One more long line: its count goes up by one and it joins the keys the
      first time it is seen. */
  lemma TallyStep(long: seq<string>, lineCounts: map<string, nat>, keys: seq<string>, x: string)
    requires keys == Distinct(long)
    requires Tally(long, lineCounts)
    ensures var seen := if x in lineCounts then lineCounts[x] else 0;
      Tally(long + [x], lineCounts[x := seen + 1]) &&
      Distinct(long + [x]) == if x in lineCounts then keys else keys + [x]
  {
    var long' := long + [x];
    assert long'[..|long'| - 1] == long;
    DistinctMembers(long);
    forall c ensures Count(long', c) == Count(long, c) + (if c == x then 1 else 0) {
    }
    if x !in lineCounts {
      CountZero(long, x);
    }
  }

  lemma {:induction false} CountZero(xs: seq<string>, x: string)
    requires x !in xs
    ensures Count(xs, x) == 0
    decreases |xs|
  {
    if |xs| > 0 {
      CountZero(xs[..|xs| - 1], x);
    }
  }

  lemma {:induction false} CountPositive(xs: seq<string>, x: string)
    requires x in xs
    ensures Count(xs, x) > 0
    decreases |xs|
  {
    if xs[|xs| - 1] != x {
      var p := xs[..|xs| - 1];
      assert x in p by {
        var k :| 0 <= k < |xs| && xs[k] == x;
        assert p[k] == x;
      }
      CountPositive(p, x);
    }
  }

  /** The keys are exactly the elements. */
  lemma {:induction false} DistinctMembers(xs: seq<string>)
    ensures forall x :: x in Distinct(xs) <==> x in xs
    decreases |xs|
  {
    if |xs| > 0 {
      var p := xs[..|xs| - 1];
      DistinctMembers(p);
      assert xs == p + [xs[|xs| - 1]];
    }
  }

  /** No key appears twice. */
  lemma {:induction false} DistinctUnique(xs: seq<string>)
    ensures forall i, j :: 0 <= i < j < |Distinct(xs)| ==> Distinct(xs)[i] != Distinct(xs)[j]
    decreases |xs|
  {
    if |xs| > 0 {
      var p := xs[..|xs| - 1];
      DistinctUnique(p);
      var d := Distinct(p);
      var x := xs[|xs| - 1];
      assert Distinct(xs) == if x in d then d else d + [x];
      if x !in d {
        var d' := d + [x];
        forall i, j | 0 <= i < j < |d'| ensures d'[i] != d'[j] {
          if j == |d| {
            assert d'[i] == d[i];
          }
        }
      }
    }
  }

  /** A `repetitive_line` section is made exactly for each key counted more
      than twice, with that count and `len * (count - 1)` as savings. */
  lemma {:induction false} RepetitivesSpec(long: seq<string>, keys: seq<string>, c: string, n: nat, s: nat)
    ensures RepetitiveLine(c, n, s) in Repetitives(long, keys) <==>
      c in keys && n == Count(long, c) && n > 2 && s == LineSavings(|c|, n)
    decreases |keys|
  {
    if |keys| > 0 {
      RepetitivesSpec(long, keys[1..], c, n, s);
      assert keys == [keys[0]] + keys[1..];
    }
  }

  lemma {:induction false} LargeBlocksShape(blocks: seq<string>)
    ensures forall k :: 0 <= k < |LargeBlocks(blocks)| ==>
      LargeBlocks(blocks)[k].LargeCodeBlock? && LargeBlocks(blocks)[k].estimate >= 0.0
    decreases |blocks|
  {
    if |blocks| > 0 {
      LargeBlocksShape(blocks[1..]);
    }
  }

  /** A `large_code_block` section is made exactly for each fenced block
      longer than 1000 characters. */
  lemma {:induction false} LargeBlocksSpec(blocks: seq<string>, p: string, size: nat, r: real)
    ensures LargeCodeBlock(p, size, r) in LargeBlocks(blocks) <==>
      exists k :: 0 <= k < |blocks| && |blocks[k]| > LargeBlockSize && size == |blocks[k]| &&
        p == blocks[k][..BlockPreviewLength] + "..." && r == size as real * BlockSavingsRate
    decreases |blocks|
  {
    if |blocks| > 0 {
      LargeBlocksSpec(blocks[1..], p, size, r);
      var b := blocks[0];
      var head := if |b| > LargeBlockSize then [LargeCodeBlock(b[..BlockPreviewLength] + "...", |b|, |b| as real * BlockSavingsRate)] else [];
      assert LargeBlocks(blocks) == head + LargeBlocks(blocks[1..]);
      if LargeCodeBlock(p, size, r) in head {
        assert 0 <= 0 < |blocks| && |blocks[0]| > LargeBlockSize;
      } else if LargeCodeBlock(p, size, r) in LargeBlocks(blocks[1..]) {
        var k :| 0 <= k < |blocks[1..]| && |blocks[1..][k]| > LargeBlockSize && size == |blocks[1..][k]| &&
          p == blocks[1..][k][..BlockPreviewLength] + "..." && r == size as real * BlockSavingsRate;
        assert blocks[k + 1] == blocks[1..][k];
      }
      if exists k :: (0 <= k < |blocks| && |blocks[k]| > LargeBlockSize && size == |blocks[k]| &&
                      p == blocks[k][..BlockPreviewLength] + "..." && r == size as real * BlockSavingsRate) {
        var k :| 0 <= k < |blocks| && |blocks[k]| > LargeBlockSize && size == |blocks[k]| &&
          p == blocks[k][..BlockPreviewLength] + "..." && r == size as real * BlockSavingsRate;
        if k > 0 {
          assert blocks[1..][k - 1] == blocks[k];
        }
      }
    }
  }

  /** Counting the long lines is counting the stripped lines, for any line
      longer than 20 characters. */
  lemma {:induction false} LongCount(lines: seq<string>, c: string)
    requires |c| > MinLineLength
    ensures Count(LongLines(lines), c) == Count(StripAll(lines), c)
    decreases |lines|
  {
    if |lines| > 0 {
      var p := lines[..|lines| - 1];
      LongCount(p, c);
      var t := Strip(lines[|lines| - 1]);
      var long := LongLines(lines);
      var tail := if |t| > MinLineLength then [t] else [];
      assert long == LongLines(p) + tail;
      CountAppend(LongLines(p), tail, c);
      var all := StripAll(lines);
      assert all[..|all| - 1] == StripAll(p);
    }
  }

  lemma {:induction false} CountAppend(a: seq<string>, b: seq<string>, x: string)
    requires |b| <= 1
    ensures Count(a + b, x) == Count(a, x) + (if |b| == 1 && b[0] == x then 1 else 0)
  {
    if |b| == 1 {
      assert (a + b)[..|a + b| - 1] == a;
    } else {
      assert a + b == a;
    }
  }

  /** The repeated-line sections of `analyze_content`: one per stripped line
      longer than 20 characters that occurs more than twice, carrying that
      count and `len * (count - 1)`, and no line reported twice. */
  lemma RepetitiveSectionsSpec(content: string, c: string, n: nat, s: nat)
    ensures var lines := Split(content, '\n');
      RepetitiveLine(c, n, s) in Analyze(content, []).sections <==>
        |c| > MinLineLength && n == Count(StripAll(lines), c) && n > 2 && s == LineSavings(|c|, n)
  {
    var lines := Split(content, '\n');
    var long := LongLines(lines);
    var keys := Distinct(long);
    RepetitivesSpec(long, keys, c, n, s);
    DistinctMembers(long);
    LargeBlocksShape(Fences(content));
    var blocks := LargeBlocks(Fences(content));
    assert RepetitiveLine(c, n, s) !in blocks;
    if c in long {
      var k :| 0 <= k < |long| && long[k] == c;
      assert |long[k]| > MinLineLength;
      LongCount(lines, c);
    }
    if |c| > MinLineLength && n == Count(StripAll(lines), c) && n > 2 {
      LongCount(lines, c);
      if c !in long {
        CountZero(long, c);
      }
    }
  }

  lemma RepetitiveSectionsUnique(content: string)
    ensures var sections := Analyze(content, []).sections;
      forall i, j :: 0 <= i < j < |sections| && sections[i].RepetitiveLine? && sections[j].RepetitiveLine? ==>
        sections[i].content != sections[j].content
  {
    var long := LongLines(Split(content, '\n'));
    var keys := Distinct(long);
    DistinctUnique(long);
    RepetitivesUnique(long, keys);
    LargeBlocksShape(Fences(content));
  }

  /** Every repeated-line section comes from one of the keys. */
  lemma {:induction false} RepetitivesFrom(long: seq<string>, keys: seq<string>)
    ensures forall i :: 0 <= i < |Repetitives(long, keys)| ==>
      Repetitives(long, keys)[i].RepetitiveLine? && Repetitives(long, keys)[i].content in keys
    decreases |keys|
  {
    if |keys| > 0 {
      RepetitivesFrom(long, keys[1..]);
      var n := Count(long, keys[0]);
      var head: seq<Section> := if n > 2 then [RepetitiveLine(keys[0], n, LineSavings(|keys[0]|, n))] else [];
      var rest := Repetitives(long, keys[1..]);
      assert Repetitives(long, keys) == head + rest;
      forall i | 0 <= i < |head + rest| ensures (head + rest)[i].RepetitiveLine? && (head + rest)[i].content in keys {
        if i >= |head| {
          var j :| 0 <= j < |keys[1..]| && keys[1..][j] == rest[i - |head|].content;
          assert keys[j + 1] == keys[1..][j];
        }
      }
    }
  }

  /** Distinct keys give sections with distinct lines. */
  lemma {:induction false} RepetitivesUnique(long: seq<string>, keys: seq<string>)
    requires forall i, j :: 0 <= i < j < |keys| ==> keys[i] != keys[j]
    ensures forall i, j :: 0 <= i < j < |Repetitives(long, keys)| ==>
      Repetitives(long, keys)[i].content != Repetitives(long, keys)[j].content
    decreases |keys|
  {
    if |keys| > 0 {
      var rest := keys[1..];
      RepetitivesUnique(long, rest);
      RepetitivesFrom(long, rest);
      assert keys[0] !in rest by {
        forall j | 0 <= j < |rest| ensures rest[j] != keys[0] {
          assert rest[j] == keys[j + 1];
        }
      }
      var n := Count(long, keys[0]);
      var head: seq<Section> := if n > 2 then [RepetitiveLine(keys[0], n, LineSavings(|keys[0]|, n))] else [];
      var r := Repetitives(long, rest);
      assert Repetitives(long, keys) == head + r;
      forall i, j | 0 <= i < j < |head + r| ensures (head + r)[i].content != (head + r)[j].content {
        if i < |head| {
          assert (head + r)[j] == r[j - 1];
        } else {
          assert (head + r)[i] == r[i - |head|] && (head + r)[j] == r[j - |head|];
        }
      }
    }
  }

  /** The large-block sections of `analyze_content`: one per fenced block
      longer than 1000 characters. */
  lemma LargeBlockSectionsSpec(content: string, p: string, size: nat, r: real)
    ensures LargeCodeBlock(p, size, r) in Analyze(content, []).sections <==>
      exists k :: 0 <= k < |Fences(content)| && |Fences(content)[k]| > LargeBlockSize && size == |Fences(content)[k]| &&
        p == Fences(content)[k][..BlockPreviewLength] + "..." && r == size as real * BlockSavingsRate
  {
    var long := LongLines(Split(content, '\n'));
    RepetitivesFrom(long, Distinct(long));
    LargeBlocksSpec(Fences(content), p, size, r);
  }

  lemma {:induction false} SumSavingsNonNegative(sections: seq<Section>)
    requires forall k :: 0 <= k < |sections| ==> Savings(sections[k]) >= 0.0
    ensures SumSavings(sections) >= 0.0
    decreases |sections|
  {
    if |sections| > 0 {
      SumSavingsNonNegative(sections[1..]);
    }
  }

  /** The token estimate is a quarter of the length, the density lies in
      [0, 1] and is 0 for empty content, and the potential lies in [0, 0.5]
      and is 0 for empty content. */
  lemma AnalyzeBounds(content: string, redundantMatches: seq<string>)
    ensures var a := Analyze(content, redundantMatches);
      a.totalTokens * 4 <= |content| < a.totalTokens * 4 + 4 &&
      0.0 <= a.density <= 1.0 &&
      (content == "" ==> a.density == 0.0 && a.potential == 0.0) &&
      0.0 <= a.potential <= MaxPotential
  {
    var long := LongLines(Split(content, '\n'));
    RepetitivesFrom(long, Distinct(long));
    LargeBlocksShape(Fences(content));
    SumSavingsNonNegative(Sections(content));
  }
}
