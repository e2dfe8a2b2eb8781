/** The `whitespace_optimization` strategy (`compress_whitespace`): four
    passes over the text, each a regular-expression rewrite or a per-line
    `rstrip`, and a fixed preservation score of 1.0. */
module Whitespace {
  import opened Text

  // ---------------------------------------------------------------------------
  // pass 1: `re.sub(r'\r\n|\r', '\n', content)`

  function NormalizeLineEndings(s: string): (r: string)
    ensures '\r' !in r
    ensures forall c :: c in r ==> c in s || c == '\n'
    decreases |s|
  {
    if |s| == 0 then []
    else if s[0] == '\r' then
      if |s| > 1 && s[1] == '\n' then "\n" + NormalizeLineEndings(s[2..])
      else "\n" + NormalizeLineEndings(s[1..])
    else [s[0]] + NormalizeLineEndings(s[1..])
  }

  /** Text without carriage returns passes through unchanged. */
  lemma {:induction false} NormalizeFixpoint(s: string)
    requires '\r' !in s
    ensures NormalizeLineEndings(s) == s
    decreases |s|
  {
    if |s| > 0 {
      assert s[0] in s;
      assert forall c :: c in s[1..] ==> c in s;
      NormalizeFixpoint(s[1..]);
    }
  }

  // ---------------------------------------------------------------------------
  // pass 2: `re.sub(r'\n\s*\n\s*\n+', '\n\n', content)`

  function CollapseBlankLines(s: string): (r: string)
    ensures forall c :: c in r ==> c in s || c == '\n'
    decreases |s|
  {
    if |s| == 0 then []
    else match BlankMatchEnd(s, 3)
      case Some(e) => "\n\n" + CollapseBlankLines(s[e..])
      case None => [s[0]] + CollapseBlankLines(s[1..])
  }

  /** No position of `s` starts a match of `\n\s*\n\s*\n+`, i.e. no
      whitespace run holds three newlines counted from one of them. */
  predicate NoBlankRun(s: string)
    decreases |s|
  {
    |s| == 0 || (BlankMatchEnd(s, 3).None? && NoBlankRun(s[1..]))
  }

  /** Number of newlines in the leading whitespace run. */
  function LeadNewlines(s: string): nat {
    NewlineCount(s[..WsRunLen(s)])
  }

  lemma LeadStep(s: string)
    requires |s| > 0 && IsSpace(s[0])
    ensures LeadNewlines(s) == (if s[0] == '\n' then 1 else 0) + LeadNewlines(s[1..])
  {
    var n := WsRunLen(s[1..]);
    assert WsRunLen(s) == 1 + n;
    assert s[..1 + n] == [s[0]] + s[1..][..n];
  }

  lemma LeadNonSpace(s: string)
    requires |s| == 0 || !IsSpace(s[0])
    ensures LeadNewlines(s) == 0
  {
    assert WsRunLen(s) == 0;
  }

  /** A blank-run match leaves behind a whitespace run without newlines. */
  lemma AfterMatchLead(s: string, e: nat)
    requires BlankMatchEnd(s, 3) == Some(e)
    ensures LeadNewlines(s[e..]) == 0
  {
    var n := WsRunLen(s);
    var w := s[..n];
    assert e == AfterLastNewline(w) && e <= n;
    WsRunSuffix(s, e);
    var t := s[e..];
    assert t[..n - e] == w[e..] by {
      forall i | 0 <= i < n - e ensures t[..n - e][i] == w[e..][i] {
        assert t[i] == s[e + i];
      }
    }
    NoNewlines(w[e..]);
  }

  lemma NoNewlines(x: string)
    requires '\n' !in x
    ensures NewlineCount(x) == 0
  {
  }

  lemma {:induction false} WsRunSuffix(s: string, e: nat)
    requires e <= WsRunLen(s)
    ensures WsRunLen(s[e..]) == WsRunLen(s) - e
    decreases e
  {
    if e > 0 {
      assert s[e..] == s[1..][e - 1..];
      WsRunSuffix(s[1..], e - 1);
    }
  }

  /** The collapse leaves a leading run with fewer than three newlines alone. */
  lemma {:induction false} CollapseLead(t: string)
    requires LeadNewlines(t) < 3
    ensures LeadNewlines(CollapseBlankLines(t)) == LeadNewlines(t)
    decreases |t|
  {
    if |t| > 0 {
      var out := CollapseBlankLines(t);
      if t[0] == '\n' {
        assert WsRunLen(t) > 0;
      }
      assert BlankMatchEnd(t, 3).None?;
      assert out == [t[0]] + CollapseBlankLines(t[1..]);
      if IsSpace(t[0]) {
        LeadStep(t);
        CollapseLead(t[1..]);
        assert out[1..] == CollapseBlankLines(t[1..]);
        LeadStep(out);
      } else {
        LeadNonSpace(t);
        LeadNonSpace(out);
      }
    } else {
      assert CollapseBlankLines(t) == t;
    }
  }

  /** After the collapse no whitespace run holds three newlines. */
  lemma {:induction false} CollapseNoBlankRun(s: string)
    ensures NoBlankRun(CollapseBlankLines(s))
    decreases |s|
  {
    if |s| > 0 {
      match BlankMatchEnd(s, 3)
      case Some(e) =>
        CollapseNoBlankRun(s[e..]);
        CollapseMatchStep(s, e);
      case None =>
        CollapseNoBlankRun(s[1..]);
        CollapseCopyStep(s);
    }
  }

  /** A match becomes two newlines followed by a collapsed rest that starts
      without newlines in its leading whitespace. */
  lemma CollapseMatchStep(s: string, e: nat)
    requires BlankMatchEnd(s, 3) == Some(e)
    requires NoBlankRun(CollapseBlankLines(s[e..]))
    ensures NoBlankRun(CollapseBlankLines(s))
  {
    var c := CollapseBlankLines(s[e..]);
    CollapseMatchOut(s, e);
    AfterMatchLead(s, e);
    CollapseLead(s[e..]);
    NewlineBeforeRun(c);
    NewlineBeforeRun("\n" + c);
  }

  /** A match is replaced by two newlines. */
  lemma CollapseMatchOut(s: string, e: nat)
    requires BlankMatchEnd(s, 3) == Some(e)
    ensures CollapseBlankLines(s) == "\n" + ("\n" + CollapseBlankLines(s[e..]))
  {
    var c := CollapseBlankLines(s[e..]);
    assert CollapseBlankLines(s) == "\n\n" + c;
    TwoNewlines(c);
  }

  lemma TwoNewlines(c: string)
    ensures "\n\n" + c == "\n" + ("\n" + c)
  {
  }

  /** A newline in front of text without a run of three, whose leading
      whitespace holds at most one newline, makes no run of three. */
  lemma NewlineBeforeRun(c: string)
    requires NoBlankRun(c) && LeadNewlines(c) < 2
    ensures NoBlankRun("\n" + c) && LeadNewlines("\n" + c) == 1 + LeadNewlines(c)
  {
    var t := "\n" + c;
    assert t[0] == '\n' && t[1..] == c;
    LeadStep(t);
    NoMatchBelowThree(t);
  }

  /** A leading whitespace run with fewer than three newlines starts no match. */
  lemma NoMatchBelowThree(t: string)
    requires LeadNewlines(t) < 3
    ensures BlankMatchEnd(t, 3).None?
  {
  }

  /** A character that starts no match is copied in front of the collapsed rest. */
  lemma CollapseCopyStep(s: string)
    requires |s| > 0 && BlankMatchEnd(s, 3).None?
    requires NoBlankRun(CollapseBlankLines(s[1..]))
    ensures NoBlankRun(CollapseBlankLines(s))
  {
    var out := CollapseBlankLines(s);
    var c := CollapseBlankLines(s[1..]);
    assert out == [s[0]] + c;
    assert out[1..] == c;
    if s[0] == '\n' {
      assert WsRunLen(s) > 0;
      LeadStep(s);
      CollapseLead(s[1..]);
      LeadStep(out);
    }
  }

  /** Text with no blank run of three newlines is left unchanged. */
  lemma {:induction false} CollapseFixpoint(s: string)
    requires NoBlankRun(s)
    ensures CollapseBlankLines(s) == s
    decreases |s|
  {
    if |s| > 0 {
      CollapseFixpoint(s[1..]);
    }
  }

  /** Collapsing twice is the same as collapsing once. */
  lemma CollapseIdempotent(s: string)
    ensures CollapseBlankLines(CollapseBlankLines(s)) == CollapseBlankLines(s)
  {
    CollapseNoBlankRun(s);
    CollapseFixpoint(CollapseBlankLines(s));
  }

  // ---------------------------------------------------------------------------
  // pass 3: `'\n'.join(line.rstrip() for line in content.split('\n'))`

  function RStripAll(lines: seq<string>): (r: seq<string>)
    ensures |r| == |lines|
    ensures forall k :: 0 <= k < |r| ==> r[k] == RStrip(lines[k])
  {
    seq(|lines|, k requires 0 <= k < |lines| => RStrip(lines[k]))
  }

  function StripTrailing(s: string): string {
    Join(RStripAll(Split(s, '\n')), "\n")
  }

  /** A line ends in whitespace when its last character is whitespace. */
  predicate CleanLine(l: string) {
    |l| == 0 || !IsSpace(l[|l| - 1])
  }

  /** Character-level form of "no line ends in whitespace": a whitespace
      character other than a newline is followed by something that is not a
      newline. */
  predicate NoTrailingBlank(s: string) {
    forall i :: 0 <= i < |s| && IsSpace(s[i]) && s[i] != '\n' ==> i + 1 < |s| && s[i + 1] != '\n'
  }

  /** The lines of the third pass's output are the stripped input lines. */
  lemma StripTrailingLines(s: string)
    ensures Split(StripTrailing(s), '\n') == RStripAll(Split(s, '\n'))
  {
    var lines := RStripAll(Split(s, '\n'));
    forall k | 0 <= k < |lines| ensures '\n' !in lines[k] {
      var l := Split(s, '\n')[k];
      RStripPrefix(l);
      assert lines[k] == l[..|lines[k]|];
      assert forall c :: c in l[..|lines[k]|] ==> c in l;
    }
    SplitJoin(lines, '\n');
  }

  /** So no line of the third pass's output ends in whitespace. */
  lemma StripTrailingClean(s: string)
    ensures forall l :: l in Split(StripTrailing(s), '\n') ==> CleanLine(l)
  {
    StripTrailingLines(s);
    var lines := RStripAll(Split(s, '\n'));
    forall l | l in lines ensures CleanLine(l) {
      var k :| 0 <= k < |lines| && lines[k] == l;
      StrippedClean(Split(s, '\n')[k], l);
    }
  }

  lemma StrippedClean(line: string, l: string)
    requires l == RStrip(line)
    ensures CleanLine(l)
  {
  }

  lemma NoTrailingBlankSuffix(s: string, k: nat)
    requires NoTrailingBlank(s) && k <= |s|
    ensures NoTrailingBlank(s[k..])
  {
    forall i | 0 <= i < |s[k..]| && IsSpace(s[k..][i]) && s[k..][i] != '\n'
      ensures i + 1 < |s[k..]| && s[k..][i + 1] != '\n'
    {
      assert s[k..][i] == s[k + i];
    }
  }

  lemma ConcatNoTrailingBlank(a: string, b: string)
    requires NoTrailingBlank(b)
    requires forall i :: 0 <= i < |a| - 1 && IsSpace(a[i]) && a[i] != '\n' ==> a[i + 1] != '\n'
    requires |a| > 0 && IsSpace(a[|a| - 1]) && a[|a| - 1] != '\n' ==> |b| > 0 && b[0] != '\n'
    ensures NoTrailingBlank(a + b)
  {
    var s := a + b;
    forall i | 0 <= i < |s| && IsSpace(s[i]) && s[i] != '\n' ensures i + 1 < |s| && s[i + 1] != '\n' {
      if i >= |a| {
        assert s[i] == b[i - |a|];
        assert s[i + 1] == b[i + 1 - |a|];
      }
    }
  }

  /** Joining clean, newline-free lines gives text without trailing blanks. */
  lemma {:induction false} JoinNoTrailingBlank(lines: seq<string>)
    requires forall k :: 0 <= k < |lines| ==> '\n' !in lines[k] && CleanLine(lines[k])
    ensures NoTrailingBlank(Join(lines, "\n"))
    decreases |lines|
  {
    if |lines| == 1 {
      var l := lines[0];
      forall i | 1 <= i < |l| ensures l[i] != '\n' { assert l[i] in l; }
      ConcatNoTrailingBlank(l, "");
      assert l + "" == l;
    } else if |lines| > 1 {
      var l := lines[0];
      JoinNoTrailingBlank(lines[1..]);
      forall i | 1 <= i < |l| ensures l[i] != '\n' { assert l[i] in l; }
      var rest := "\n" + Join(lines[1..], "\n");
      ConcatNoTrailingBlank("\n", Join(lines[1..], "\n"));
      ConcatNoTrailingBlank(l, rest);
      assert Join(lines, "\n") == l + rest;
    }
  }

  lemma StripTrailingNoTrailingBlank(s: string)
    ensures NoTrailingBlank(StripTrailing(s))
  {
    var lines := RStripAll(Split(s, '\n'));
    forall k | 0 <= k < |lines| ensures '\n' !in lines[k] && CleanLine(lines[k]) {
      var l := Split(s, '\n')[k];
      RStripPrefix(l);
      assert lines[k] == l[..|lines[k]|];
      assert forall c :: c in l[..|lines[k]|] ==> c in l;
    }
    JoinNoTrailingBlank(lines);
  }

  /** Every line of a text without trailing blanks is clean. */
  lemma {:induction false} NoTrailingBlankLines(s: string)
    requires NoTrailingBlank(s)
    ensures forall l :: l in Split(s, '\n') ==> CleanLine(l)
    decreases |s|
  {
    if |s| > 0 {
      NoTrailingBlankSuffix(s, 1);
      NoTrailingBlankLines(s[1..]);
      var rest := Split(s[1..], '\n');
      if s[0] != '\n' {
        var first := [s[0]] + rest[0];
        assert Split(s, '\n') == [first] + rest[1..];
        if |rest[0]| == 0 {
          SplitHead(s[1..]);
          assert !IsSpace(s[0]);
        } else {
          assert first[|first| - 1] == rest[0][|rest[0]| - 1];
          assert CleanLine(rest[0]);
        }
        forall l | l in Split(s, '\n') ensures CleanLine(l) {
          if l != first { assert l in rest; }
        }
      }
    }
  }

  /** The first line is empty exactly when the text is empty or starts with a newline. */
  lemma SplitHead(t: string)
    ensures |Split(t, '\n')[0]| == 0 <==> |t| == 0 || t[0] == '\n'
  {
  }

  lemma SplitChars(s: string, k: nat)
    requires k < |Split(s, '\n')|
    ensures forall c :: c in Split(s, '\n')[k] ==> c in s
    decreases |s|
  {
    if |s| > 0 {
      var rest := Split(s[1..], '\n');
      if s[0] == '\n' {
        if k > 0 { SplitChars(s[1..], k - 1); }
      } else {
        if k == 0 { SplitChars(s[1..], 0); } else { SplitChars(s[1..], k); }
      }
    }
  }

  lemma {:induction false} JoinChars(parts: seq<string>, sep: string)
    ensures forall c :: c in Join(parts, sep) ==> c in sep || exists k :: 0 <= k < |parts| && c in parts[k]
    decreases |parts|
  {
    if |parts| > 1 {
      JoinChars(parts[1..], sep);
      forall c | c in Join(parts, sep) ensures c in sep || exists k :: 0 <= k < |parts| && c in parts[k] {
        assert Join(parts, sep) == parts[0] + sep + Join(parts[1..], sep);
        if c in parts[0] {
        } else if c in sep {
        } else {
          var k :| 0 <= k < |parts[1..]| && c in parts[1..][k];
          assert c in parts[k + 1];
        }
      }
    } else if |parts| == 1 {
      assert Join(parts, sep) == parts[0];
    }
  }

  lemma StripTrailingChars(s: string)
    ensures forall c :: c in StripTrailing(s) ==> c in s || c == '\n'
  {
    var lines := RStripAll(Split(s, '\n'));
    JoinChars(lines, "\n");
    forall c | c in StripTrailing(s) ensures c in s || c == '\n' {
      if c != '\n' {
        var k :| 0 <= k < |lines| && c in lines[k];
        var l := Split(s, '\n')[k];
        RStripPrefix(l);
        assert lines[k] == l[..|lines[k]|];
        assert c in l;
        SplitChars(s, k);
      }
    }
  }

  // ---------------------------------------------------------------------------
  // pass 4: `[ \t]+` -> ' ' outside the fenced blocks ```...```, which are cut
  // out before and put back after

  predicate IsBlank(c: char) {
    c == ' ' || c == '\t'
  }

  function BlankRunLen(s: string): (n: nat)
    ensures n <= |s|
    ensures forall i :: 0 <= i < n ==> IsBlank(s[i])
    ensures n < |s| ==> !IsBlank(s[n])
    decreases |s|
  {
    if |s| > 0 && IsBlank(s[0]) then 1 + BlankRunLen(s[1..]) else 0
  }

  function SqueezeOutsideFences(s: string): (r: string)
    ensures |r| <= |s|
    ensures forall c :: c in r ==> c in s || c == ' '
    decreases |s|
  {
    if |s| == 0 then []
    else match FenceEnd(s)
      case Some(e) => s[..e] + SqueezeOutsideFences(s[e..])
      case None =>
        if IsBlank(s[0]) then " " + SqueezeOutsideFences(s[BlankRunLen(s)..])
        else [s[0]] + SqueezeOutsideFences(s[1..])
  }

  lemma SqueezeHead(t: string)
    requires |t| > 0
    ensures |SqueezeOutsideFences(t)| > 0
    ensures SqueezeOutsideFences(t)[0] == if IsBlank(t[0]) then ' ' else t[0]
  {
    match FenceEnd(t)
    case Some(e) =>
      assert t[0] == t[..3][0] == '`';
      assert SqueezeOutsideFences(t) == t[..e] + SqueezeOutsideFences(t[e..]);
    case None =>
      if IsBlank(t[0]) {
        assert SqueezeOutsideFences(t) == " " + SqueezeOutsideFences(t[BlankRunLen(t)..]);
      } else {
        assert SqueezeOutsideFences(t) == [t[0]] + SqueezeOutsideFences(t[1..]);
      }
  }

  /** Squeezing never puts a blank at the end of a line. */
  lemma {:induction false} SqueezeNoTrailingBlank(s: string)
    requires NoTrailingBlank(s)
    ensures NoTrailingBlank(SqueezeOutsideFences(s))
    decreases |s|
  {
    if |s| > 0 {
      match FenceEnd(s)
      case Some(e) =>
        NoTrailingBlankSuffix(s, e);
        SqueezeNoTrailingBlank(s[e..]);
        ConcatNoTrailingBlank(s[..e], SqueezeOutsideFences(s[e..]));
      case None =>
        if IsBlank(s[0]) {
          var n := BlankRunLen(s);
          NoTrailingBlankSuffix(s, n);
          SqueezeNoTrailingBlank(s[n..]);
          assert IsSpace(s[n - 1]);
          SqueezeHead(s[n..]);
          ConcatNoTrailingBlank(" ", SqueezeOutsideFences(s[n..]));
        } else {
          NoTrailingBlankSuffix(s, 1);
          SqueezeNoTrailingBlank(s[1..]);
          if IsSpace(s[0]) && s[0] != '\n' {
            SqueezeHead(s[1..]);
          }
          ConcatNoTrailingBlank([s[0]], SqueezeOutsideFences(s[1..]));
        }
    }
  }

  /** The fourth pass seen as a sequence of pieces: fenced blocks, runs of
      blanks and single other characters. */
  datatype Piece = Code(text: string) | Blanks(text: string) | Other(c: char)

  function Pieces(s: string): seq<Piece>
    decreases |s|
  {
    if |s| == 0 then []
    else match FenceEnd(s)
      case Some(e) => [Code(s[..e])] + Pieces(s[e..])
      case None =>
        if IsBlank(s[0]) then [Blanks(s[..BlankRunLen(s)])] + Pieces(s[BlankRunLen(s)..])
        else [Other(s[0])] + Pieces(s[1..])
  }

  function PieceText(p: Piece): string {
    match p
    case Code(t) => t
    case Blanks(t) => t
    case Other(c) => [c]
  }

  function Flatten(ps: seq<Piece>): string
    decreases |ps|
  {
    if |ps| == 0 then "" else PieceText(ps[0]) + Flatten(ps[1..])
  }

  function CodeTexts(ps: seq<Piece>): seq<string>
    decreases |ps|
  {
    if |ps| == 0 then []
    else if ps[0].Code? then [ps[0].text] + CodeTexts(ps[1..])
    else CodeTexts(ps[1..])
  }

  /** What the fourth pass does to each piece: blanks become one space. */
  function SqueezePiece(p: Piece): Piece {
    if p.Blanks? then Blanks(" ") else p
  }

  function SqueezePieces(ps: seq<Piece>): (r: seq<Piece>)
    ensures |r| == |ps| && forall k :: 0 <= k < |ps| ==> r[k] == SqueezePiece(ps[k])
  {
    seq(|ps|, k requires 0 <= k < |ps| => SqueezePiece(ps[k]))
  }

  /** The pieces cover the text exactly. */
  lemma {:induction false} PiecesCover(s: string)
    ensures Flatten(Pieces(s)) == s
    decreases |s|
  {
    if |s| > 0 {
      var n := PieceLen(s);
      var ps := Pieces(s);
      PiecesCover(s[n..]);
      assert ps[1..] == Pieces(s[n..]);
      assert Flatten(ps) == s[..n] + Flatten(Pieces(s[n..]));
      assert s[..n] + s[n..] == s;
    }
  }

  /** The code pieces are exactly the blocks `re.findall` cuts out, in order. */
  lemma {:induction false} PiecesCode(s: string)
    ensures CodeTexts(Pieces(s)) == Fences(s)
    decreases |s|
  {
    if |s| > 0 {
      var n := PieceLen(s);
      PiecesCode(s[n..]);
      assert Pieces(s)[1..] == Pieces(s[n..]);
      if FenceEnd(s).None? && IsBlank(s[0]) {
        FencesSkipBlanks(s, n);
      }
    }
  }

  /** Length of the first piece of a non-empty text. */
  function PieceLen(s: string): (n: nat)
    requires |s| > 0
    ensures 0 < n <= |s| && Pieces(s) == [Pieces(s)[0]] + Pieces(s[n..])
    ensures PieceText(Pieces(s)[0]) == s[..(n)]
  {
    match FenceEnd(s)
    case Some(e) => e
    case None => if IsBlank(s[0]) then BlankRunLen(s) else 1
  }

  lemma {:induction false} FencesSkipBlanks(s: string, n: nat)
    requires n <= |s| && forall i :: 0 <= i < n ==> IsBlank(s[i])
    ensures Fences(s) == Fences(s[n..])
    decreases n
  {
    if n > 0 {
      assert |s| >= 3 ==> s[..3][0] == s[0] != '`';
      assert FenceEnd(s).None?;
      assert s[1..][n - 1..] == s[n..];
      FencesSkipBlanks(s[1..], n - 1);
    }
  }

  /** The fourth pass puts every fenced block back verbatim, in its original
      order, and changes only the blank runs between them. */
  lemma {:induction false} SqueezeKeepsFences(s: string)
    ensures SqueezeOutsideFences(s) == Flatten(SqueezePieces(Pieces(s)))
    ensures CodeTexts(SqueezePieces(Pieces(s))) == Fences(s)
    decreases |s|
  {
    PiecesCode(s);
    SqueezeKeepsCode(Pieces(s));
    if |s| > 0 {
      var ps := Pieces(s);
      var n := PieceLen(s);
      SqueezeKeepsFences(s[n..]);
      assert ps[1..] == Pieces(s[n..]);
      assert SqueezePieces(ps)[1..] == SqueezePieces(ps[1..]);
    }
  }

  lemma {:induction false} SqueezeKeepsCode(ps: seq<Piece>)
    ensures CodeTexts(SqueezePieces(ps)) == CodeTexts(ps)
    decreases |ps|
  {
    if |ps| > 0 {
      SqueezeKeepsCode(ps[1..]);
      assert SqueezePieces(ps)[1..] == SqueezePieces(ps[1..]);
    }
  }

  // ---------------------------------------------------------------------------
  // a second squeeze finds nothing to do

  /** The three ways the fourth pass proceeds, one step each. */
  lemma SqueezeFenceStep(x: string, e: nat)
    requires |x| > 0 && FenceEnd(x) == Some(e)
    ensures SqueezeOutsideFences(x) == x[..e] + SqueezeOutsideFences(x[e..])
  {
  }

  lemma SqueezeBlankStep(x: string)
    requires |x| > 0 && FenceEnd(x).None? && IsBlank(x[0])
    ensures SqueezeOutsideFences(x) == " " + SqueezeOutsideFences(x[BlankRunLen(x)..])
  {
  }

  lemma SqueezeOtherStep(x: string)
    requires |x| > 0 && FenceEnd(x).None? && !IsBlank(x[0])
    ensures SqueezeOutsideFences(x) == [x[0]] + SqueezeOutsideFences(x[1..])
  {
  }

  /** No fence starts at a character other than a backtick. */
  lemma NoFenceAt(x: string)
    requires |x| > 0 && x[0] != '`'
    ensures FenceEnd(x).None?
  {
    if |x| >= 3 {
      assert x[..3][0] == x[0];
    }
  }

  /** `a + b` cut at `k`, for `k` past the end of `a`. */
  lemma PrefixPast(a: string, b: string, k: nat)
    requires |a| <= k <= |a| + |b|
    ensures (a + b)[..k] == a + b[..k - |a|]
  {
  }

  /** The squeezed text starts with the first `k` characters of `x`. */
  predicate KeepsPrefix(x: string, k: nat) {
    var r := SqueezeOutsideFences(x); k <= |x| && k <= |r| && r[..k] == x[..k]
  }

  /** Squeezing the text starting with `k` characters that are not blanks
      keeps those `k` characters. */
  lemma {:induction false} SqueezeKeepsPrefix(x: string, k: nat)
    requires NoBlankPrefix(x, k)
    ensures KeepsPrefix(x, k)
    decreases |x|
  {
    if k > 0 {
      var e := PieceEnd(x);
      if k > e {
        NoBlankPrefixDrop(x, e, k);
        SqueezeKeepsPrefix(x[e..], k - e);
        KeepsPrefixStep(x, e, k);
      } else {
        KeepsPrefixFirst(x, e, k);
      }
    }
  }

  /** Where the first piece of the squeeze ends: after a fenced block, or
      after one character. */
  function PieceEnd(x: string): (e: nat)
    requires |x| > 0
    ensures 0 < e <= |x|
  {
    match FenceEnd(x)
    case Some(e) => e
    case None => 1
  }

  /** One step of `SqueezeKeepsPrefix`. */
  lemma KeepsPrefixStep(x: string, e: nat, k: nat)
    requires 0 < k && NoBlankPrefix(x, k) && e == PieceEnd(x) && k > e
    requires KeepsPrefix(x[e..], k - e)
    ensures KeepsPrefix(x, k)
  {
    if FenceEnd(x).Some? {
      KeepsPrefixFence(x, e, k);
    } else {
      KeepsPrefixOther(x, k);
    }
  }

  /** The first `k` characters lie within the first piece. */
  lemma KeepsPrefixFirst(x: string, e: nat, k: nat)
    requires 0 < k && NoBlankPrefix(x, k) && e == PieceEnd(x) && k <= e
    ensures KeepsPrefix(x, k)
  {
    if FenceEnd(x).Some? {
      KeepsPrefixFence(x, e, k);
    } else {
      KeepsPrefixOther(x, k);
    }
  }

  lemma NoBlankPrefixDrop(x: string, e: nat, k: nat)
    requires NoBlankPrefix(x, k) && e <= k
    ensures NoBlankPrefix(x[e..], k - e)
  {
    assert forall i :: 0 <= i < k - e ==> x[e..][i] == x[e + i];
  }

  /** The fence step of `SqueezeKeepsPrefix`. */
  lemma KeepsPrefixFence(x: string, e: nat, k: nat)
    requires 0 < k <= |x| && FenceEnd(x) == Some(e)
    requires k > e ==> KeepsPrefix(x[e..], k - e)
    ensures KeepsPrefix(x, k)
  {
    SqueezeFenceStep(x, e);
    var rest := SqueezeOutsideFences(x[e..]);
    if k > e {
      PrefixPast(x[..e], rest, k);
      PrefixSplit(x, e, k);
    } else {
      PrefixWithin(x[..e], rest, k);
    }
  }

  /** The copying step of `SqueezeKeepsPrefix`. */
  lemma KeepsPrefixOther(x: string, k: nat)
    requires 0 < k <= |x| && FenceEnd(x).None? && !IsBlank(x[0])
    requires k > 1 ==> KeepsPrefix(x[1..], k - 1)
    ensures KeepsPrefix(x, k)
  {
    SqueezeOtherStep(x);
    var rest := SqueezeOutsideFences(x[1..]);
    PrefixPast([x[0]], rest, k);
    PrefixSplit(x, 1, k);
    assert x[..1] == [x[0]];
  }

  /** No blank among the first `k` characters. */
  predicate NoBlankPrefix(r: string, k: nat) {
    k <= |r| && forall i :: 0 <= i < k ==> !IsBlank(r[i])
  }

  lemma NoBlankPrefixTail(a: string, b: string, k: nat)
    requires |a| <= k && NoBlankPrefix(a + b, k)
    ensures NoBlankPrefix(b, k - |a|)
  {
    assert forall i :: 0 <= i < k - |a| ==> b[i] == (a + b)[|a| + i];
  }

  /** Conversely, where the squeezed text starts with `k` characters that are
      not blanks, the text starts with the same `k` characters. */
  lemma {:induction false} SqueezeRunBack(x: string, k: nat)
    requires NoBlankPrefix(SqueezeOutsideFences(x), k)
    ensures k <= |x| && x[..k] == SqueezeOutsideFences(x)[..k]
    decreases |x|
  {
    if k > 0 {
      var r := SqueezeOutsideFences(x);
      match FenceEnd(x)
      case Some(e) =>
        SqueezeFenceStep(x, e);
        var rest := SqueezeOutsideFences(x[e..]);
        if k > e {
          NoBlankPrefixTail(x[..e], rest, k);
          SqueezeRunBack(x[e..], k - e);
          PrefixPast(x[..e], rest, k);
          PrefixSplit(x, e, k);
        } else {
          PrefixWithin(x[..e], rest, k);
          assert r[..k] == x[..e][..k] == x[..k];
        }
      case None =>
        SqueezeNotBlankStep(x, r);
        var rest := SqueezeOutsideFences(x[1..]);
        NoBlankPrefixTail([x[0]], rest, k);
        SqueezeRunBack(x[1..], k - 1);
        PrefixPast([x[0]], rest, k);
        PrefixSplit(x, 1, k);
        assert x[..1] == [x[0]];
    }
  }

  /** `x[..k]` cut again at `e`. */
  lemma PrefixSplit(x: string, e: nat, k: nat)
    requires e <= k <= |x|
    ensures x[..k] == x[..e] + x[e..][..k - e]
  {
  }

  /** `a + b` cut at `k`, for `k` within `a`. */
  lemma PrefixWithin(a: string, b: string, k: nat)
    requires k <= |a|
    ensures (a + b)[..k] == a[..k]
  {
  }

  /** Where no fence starts and the squeezed text does not start with a
      blank, the first character is copied. */
  lemma SqueezeNotBlankStep(x: string, r: string)
    requires |r| > 0 && r == SqueezeOutsideFences(x) && FenceEnd(x).None? && !IsBlank(r[0])
    ensures |x| > 0 && !IsBlank(x[0]) && r == [x[0]] + SqueezeOutsideFences(x[1..])
  {
    if IsBlank(x[0]) {
      SqueezeBlankStep(x);
    }
  }

  /** The squeezed text opens with three backticks only where the text does. */
  lemma SqueezeTripleBack(q: string)
    ensures var v := SqueezeOutsideFences(q);
      |v| >= 3 && v[..3] == "```" ==> |q| >= 3 && q[..3] == "```"
  {
    var v := SqueezeOutsideFences(q);
    if |v| >= 3 && v[..3] == "```" {
      assert forall i :: 0 <= i < 3 ==> v[i] == v[..3][i];
      assert NoBlankPrefix(v, 3);
      SqueezeRunBack(q, 3);
    }
  }

  /** The first backtick of `x` is at `m`. */
  lemma {:induction false} BacktickAt(x: string, m: nat)
    requires m < |x| && '`' !in x[..m] && x[m] == '`'
    ensures BacktickIndex(x) == m
    decreases m
  {
    if m > 0 {
      assert x[0] == x[..m][0];
      assert x[1..][..m - 1] == x[1..m];
      assert forall c :: c in x[1..m] ==> c in x[..m];
      BacktickAt(x[1..], m - 1);
    }
  }

  /** Whether a fence starts here depends only on the text up to its end. */
  lemma FenceEndPrefix(s: string, t: string, e: nat)
    requires FenceEnd(s) == Some(e) && e <= |t| && t[..e] == s[..e]
    ensures FenceEnd(t) == Some(e)
  {
    var j := e - 3;
    assert t[..3] == s[..e][..3] == s[..3];
    assert t[3..][..j - 3] == t[3..j] == s[3..j];
    assert t[j] == s[..e][j] == s[j];
    BacktickAt(t[3..], j - 3);
    assert t[j..j + 3] == s[..e][j..j + 3] == s[j..j + 3];
  }

  /** A blank run that ends inside `p` is not lengthened by what follows. */
  lemma {:induction false} BlankRunAppend(p: string, q: string)
    requires |q| == 0 || !IsBlank(q[0])
    ensures BlankRunLen(p + q) == BlankRunLen(p)
    decreases |p|
  {
    if |p| > 0 {
      assert (p + q)[1..] == p[1..] + q;
      BlankRunAppend(p[1..], q);
    } else {
      assert p + q == q;
    }
  }

  /** A stretch without backticks holds no fence, so it is squeezed on its
      own. */
  lemma {:induction false} SqueezeTickFree(p: string, q: string)
    requires '`' !in p && (|q| == 0 || q[0] == '`')
    ensures SqueezeOutsideFences(p + q) == SqueezeOutsideFences(p) + SqueezeOutsideFences(q)
    decreases |p|
  {
    var s := p + q;
    if |p| == 0 {
      assert s == q;
      EmptyPrefix(SqueezeOutsideFences(q));
    } else {
      assert s[0] == p[0] && p[0] in p;
      NoFenceAt(s);
      NoFenceAt(p);
      var n := if IsBlank(p[0]) then BlankRunLen(p) else 1;
      var head := if IsBlank(p[0]) then " " else [p[0]];
      if IsBlank(p[0]) {
        BlankRunAppend(p, q);
        SqueezeBlankStep(s);
        SqueezeBlankStep(p);
      } else {
        SqueezeOtherStep(s);
        SqueezeOtherStep(p);
      }
      TickFreeTail(p, q, n);
      SqueezeTickFree(p[n..], q);
      var a, b := SqueezeOutsideFences(p[n..]), SqueezeOutsideFences(q);
      assert SqueezeOutsideFences(s) == head + (a + b);
      assert SqueezeOutsideFences(p) == head + a;
      AppendAssoc(head, a, b);
    }
  }

  lemma AppendAssoc(x: string, y: string, z: string)
    ensures x + (y + z) == (x + y) + z
  {
  }

  lemma TickFreeTail(p: string, q: string, n: nat)
    requires '`' !in p && n <= |p|
    ensures (p + q)[n..] == p[n..] + q && '`' !in p[n..]
  {
    assert forall c :: c in p[n..] ==> c in p;
  }

  /** An opening of three backticks followed by a character that is not a
      backtick, with no fence: the three backticks are copied. */
  lemma SqueezeOpening(s: string)
    requires |s| > 3 && s[..3] == "```" && s[3] != '`' && FenceEnd(s).None?
    ensures SqueezeOutsideFences(s) == "```" + SqueezeOutsideFences(s[3..])
  {
    OpeningTicks(s);
    var s1, s2, s3 := s[1..], s[2..], s[3..];
    assert s1[1..] == s2 && s2[1..] == s3 && s1[2] == s3[0] && s2[1] == s3[0];
    NoFenceBefore(s1, 2);
    NoFenceBefore(s2, 1);
    SqueezeOtherStep(s);
    SqueezeOtherStep(s1);
    SqueezeOtherStep(s2);
    ThreeTicks(SqueezeOutsideFences(s3));
  }

  /** No fence starts where one of the first three characters is not a
      backtick. */
  lemma NoFenceBefore(x: string, p: nat)
    requires p < 3 && p < |x| && x[p] != '`'
    ensures FenceEnd(x).None?
  {
    if |x| >= 3 {
      assert x[..3][p] == x[p];
    }
  }

  lemma ThreeTicks(r: string)
    ensures ['`'] + (['`'] + (['`'] + r)) == "```" + r
  {
  }

  /** A fence starts at an opening of three backticks exactly when the next
      backtick after it opens three more. */
  lemma FenceEndShape(t: string, j: nat)
    requires |t| >= 3 && t[..3] == "```" && j == 3 + BacktickIndex(t[3..])
    ensures FenceEnd(t).Some? <==> j + 3 <= |t| && t[j..j + 3] == "```"
  {
  }

  /** Three backticks, text without backticks, then `v`: a fence starts
      there only when `v` opens with three backticks. */
  lemma FenceAfterParts(t: string, u: string, v: string)
    requires '`' !in u && (|v| == 0 || v[0] == '`') && t == "```" + (u + v)
    ensures FenceEnd(t).Some? ==> |v| >= 3 && v[..3] == "```"
  {
    var w := u + v;
    assert t[..3] == "```" && t[3..] == w;
    if |v| > 0 {
      assert w[..|u|] == u && w[|u|] == v[0];
      BacktickAt(w, |u|);
    } else {
      assert w == u;
    }
    FenceEndShape(t, 3 + |u|);
    assert t[3 + |u|..] == v;
  }

  /** An opening of three backticks with text before the next backtick, and
      no fence: the squeezed text has no fence there either. */
  lemma SqueezeFenceAfterText(s: string, j: nat)
    requires |s| > 3 && s[..3] == "```" && j == 3 + BacktickIndex(s[3..]) && j > 3
    requires FenceEnd(s).None?
    ensures FenceEnd(SqueezeOutsideFences(s)).None?
  {
    var p, q := s[3..j], s[j..];
    assert s[3] == s[3..][0] != '`';
    SqueezeOpening(s);
    OpeningParts(s, j);
    SqueezeTickFree(p, q);
    var u, v := SqueezeOutsideFences(p), SqueezeOutsideFences(q);
    assert '`' !in u;
    if |q| > 0 {
      SqueezeHead(q);
    }
    SqueezeTripleBack(q);
    FenceEndShape(s, j);
    FenceAfterParts(SqueezeOutsideFences(s), u, v);
  }

  /** The text after the opening, cut at the next backtick. */
  lemma OpeningParts(s: string, j: nat)
    requires |s| >= 3 && j == 3 + BacktickIndex(s[3..])
    ensures s[3..] == s[3..j] + s[j..] && '`' !in s[3..j]
    ensures |s[j..]| == 0 || s[j..][0] == '`'
    ensures |s[j..]| >= 3 ==> j + 3 <= |s| && s[j..][..3] == s[j..j + 3]
  {
    assert s[3..j] == s[3..][..j - 3];
  }

  /** Where no fence starts, none starts in the squeezed text either. */
  lemma SqueezeFenceNone(s: string)
    requires |s| > 0 && !IsBlank(s[0]) && FenceEnd(s).None?
    ensures FenceEnd(SqueezeOutsideFences(s)).None?
  {
    var t := SqueezeOutsideFences(s);
    if |t| >= 3 && t[..3] == "```" {
      OpeningTicks(t);
      TicksNoBlank(t, 3);
      SqueezeRunBack(s, 3);
      var j := 3 + BacktickIndex(s[3..]);
      if j > 3 {
        SqueezeFenceAfterText(s, j);
      } else if |s| > 3 {
        SqueezeFenceSixTicks(s, t);
      }
    }
  }

  /** The first `k` characters are backticks. */
  predicate TickRun(t: string, k: nat) {
    k <= |t| && forall i :: 0 <= i < k ==> t[i] == '`'
  }

  /** A run of backticks holds no blank. */
  lemma TicksNoBlank(t: string, k: nat)
    requires TickRun(t, k)
    ensures NoBlankPrefix(t, k)
  {
  }

  /** Three backticks opening the text make a run of three. */
  lemma OpeningTicks(t: string)
    requires |t| >= 3 && t[..3] == "```"
    ensures TickRun(t, 3)
  {
    assert forall i :: 0 <= i < 3 ==> t[i] == t[..3][i];
  }

  /** An opening followed at once by a backtick is a run of four. */
  lemma FourTicks(t: string)
    requires |t| > 3 && t[..3] == "```" && BacktickIndex(t[3..]) == 0
    ensures TickRun(t, 4)
  {
    OpeningTicks(t);
    assert t[3] == t[3..][0];
  }

  /** Two openings in a row are a run of six. */
  lemma SixTicks(t: string)
    requires |t| >= 6 && t[..3] == "```" && t[3..6] == "```"
    ensures TickRun(t, 6)
  {
    OpeningTicks(t);
    assert forall i :: 3 <= i < 6 ==> t[i] == t[3..6][i - 3];
  }

  /** A run of six backticks holds a second opening at 3. */
  lemma SecondOpening(t: string)
    requires TickRun(t, 6)
    ensures t[3..6] == "```"
  {
  }

  /** The same first `k` characters make the same run of backticks. */
  lemma TickRunShared(s: string, t: string, k: nat)
    requires TickRun(s, k) && k <= |t| && t[..k] == s[..k]
    ensures TickRun(t, k)
  {
    assert forall i :: 0 <= i < k ==> t[i] == t[..k][i] == s[..k][i] == s[i];
  }

  /** After a run of four backticks the next backtick is at once. */
  lemma FourTicksOpen(t: string)
    requires TickRun(t, 4)
    ensures t[..3] == "```" && BacktickIndex(t[3..]) == 0
  {
    assert t[3..][0] == t[3];
  }

  /** Four backticks and no fence: the squeezed text does not open with
      six backticks. */
  lemma SqueezeFenceSixTicks(s: string, t: string)
    requires |s| > 3 && s[..3] == "```" && BacktickIndex(s[3..]) == 0
    requires FenceEnd(s).None? && t == SqueezeOutsideFences(s)
    ensures FenceEnd(t).None?
  {
    FourTicks(s);
    TicksNoBlank(s, 4);
    SqueezeKeepsPrefix(s, 4);
    TickRunShared(s, t, 4);
    FourTicksOpen(t);
    FenceEndShape(t, 3);
    FenceEndShape(s, 3);
    if |t| >= 6 && t[3..6] == "```" {
      SixTicks(t);
      TicksNoBlank(t, 6);
      SqueezeRunBack(s, 6);
      TickRunShared(t, s, 6);
      SecondOpening(s);
    }
  }

  /** Squeezing twice is the same as squeezing once. */
  lemma {:induction false} SqueezeIdempotent(s: string)
    ensures SqueezeOutsideFences(SqueezeOutsideFences(s)) == SqueezeOutsideFences(s)
    decreases |s|
  {
    if |s| > 0 {
      var t := SqueezeOutsideFences(s);
      match FenceEnd(s)
      case Some(e) =>
        var rest := SqueezeOutsideFences(s[e..]);
        assert t == s[..e] + rest;
        assert t[..e] == s[..e] && t[e..] == rest;
        FenceEndPrefix(s, t, e);
        SqueezeIdempotent(s[e..]);
      case None =>
        if IsBlank(s[0]) {
          var n := BlankRunLen(s);
          var rest := SqueezeOutsideFences(s[n..]);
          assert t == " " + rest;
          SqueezeIdempotent(s[n..]);
          if |rest| > 0 {
            SqueezeHead(s[n..]);
          }
          assert |t| >= 3 ==> t[..3][0] == ' ';
          assert BlankRunLen(t) == 1 + BlankRunLen(rest);
          assert t[1..] == rest;
        } else {
          var rest := SqueezeOutsideFences(s[1..]);
          assert t == [s[0]] + rest;
          SqueezeFenceNone(s);
          SqueezeIdempotent(s[1..]);
          assert t[1..] == rest;
        }
    }
  }

  // ---------------------------------------------------------------------------
  // the skeleton of newlines and visible characters

  /** The text without its whitespace other than newlines: it alone decides
      where whitespace runs hold three newlines. */
  function Skeleton(s: string): string
    decreases |s|
  {
    if |s| == 0 then []
    else (if IsSpace(s[0]) && s[0] != '\n' then [] else [s[0]]) + Skeleton(s[1..])
  }

  lemma {:induction false} SkeletonAppend(a: string, b: string)
    ensures Skeleton(a + b) == Skeleton(a) + Skeleton(b)
    decreases |a|
  {
    if |a| > 0 {
      assert (a + b)[1..] == a[1..] + b;
      SkeletonAppend(a[1..], b);
    } else {
      assert a + b == b;
    }
  }

  /** Whitespace other than newlines leaves nothing in the skeleton. */
  lemma {:induction false} SkeletonInvisible(x: string)
    requires forall i :: 0 <= i < |x| ==> IsSpace(x[i]) && x[i] != '\n'
    ensures Skeleton(x) == []
    decreases |x|
  {
    if |x| > 0 {
      SkeletonInvisible(x[1..]);
    }
  }

  /** The fourth pass keeps the skeleton. */
  lemma {:induction false} SqueezeSkeleton(s: string)
    ensures Skeleton(SqueezeOutsideFences(s)) == Skeleton(s)
    decreases |s|
  {
    if |s| > 0 {
      match FenceEnd(s)
      case Some(e) =>
        SqueezeFenceStep(s, e);
        SqueezeSkeleton(s[e..]);
        SkeletonSplit(s, SqueezeOutsideFences(s[e..]), e);
      case None =>
        if IsBlank(s[0]) {
          var n := BlankRunLen(s);
          SqueezeBlankStep(s);
          SqueezeSkeleton(s[n..]);
          SkeletonInvisible(" ");
          SkeletonAppend(" ", SqueezeOutsideFences(s[n..]));
          SkeletonInvisible(s[..n]);
          SkeletonSplit(s, s[n..], n);
        } else {
          SqueezeOtherStep(s);
          SqueezeSkeleton(s[1..]);
          SkeletonSplit(s, SqueezeOutsideFences(s[1..]), 1);
          assert s[..1] == [s[0]];
        }
    }
  }

  /** The skeleton of `s` cut at `n`, with the rest replaced by `t` of the
      same skeleton. */
  lemma SkeletonSplit(s: string, t: string, n: nat)
    requires n <= |s|
    ensures Skeleton(s[..n] + t) == Skeleton(s[..n]) + Skeleton(t)
    ensures Skeleton(s) == Skeleton(s[..n]) + Skeleton(s[n..])
  {
    SkeletonAppend(s[..n], t);
    SkeletonAppend(s[..n], s[n..]);
    assert s[..n] + s[n..] == s;
  }

  /** Joined lines whose skeletons agree pairwise have the same skeleton. */
  lemma {:induction false} SkeletonJoin(a: seq<string>, b: seq<string>)
    requires |a| == |b| && forall k :: 0 <= k < |a| ==> Skeleton(a[k]) == Skeleton(b[k])
    ensures Skeleton(Join(a, "\n")) == Skeleton(Join(b, "\n"))
    decreases |a|
  {
    if |a| > 1 {
      SkeletonJoin(a[1..], b[1..]);
      SkeletonAppend(a[0] + "\n", Join(a[1..], "\n"));
      SkeletonAppend(a[0], "\n");
      SkeletonAppend(b[0] + "\n", Join(b[1..], "\n"));
      SkeletonAppend(b[0], "\n");
    }
  }

  /** Stripping a line keeps its skeleton. */
  lemma RStripSkeleton(l: string)
    requires '\n' !in l
    ensures Skeleton(RStrip(l)) == Skeleton(l)
  {
    var r := RStrip(l);
    RStripPrefix(l);
    var tail := l[|r|..];
    assert l == r + tail;
    forall i | 0 <= i < |tail| ensures IsSpace(tail[i]) && tail[i] != '\n' {
      assert tail[i] == l[|r| + i] && l[|r| + i] in l;
    }
    SkeletonInvisible(tail);
    SkeletonAppend(r, tail);
  }

  /** The third pass keeps the skeleton. */
  lemma StripTrailingSkeleton(s: string)
    ensures Skeleton(StripTrailing(s)) == Skeleton(s)
  {
    var lines := Split(s, '\n');
    forall k | 0 <= k < |lines| ensures Skeleton(RStripAll(lines)[k]) == Skeleton(lines[k]) {
      RStripSkeleton(lines[k]);
    }
    SkeletonJoin(RStripAll(lines), lines);
    JoinSplit(s, '\n');
  }

  /** Three newlines in a row start at `i`. */
  predicate TripleAt(k: string, i: nat)
    requires i + 2 < |k|
  {
    k[i] == '\n' && k[i + 1] == '\n' && k[i + 2] == '\n'
  }

  /** No three newlines in a row. */
  predicate NoTripleNewline(k: string) {
    forall i: nat :: i + 2 < |k| ==> !TripleAt(k, i)
  }

  /** A character put in front moves every triple one place on. */
  lemma TripleShift(c: char, k: string, i: nat)
    requires i + 2 < |k|
    ensures TripleAt([c] + k, i + 1) == TripleAt(k, i)
  {
    var ck := [c] + k;
    assert ck[i + 1] == k[i] && ck[i + 2] == k[i + 1] && ck[i + 3] == k[i + 2];
  }

  /** Putting a character in front adds a triple only at the front. */
  lemma NoTripleCons(c: char, k: string)
    ensures NoTripleNewline([c] + k) <==>
      NoTripleNewline(k) && !(c == '\n' && |k| >= 2 && k[0] == '\n' && k[1] == '\n')
  {
    var ck := [c] + k;
    assert |k| >= 2 ==> (TripleAt(ck, 0) <==> c == '\n' && k[0] == '\n' && k[1] == '\n');
    if NoTripleNewline(ck) {
      forall i: nat | i + 2 < |k| ensures !TripleAt(k, i) {
        TripleShift(c, k, i);
      }
    }
    if NoTripleNewline(k) && !(c == '\n' && |k| >= 2 && k[0] == '\n' && k[1] == '\n') {
      forall i: nat | i + 2 < |ck| ensures !TripleAt(ck, i) {
        if i > 0 {
          TripleShift(c, k, i - 1);
        }
      }
    }
  }

  /** The skeleton starts with as many newlines as the leading whitespace run
      holds, and no more. */
  lemma {:induction false} SkeletonLead(t: string)
    ensures var k := Skeleton(t); var n := LeadNewlines(t);
      n <= |k| && (forall i :: 0 <= i < n ==> k[i] == '\n') && (n < |k| ==> k[n] != '\n')
    decreases |t|
  {
    if |t| > 0 && IsSpace(t[0]) {
      LeadStep(t);
      SkeletonLead(t[1..]);
    } else {
      LeadNonSpace(t);
    }
  }

  /** No whitespace run holds three newlines exactly when the skeleton has no
      three newlines in a row. */
  lemma {:induction false} NoBlankRunSkeleton(s: string)
    ensures NoBlankRun(s) <==> NoTripleNewline(Skeleton(s))
    decreases |s|
  {
    if |s| > 0 {
      NoBlankRunSkeleton(s[1..]);
      var k := Skeleton(s[1..]);
      if s[0] == '\n' {
        assert Skeleton(s) == [s[0]] + k;
        NoTripleCons(s[0], k);
        LeadStep(s);
        SkeletonLead(s[1..]);
        assert BlankMatchEnd(s, 3).None? <==> LeadNewlines(s) < 3;
      } else if IsSpace(s[0]) {
        assert Skeleton(s) == k;
        assert BlankMatchEnd(s, 3).None?;
      } else {
        assert Skeleton(s) == [s[0]] + k;
        NoTripleCons(s[0], k);
        assert BlankMatchEnd(s, 3).None?;
      }
    }
  }

  /** Text whose lines are all clean is left unchanged by the third pass. */
  lemma StripTrailingFixpoint(s: string)
    requires forall l :: l in Split(s, '\n') ==> CleanLine(l)
    ensures StripTrailing(s) == s
  {
    var lines := Split(s, '\n');
    forall k | 0 <= k < |lines| ensures RStrip(lines[k]) == lines[k] {
      assert lines[k] in lines;
    }
    assert RStripAll(lines) == lines;
    JoinSplit(s, '\n');
  }

  // ---------------------------------------------------------------------------

  /** `compress_whitespace`: the four passes in order, preservation 1.0. */
  function CompressWhitespace(content: string): (string, real) {
    (SqueezeOutsideFences(StripTrailing(CollapseBlankLines(NormalizeLineEndings(content)))), 1.0)
  }

  /** The output has no carriage return, no line ending in whitespace, and a
      preservation score of exactly 1.0. */
  lemma CompressWhitespaceSpec(content: string)
    ensures CompressWhitespace(content).1 == 1.0
    ensures '\r' !in CompressWhitespace(content).0
    ensures NoTrailingBlank(CompressWhitespace(content).0)
    ensures forall l :: l in Split(CompressWhitespace(content).0, '\n') ==> CleanLine(l)
  {
    var a := NormalizeLineEndings(content);
    var b := CollapseBlankLines(a);
    var c := StripTrailing(b);
    var out := SqueezeOutsideFences(c);
    StripTrailingChars(b);
    assert '\r' !in c;
    StripTrailingNoTrailingBlank(b);
    SqueezeNoTrailingBlank(c);
    NoTrailingBlankLines(out);
  }

  /** The code blocks of the third pass's output reappear verbatim and in
      order in the result, and blank runs of three newlines were collapsed. */
  lemma CompressWhitespaceStages(content: string)
    ensures var b := CollapseBlankLines(NormalizeLineEndings(content));
            NoBlankRun(b) &&
            CompressWhitespace(content).0 == Flatten(SqueezePieces(Pieces(StripTrailing(b)))) &&
            CodeTexts(SqueezePieces(Pieces(StripTrailing(b)))) == Fences(StripTrailing(b))
  {
    var b := CollapseBlankLines(NormalizeLineEndings(content));
    CollapseNoBlankRun(NormalizeLineEndings(content));
    SqueezeKeepsFences(StripTrailing(b));
  }

  /** Compressing twice gives the same text as compressing once. */
  lemma CompressWhitespaceIdempotent(content: string)
    ensures var out := CompressWhitespace(content).0; CompressWhitespace(out).0 == out
  {
    var a := NormalizeLineEndings(content);
    var b := CollapseBlankLines(a);
    var c := StripTrailing(b);
    var out := SqueezeOutsideFences(c);
    CompressWhitespaceSpec(content);
    NormalizeFixpoint(out);
    CollapseNoBlankRun(a);
    NoBlankRunSkeleton(b);
    StripTrailingSkeleton(b);
    SqueezeSkeleton(c);
    NoBlankRunSkeleton(out);
    CollapseFixpoint(out);
    StripTrailingFixpoint(out);
    SqueezeIdempotent(c);
  }
}
