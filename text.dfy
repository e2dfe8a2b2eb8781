/** Character-level model of the Python string operations the compressor
    relies on: whitespace and word characters, `split`/`join`, `strip`,
    word sets, `\b`-delimited phrase replacement, and the two regular
    expressions that are modelled exactly (code fences and blank-line runs). */
module Text {

  datatype Option<T> = None | Some(value: T)

  /** Python's `str.isspace()`; also the class `\s` and what `strip()` removes. */
  predicate IsSpace(c: char) {
    c == ' ' || ('\t' <= c <= '\r') || ('\U{1c}' <= c <= '\U{1f}') || c == '\U{85}' || c == '\U{a0}'
    || c == '\U{1680}' || ('\U{2000}' <= c <= '\U{200a}') || c == '\U{2028}' || c == '\U{2029}'
    || c == '\U{202f}' || c == '\U{205f}' || c == '\U{3000}'
  }

  /** The class `\w`, restricted to ASCII. */
  predicate IsWordChar(c: char) {
    'a' <= c <= 'z' || 'A' <= c <= 'Z' || '0' <= c <= '9' || c == '_'
  }

  function Lower(c: char): char {
    if 'A' <= c <= 'Z' then (c as int + 32) as char else c
  }

  function LowerStr(s: string): (r: string)
    ensures |r| == |s|
    ensures forall i :: 0 <= i < |s| ==> r[i] == Lower(s[i])
  {
    seq(|s|, i requires 0 <= i < |s| => Lower(s[i]))
  }

  function Spaces(n: nat): (r: string)
    ensures |r| == n && forall i :: 0 <= i < n ==> r[i] == ' '
  {
    seq(n, i => ' ')
  }

  function Digit(d: nat): char
    requires d < 10
  {
    "0123456789"[d]
  }

  /** `str(n)` for a natural number. */
  function Decimal(n: nat): (r: string)
    ensures |r| >= 1
    decreases n
  {
    if n < 10 then [Digit(n)] else Decimal(n / 10) + [Digit(n % 10)]
  }

  // ---------------------------------------------------------------------------
  // split / join

  /** `s.split(sep)` for a one-character separator. */
  function Split(s: string, sep: char): (r: seq<string>)
    ensures |r| >= 1
    ensures forall k :: 0 <= k < |r| ==> sep !in r[k]
    decreases |s|
  {
    if |s| == 0 then [""]
    else
      var rest := Split(s[1..], sep);
      if s[0] == sep then [""] + rest
      else [[s[0]] + rest[0]] + rest[1..]
  }

  /** `sep.join(parts)`. */
  function Join(parts: seq<string>, sep: string): string
    decreases |parts|
  {
    if |parts| == 0 then ""
    else if |parts| == 1 then parts[0]
    else parts[0] + sep + Join(parts[1..], sep)
  }

  /** Joining the pieces of a split gives back the original text. */
  lemma {:induction false} JoinSplit(s: string, sep: char)
    ensures Join(Split(s, sep), [sep]) == s
    decreases |s|
  {
    if |s| > 0 {
      var rest := Split(s[1..], sep);
      JoinSplit(s[1..], sep);
      if s[0] == sep {
        assert Split(s, sep) == [""] + rest;
        assert ([""] + rest)[1..] == rest;
      } else {
        var parts := [[s[0]] + rest[0]] + rest[1..];
        assert Split(s, sep) == parts;
        if |rest| == 1 {
          assert Join(parts, [sep]) == [s[0]] + rest[0];
        } else {
          assert parts[1..] == rest[1..];
          assert Join(rest, [sep]) == rest[0] + [sep] + Join(rest[1..], [sep]);
        }
      }
    }
  }

  /** Splitting a join of separator-free pieces gives back the pieces. */
  lemma {:induction false} SplitJoin(parts: seq<string>, sep: char)
    requires |parts| >= 1
    requires forall k :: 0 <= k < |parts| ==> sep !in parts[k]
    ensures Split(Join(parts, [sep]), sep) == parts
    decreases |parts|, |parts[0]|
  {
    var p := parts[0];
    if |p| == 0 {
      if |parts| > 1 {
        SplitJoin(parts[1..], sep);
        assert Join(parts, [sep]) == [sep] + Join(parts[1..], [sep]);
        assert ([sep] + Join(parts[1..], [sep]))[1..] == Join(parts[1..], [sep]);
      }
    } else {
      var parts' := [p[1..]] + parts[1..];
      assert parts'[1..] == parts[1..];
      assert forall k :: 0 <= k < |parts'| ==> sep !in parts'[k] by {
        forall k | 0 <= k < |parts'| ensures sep !in parts'[k] {
          if k == 0 { assert forall c :: c in p[1..] ==> c in p; }
        }
      }
      SplitJoin(parts', sep);
      var j := Join(parts, [sep]);
      if |parts| == 1 {
        assert j == p;
      } else {
        assert j == p + [sep] + Join(parts[1..], [sep]);
      }
      assert j == [p[0]] + Join(parts', [sep]);
      assert j[1..] == Join(parts', [sep]);
      assert p[0] != sep by { assert p[0] in p; }
      assert [p[0]] + p[1..] == p;
    }
  }

  // ---------------------------------------------------------------------------
  // strip

  function LStrip(s: string): (r: string)
    ensures |r| <= |s|
    ensures |r| > 0 ==> !IsSpace(r[0])
    ensures forall i :: 0 <= i < |s| - |r| ==> IsSpace(s[i])
    decreases |s|
  {
    if |s| > 0 && IsSpace(s[0]) then LStrip(s[1..]) else s
  }

  function RStrip(s: string): (r: string)
    ensures |r| <= |s|
    ensures |r| > 0 ==> !IsSpace(r[|r| - 1])
    ensures forall i :: |r| <= i < |s| ==> IsSpace(s[i])
    decreases |s|
  {
    if |s| > 0 && IsSpace(s[|s| - 1]) then RStrip(s[..|s| - 1]) else s
  }

  function Strip(s: string): string {
    RStrip(LStrip(s))
  }

  /** `lstrip` removes a prefix. */
  lemma {:induction false} LStripSuffix(s: string)
    ensures LStrip(s) == s[|s| - |LStrip(s)|..]
    decreases |s|
  {
    if |s| > 0 && IsSpace(s[0]) {
      LStripSuffix(s[1..]);
    }
  }

  /** `rstrip` removes a suffix. */
  lemma {:induction false} RStripPrefix(s: string)
    ensures RStrip(s) == s[..|RStrip(s)|]
    decreases |s|
  {
    if |s| > 0 && IsSpace(s[|s| - 1]) {
      RStripPrefix(s[..|s| - 1]);
    }
  }

  /** Every element stripped. */
  function StripAll(parts: seq<string>): (r: seq<string>)
    ensures |r| == |parts| && forall k :: 0 <= k < |parts| ==> r[k] == Strip(parts[k])
  {
    seq(|parts|, k requires 0 <= k < |parts| => Strip(parts[k]))
  }

  /** Length of the leading indentation, `len(line) - len(line.lstrip())`. */
  function IndentWidth(s: string): nat {
    |s| - |LStrip(s)|
  }

  function StartsWith(s: string, prefix: string): bool {
    |prefix| <= |s| && s[..|prefix|] == prefix
  }

  // ---------------------------------------------------------------------------
  // words

  /** Length of the leading run of word characters. */
  function WordRunLen(s: string): (n: nat)
    ensures n <= |s|
    ensures forall i :: 0 <= i < n ==> IsWordChar(s[i])
    ensures n < |s| ==> !IsWordChar(s[n])
    decreases |s|
  {
    if |s| > 0 && IsWordChar(s[0]) then 1 + WordRunLen(s[1..]) else 0
  }

  /** `set(re.findall(r'\b\w+\b', s.lower()))`: the maximal runs of word
      characters, lower-cased. */
  function Words(s: string): set<string>
    decreases |s|
  {
    if |s| == 0 then {}
    else if IsWordChar(s[0]) then
      var n := WordRunLen(s);
      {LowerStr(s[..n])} + Words(s[n..])
    else Words(s[1..])
  }

  /** There are never more distinct words than characters. */
  lemma {:induction false} WordsBound(s: string)
    ensures |Words(s)| <= |s|
    decreases |s|
  {
    if |s| > 0 {
      if IsWordChar(s[0]) {
        var n := WordRunLen(s);
        WordsBound(s[n..]);
        assert |{LowerStr(s[..n])} + Words(s[n..])| <= 1 + |Words(s[n..])|;
      } else {
        WordsBound(s[1..]);
      }
    }
  }

  /** Every word is non-empty; a text without word characters has no words. */
  lemma {:induction false} WordsEmpty(s: string)
    ensures |Words(s)| == 0 <==> forall i :: 0 <= i < |s| ==> !IsWordChar(s[i])
    decreases |s|
  {
    if |s| > 0 {
      if IsWordChar(s[0]) {
        assert LowerStr(s[..WordRunLen(s)]) in Words(s);
      } else {
        WordsEmpty(s[1..]);
        assert forall i :: 1 <= i < |s| ==> s[i] == s[1..][i - 1];
      }
    }
  }

  // ---------------------------------------------------------------------------
  // `\b(?:alt1|alt2|...)\b` with re.IGNORECASE, alternatives in lower case

  /** `\b` at position `p`: exactly one side is a word character. */
  predicate IsBoundary(s: string, p: nat)
    requires p <= |s|
  {
    (p > 0 && IsWordChar(s[p - 1])) != (p < |s| && IsWordChar(s[p]))
  }

  predicate MatchesAt(s: string, i: nat, a: string) {
    i + |a| <= |s| && IsBoundary(s, i) && LowerStr(s[i..i + |a|]) == a && IsBoundary(s, i + |a|)
  }

  predicate NonEmptyAlternatives(alts: seq<string>) {
    forall k :: 0 <= k < |alts| ==> |alts[k]| > 0
  }

  /** The regex engine tries the alternatives in order at each position. */
  function FirstMatch(s: string, i: nat, alts: seq<string>): (r: Option<nat>)
    ensures r.Some? ==> r.value < |alts| && MatchesAt(s, i, alts[r.value])
    ensures r.Some? ==> forall k :: 0 <= k < r.value ==> !MatchesAt(s, i, alts[k])
    ensures r.None? ==> forall k :: 0 <= k < |alts| ==> !MatchesAt(s, i, alts[k])
    decreases |alts|
  {
    if |alts| == 0 then None
    else if MatchesAt(s, i, alts[0]) then Some(0)
    else match FirstMatch(s, i, alts[1..])
      case None => None
      case Some(k) => Some(k + 1)
  }

  /** `re.sub` of the alternation by `repl`, scanning `s` from index `i`. */
  function ReplaceFrom(s: string, i: nat, alts: seq<string>, repl: string): string
    requires i <= |s| && NonEmptyAlternatives(alts)
    decreases |s| - i
  {
    if i == |s| then []
    else match FirstMatch(s, i, alts)
      case Some(k) => repl + ReplaceFrom(s, i + |alts[k]|, alts, repl)
      case None => [s[i]] + ReplaceFrom(s, i + 1, alts, repl)
  }

  function ReplaceWords(s: string, alts: seq<string>, repl: string): string
    requires NonEmptyAlternatives(alts)
  {
    ReplaceFrom(s, 0, alts, repl)
  }

  /** Where nothing matches, one character is copied. */
  lemma ReplaceFromCopies(s: string, i: nat, alts: seq<string>, repl: string)
    requires i < |s| && NonEmptyAlternatives(alts)
    requires FirstMatch(s, i, alts).None?
    ensures ReplaceFrom(s, i, alts, repl) == [s[i]] + ReplaceFrom(s, i + 1, alts, repl)
  {
  }

  /** Between two characters that are not word characters there is no word
      boundary, so nothing matches and one character is copied. */
  lemma ReplaceFromSeparator(s: string, i: nat, alts: seq<string>, repl: string)
    requires i < |s| && NonEmptyAlternatives(alts)
    requires !IsWordChar(s[i]) && (i == 0 || !IsWordChar(s[i - 1]))
    ensures ReplaceFrom(s, i, alts, repl) == [s[i]] + ReplaceFrom(s, i + 1, alts, repl)
  {
    assert !IsBoundary(s, i);
    ReplaceFromCopies(s, i, alts, repl);
  }

  /** `[s[i]] + (s[i+1..e] + u)` regrouped. */
  lemma PrependChar(s: string, i: nat, e: nat, t: string, u: string)
    requires i < e <= |s| && t == s[i + 1..e] + u
    ensures [s[i]] + t == s[i..e] + u
  {
    assert s[i..e] == [s[i]] + s[i + 1..e];
  }

  /** Where nothing matches at any of `n` positions, those `n` characters are
      copied. */
  lemma {:induction false} ReplaceFromCopiesRun(s: string, i: nat, n: nat, alts: seq<string>, repl: string)
    requires i + n <= |s| && NonEmptyAlternatives(alts)
    requires forall j :: i <= j < i + n ==> FirstMatch(s, j, alts).None?
    ensures ReplaceFrom(s, i, alts, repl) == s[i..i + n] + ReplaceFrom(s, i + n, alts, repl)
    decreases n
  {
    if n > 0 {
      ReplaceFromCopies(s, i, alts, repl);
      ReplaceFromCopiesRun(s, i + 1, n - 1, alts, repl);
      PrependChar(s, i, i + n, ReplaceFrom(s, i + 1, alts, repl), ReplaceFrom(s, i + n, alts, repl));
    }
  }

  /** Where an alternative matches and the replacement is empty, the match
      is deleted. */
  lemma ReplaceFromDeletes(s: string, i: nat, alts: seq<string>, e: nat)
    requires i < |s| && NonEmptyAlternatives(alts)
    requires FirstMatch(s, i, alts).Some? && e == i + |alts[FirstMatch(s, i, alts).value]|
    ensures e <= |s| && ReplaceFrom(s, i, alts, "") == ReplaceFrom(s, e, alts, "")
  {
    ReplaceFromReplaces(s, i, alts, "", e);
    EmptyPrefix(ReplaceFrom(s, e, alts, ""));
  }

  /** Where an alternative matches, it is replaced. */
  lemma ReplaceFromReplaces(s: string, i: nat, alts: seq<string>, repl: string, e: nat)
    requires i < |s| && NonEmptyAlternatives(alts)
    requires FirstMatch(s, i, alts).Some? && e == i + |alts[FirstMatch(s, i, alts).value]|
    ensures e <= |s| && ReplaceFrom(s, i, alts, repl) == repl + ReplaceFrom(s, e, alts, repl)
  {
    var k := FirstMatch(s, i, alts).value;
    assert ReplaceFrom(s, i, alts, repl) == repl + ReplaceFrom(s, i + |alts[k]|, alts, repl);
  }

  lemma EmptyPrefix(t: string)
    ensures "" + t == t
  {
  }

  /** A replacement no longer than any alternative never lengthens the text. */
  lemma {:induction false} ReplaceFromShrinks(s: string, i: nat, alts: seq<string>, repl: string)
    requires i <= |s| && NonEmptyAlternatives(alts)
    requires forall k :: 0 <= k < |alts| ==> |repl| <= |alts[k]|
    ensures |ReplaceFrom(s, i, alts, repl)| <= |s| - i
    decreases |s| - i
  {
    if i < |s| {
      var m := FirstMatch(s, i, alts);
      if m.Some? {
        var e := i + |alts[m.value]|;
        ReplaceFromReplaces(s, i, alts, repl, e);
        ReplaceFromShrinks(s, e, alts, repl);
        assert |repl| <= e - i;
      } else {
        ReplaceFromCopies(s, i, alts, repl);
        ReplaceFromShrinks(s, i + 1, alts, repl);
      }
    }
  }

  /** A replacement strictly shorter than every alternative shortens any text
      that holds a match. */
  lemma {:induction false} ReplaceFromShortens(s: string, i: nat, alts: seq<string>, repl: string)
    requires i <= |s| && NonEmptyAlternatives(alts)
    requires forall k :: 0 <= k < |alts| ==> |repl| < |alts[k]|
    requires SearchFrom(s, i, alts)
    ensures |ReplaceFrom(s, i, alts, repl)| < |s| - i
    decreases |s| - i
  {
    if FirstMatch(s, i, alts).Some? {
      ReplaceFromShortensHere(s, i, alts, repl);
    } else {
      assert i < |s| && SearchFrom(s, i + 1, alts);
      ReplaceFromCopies(s, i, alts, repl);
      ReplaceFromShortens(s, i + 1, alts, repl);
    }
  }

  lemma ReplaceFromShortensHere(s: string, i: nat, alts: seq<string>, repl: string)
    requires i <= |s| && NonEmptyAlternatives(alts)
    requires forall k :: 0 <= k < |alts| ==> |repl| < |alts[k]|
    requires FirstMatch(s, i, alts).Some?
    ensures |ReplaceFrom(s, i, alts, repl)| < |s| - i
  {
    var k := FirstMatch(s, i, alts).value;
    var e := i + |alts[k]|;
    ReplaceFromReplaces(s, i, alts, repl, e);
    ReplaceFromShrinks(s, e, alts, repl);
  }

  /** Where no alternative matches, the text is copied unchanged. */
  lemma {:induction false} ReplaceFromNoMatch(s: string, i: nat, alts: seq<string>, repl: string)
    requires i <= |s| && NonEmptyAlternatives(alts)
    requires forall j, k :: i <= j < |s| && 0 <= k < |alts| ==> !MatchesAt(s, j, alts[k])
    ensures ReplaceFrom(s, i, alts, repl) == s[i..]
    decreases |s| - i
  {
    if i < |s| {
      assert FirstMatch(s, i, alts).None?;
      ReplaceFromNoMatch(s, i + 1, alts, repl);
    }
  }

  /** `re.search` of the alternation anywhere in `s` from index `i`. */
  function SearchFrom(s: string, i: nat, alts: seq<string>): (b: bool)
    requires i <= |s|
    ensures b <==> exists j, k :: i <= j <= |s| && 0 <= k < |alts| && MatchesAt(s, j, alts[k])
    decreases |s| - i
  {
    FirstMatch(s, i, alts).Some? || (i < |s| && SearchFrom(s, i + 1, alts))
  }

  // ---------------------------------------------------------------------------
  // whitespace runs and the blank-line regexes `\n\s*\n` and `\n\s*\n\s*\n+`

  /** Length of the leading run of whitespace characters. */
  function WsRunLen(s: string): (n: nat)
    ensures n <= |s|
    ensures forall i :: 0 <= i < n ==> IsSpace(s[i])
    ensures n < |s| ==> !IsSpace(s[n])
    decreases |s|
  {
    if |s| > 0 && IsSpace(s[0]) then 1 + WsRunLen(s[1..]) else 0
  }

  function NewlineCount(s: string): nat {
    multiset(s)['\n']
  }

  /** The index just past the last newline of `w` (0 when `w` has none). */
  function AfterLastNewline(w: string): (k: nat)
    ensures k <= |w|
    ensures k > 0 ==> w[k - 1] == '\n'
    ensures '\n' !in w[k..]
    ensures NewlineCount(w[..(k)]) == NewlineCount(w)
    decreases |w|
  {
    if |w| == 0 then 0
    else if w[|w| - 1] == '\n' then
      assert w[..|w|] == w;
      |w|
    else
      var k := AfterLastNewline(w[..|w| - 1]);
      assert w == w[..|w| - 1] + [w[|w| - 1]];
      assert w[..|w| - 1][..k] == w[..k];
      assert w[k..] == w[..|w| - 1][k..] + [w[|w| - 1]];
      k
  }

  /** If `s` starts with a match of a blank-line regex that needs at least
      `need` newlines (`\n\s*\n` needs 2, `\n\s*\n\s*\n+` needs 3), the end of
      that match: greedy `\s*` backs off to the last newline of the leading
      whitespace run. */
  function BlankMatchEnd(s: string, need: nat): (r: Option<nat>)
    requires need >= 1
    ensures r.Some? ==> 0 < r.value <= |s|
  {
    var w := s[..WsRunLen(s)];
    if |s| > 0 && s[0] == '\n' && NewlineCount(w) >= need then
      assert w[0] == '\n';
      var k := AfterLastNewline(w);
      assert k > 0 by { assert NewlineCount(w[..k]) > 0; }
      Some(k)
    else None
  }

  // ---------------------------------------------------------------------------
  // code fences: the regex ```[^`]*```

  /** Index of the first backtick in `s`, or `|s|`. */
  function BacktickIndex(s: string): (j: nat)
    ensures j <= |s| && '`' !in s[..(j)]
    ensures j < |s| ==> s[j] == '`'
    decreases |s|
  {
    if |s| == 0 then 0
    else if s[0] == '`' then 0
    else
      var j := BacktickIndex(s[1..]);
      assert s[..j + 1] == [s[0]] + s[1..][..j];
      1 + j
  }

  /** If a fenced block starts at the beginning of `s`, its end. */
  function FenceEnd(s: string): (r: Option<nat>)
    ensures r.Some? ==> 6 <= r.value <= |s| && s[..3] == "```" && s[r.value - 3..(r.value)] == "```"
    ensures r.Some? ==> '`' !in s[3..(r.value - 3)]
  {
    if |s| >= 3 && s[..3] == "```" then
      var j := 3 + BacktickIndex(s[3..]);
      if j + 3 <= |s| && s[j..j + 3] == "```" then
        assert s[3..j] == s[3..][..j - 3];
        Some(j + 3)
      else None
    else None
  }

  /** `re.findall(r'```[^`]*```', s, re.DOTALL)`: leftmost, non-overlapping. */
  function Fences(s: string): seq<string>
    decreases |s|
  {
    if |s| == 0 then []
    else match FenceEnd(s)
      case Some(e) => [s[..e]] + Fences(s[e..])
      case None => Fences(s[1..])
  }

  // ---------------------------------------------------------------------------
  // order

  /** `a` is obtained from `b` by deleting elements, keeping the order. */
  predicate IsSubsequence<T(==)>(a: seq<T>, b: seq<T>)
    decreases |b|
  {
    if |a| == 0 then true
    else if |b| == 0 then false
    else if a[0] == b[0] then IsSubsequence(a[1..], b[1..])
    else IsSubsequence(a, b[1..])
  }

  lemma {:induction false} SubsequenceExtend<T>(a: seq<T>, b: seq<T>, x: T)
    requires IsSubsequence(a, b)
    ensures IsSubsequence(a + [x], b + [x])
    decreases |b|
  {
    if |a| == 0 {
      assert a + [x] == [x];
      SubsequenceOfSingleton(b, x);
    } else {
      assert (a + [x])[1..] == a[1..] + [x];
      assert (b + [x])[1..] == b[1..] + [x];
      if a[0] == b[0] {
        SubsequenceExtend(a[1..], b[1..], x);
      } else {
        SubsequenceExtend(a, b[1..], x);
      }
    }
  }

  lemma {:induction false} SubsequenceOfSingleton<T>(b: seq<T>, x: T)
    ensures IsSubsequence([x], b + [x])
    decreases |b|
  {
    if |b| > 0 {
      assert (b + [x])[1..] == b[1..] + [x];
      SubsequenceOfSingleton(b[1..], x);
    }
  }

  lemma {:induction false} SubsequenceSkip<T>(a: seq<T>, b: seq<T>, x: T)
    requires IsSubsequence(a, b)
    ensures IsSubsequence(a, b + [x])
    decreases |b|
  {
    if |a| > 0 && |b| > 0 {
      assert (b + [x])[1..] == b[1..] + [x];
      if a[0] == b[0] {
        SubsequenceSkip(a[1..], b[1..], x);
      } else {
        SubsequenceSkip(a, b[1..], x);
      }
    }
  }

  lemma SubsequenceCons<T>(x: T, a: seq<T>, b: seq<T>)
    requires IsSubsequence(a, b)
    ensures IsSubsequence([x] + a, [x] + b)
  {
    assert ([x] + a)[1..] == a;
    assert ([x] + b)[1..] == b;
  }

  /** A subsequence of the tail is a subsequence of the whole. */
  lemma {:induction false} SubsequenceDropHead<T>(a: seq<T>, b: seq<T>)
    requires |b| > 0 && IsSubsequence(a, b[1..])
    ensures IsSubsequence(a, b)
    decreases |b|, 0
  {
    if |a| > 0 && a[0] == b[0] {
      SubsequenceWeaken(a, b[1..]);
    }
  }

  lemma {:induction false} SubsequenceWeaken<T>(a: seq<T>, b: seq<T>)
    requires |a| > 0 && IsSubsequence(a, b)
    ensures IsSubsequence(a[1..], b)
    decreases |b|, 1
  {
    if a[0] != b[0] {
      SubsequenceWeaken(a, b[1..]);
    }
    SubsequenceDropHead(a[1..], b);
  }

  lemma {:induction false} SubsequenceLength<T>(a: seq<T>, b: seq<T>)
    requires IsSubsequence(a, b)
    ensures |a| <= |b|
    decreases |b|
  {
    if |a| > 0 {
      if a[0] == b[0] { SubsequenceLength(a[1..], b[1..]); } else { SubsequenceLength(a, b[1..]); }
    }
  }

  lemma SubsetCardinality<T>(a: set<T>, b: set<T>)
    requires a <= b
    ensures |a| <= |b|
  {
    assert b == a + (b - a);
  }

  lemma TakeSnoc<T>(s: seq<T>, i: nat)
    requires i < |s|
    ensures s[..i + 1] == s[..i] + [s[i]]
  {
  }

  // ---------------------------------------------------------------------------
  // list comprehensions and slices

  /** `[x for x in s if keep(x)]`. */
  function Filter<T>(s: seq<T>, keep: T -> bool): (r: seq<T>)
    ensures |r| <= |s|
  {
    if |s| == 0 then [] else (if keep(s[0]) then [s[0]] else []) + Filter(s[1..], keep)
  }

  /** The filter keeps exactly the elements that pass, in their order. */
  lemma {:induction false} FilterSpec<T>(s: seq<T>, keep: T -> bool)
    ensures forall x :: x in Filter(s, keep) <==> x in s && keep(x)
    ensures IsSubsequence(Filter(s, keep), s)
    decreases |s|
  {
    if |s| > 0 {
      FilterSpec(s[1..], keep);
      assert s == [s[0]] + s[1..];
      if keep(s[0]) {
        SubsequenceCons(s[0], Filter(s[1..], keep), s[1..]);
      } else {
        assert Filter(s, keep) == Filter(s[1..], keep);
        SubsequenceDropHead(Filter(s[1..], keep), s);
      }
    }
  }

  lemma {:induction false} FilterAppend<T>(a: seq<T>, b: seq<T>, keep: T -> bool)
    ensures Filter(a + b, keep) == Filter(a, keep) + Filter(b, keep)
    decreases |a|
  {
    if |a| > 0 {
      assert (a + b)[1..] == a[1..] + b;
      FilterAppend(a[1..], b, keep);
    } else {
      assert a + b == b;
    }
  }

  lemma FilterSnoc<T>(s: seq<T>, x: T, keep: T -> bool)
    ensures Filter(s + [x], keep) == Filter(s, keep) + (if keep(x) then [x] else [])
  {
    FilterAppend(s, [x], keep);
    assert Filter([x], keep) == (if keep(x) then [x] else []) + Filter([x][1..], keep);
  }

  /** `s[:n]`. */
  function Take<T>(s: seq<T>, n: nat): (r: seq<T>)
    ensures |r| == if |s| <= n then |s| else n
    ensures forall k :: 0 <= k < |r| ==> r[k] == s[k]
  {
    if |s| <= n then s else s[..n]
  }

  /** `s[-n:]` for `n > 0`. */
  function Last<T>(s: seq<T>, n: nat): (r: seq<T>)
    ensures |r| == if |s| <= n then |s| else n
    ensures forall k :: 0 <= k < |r| ==> r[k] == s[|s| - |r| + k]
  {
    if |s| <= n then s else s[|s| - n..]
  }

  /** Python's `p in s` on strings: `p` occurs in `s` as a substring. */
  predicate Contains(s: string, p: string)
    decreases |s|
  {
    |p| <= |s| && (s[..|p|] == p || Contains(s[1..], p))
  }

  lemma {:induction false} ContainsAt(s: string, p: string, i: nat)
    requires i + |p| <= |s| && s[i..i + |p|] == p
    ensures Contains(s, p)
    decreases i
  {
    if i > 0 {
      assert s[1..][i - 1..i - 1 + |p|] == s[i..i + |p|];
      ContainsAt(s[1..], p, i - 1);
    }
  }
}
