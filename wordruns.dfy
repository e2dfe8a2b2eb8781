/** Whole words in a text: where they start and end, and what deleting a set
    of single-word alternatives does to the words of a text. */
module WordRuns {
  import opened Text


  /** The alternatives as a set. */
  function AltSet(alts: seq<string>): set<string> {
    set a | a in alts
  }

  /** Alternatives made of word characters only: single words. */
  predicate WordAlternatives(alts: seq<string>) {
    NonEmptyAlternatives(alts) &&
    forall k, t :: 0 <= k < |alts| && 0 <= t < |alts[k]| ==> IsWordChar(alts[k][t])
  }

  /** Position `p` is not strictly inside a run of word characters. */
  predicate OutsideWord(s: string, p: nat)
    requires p <= |s|
  {
    p == 0 || p == |s| || !IsWordChar(s[p - 1]) || !IsWordChar(s[p])
  }

  /** The end of the run of word characters that starts at `i`. */
  function RunEnd(s: string, i: nat): (e: nat)
    requires i <= |s|
    ensures i <= e <= |s|
    ensures forall q :: i <= q < e ==> IsWordChar(s[q])
    ensures e < |s| ==> !IsWordChar(s[e])
    decreases |s| - i
  {
    if i < |s| && IsWordChar(s[i]) then RunEnd(s, i + 1) else i
  }

  /** The run ending at `RunEnd` is the leading run of the suffix. */
  lemma RunEndLen(s: string, i: nat)
    requires i <= |s|
    ensures WordRunLen(s[i..]) == RunEnd(s, i) - i
  {
    var e := RunEnd(s, i);
    var n := WordRunLen(s[i..]);
    assert forall q :: 0 <= q < |s| - i ==> s[i..][q] == s[i + q];
    if e < |s| {
      assert s[i..][e - i] == s[e];
    }
  }

  /** A match of a single word is a whole run of word characters, with no
      word character before it, that spells the word. */
  lemma WordMatchIsRun(s: string, p: nat, a: string)
    requires |a| > 0 && forall t :: 0 <= t < |a| ==> IsWordChar(a[t])
    requires MatchesAt(s, p, a)
    ensures p < |s| && IsWordChar(s[p]) && (p == 0 || !IsWordChar(s[p - 1]))
    ensures RunEnd(s, p) == p + |a| && LowerStr(s[p..p + |a|]) == a
  {
    forall q | p <= q < p + |a|
      ensures IsWordChar(s[q])
    {
      assert Lower(s[q]) == LowerStr(s[p..p + |a|])[q - p];
    }
  }

  /** A run of word characters, with no word character before it, that
      spells an alternative matches it. */
  lemma RunMatches(s: string, p: nat, a: string)
    requires p < |s| && IsWordChar(s[p]) && (p == 0 || !IsWordChar(s[p - 1]))
    requires LowerStr(s[p..RunEnd(s, p)]) == a
    ensures MatchesAt(s, p, a)
  {
    var e := RunEnd(s, p);
    assert IsWordChar(s[e - 1]);
  }

  /** Between two word characters there is no `\b`, so nothing matches. */
  lemma NoMatchInsideRun(s: string, p: nat, alts: seq<string>)
    requires 0 < p < |s| && IsWordChar(s[p - 1]) && IsWordChar(s[p])
    ensures FirstMatch(s, p, alts).None?
  {
    assert !IsBoundary(s, p);
  }

  /** A word alternative never matches at a character that is not a word character. */
  lemma ReplaceFromNonWord(s: string, p: nat, alts: seq<string>, repl: string)
    requires p < |s| && !IsWordChar(s[p]) && WordAlternatives(alts)
    ensures ReplaceFrom(s, p, alts, repl) == [s[p]] + ReplaceFrom(s, p + 1, alts, repl)
  {
    forall k | 0 <= k < |alts|
      ensures !MatchesAt(s, p, alts[k])
    {
      if MatchesAt(s, p, alts[k]) {
        WordMatchIsRun(s, p, alts[k]);
      }
    }
    ReplaceFromCopies(s, p, alts, repl);
  }

  /** Inside a run of word characters nothing matches, so the run is copied. */
  lemma {:induction false} ReplaceFromInsideRun(s: string, p: nat, e: nat, alts: seq<string>, repl: string)
    requires 0 < p <= e <= |s| && NonEmptyAlternatives(alts)
    requires forall q :: p - 1 <= q < e ==> IsWordChar(s[q])
    ensures ReplaceFrom(s, p, alts, repl) == s[p..e] + ReplaceFrom(s, e, alts, repl)
    decreases e - p
  {
    if p < e {
      NoMatchInsideRun(s, p, alts);
      ReplaceFromCopies(s, p, alts, repl);
      ReplaceFromInsideRun(s, p + 1, e, alts, repl);
      PrependChar(s, p, e, ReplaceFrom(s, p + 1, alts, repl), ReplaceFrom(s, e, alts, repl));
    }
  }

  /** The alternative that matches a found word is that word. */
  lemma FoundWordMatches(s: string, i: nat, alts: seq<string>)
    requires i < |s| && IsWordChar(s[i]) && (i == 0 || !IsWordChar(s[i - 1])) && WordAlternatives(alts)
    requires LowerStr(s[i..RunEnd(s, i)]) in alts
    ensures FirstMatch(s, i, alts).Some?
    ensures i + |alts[FirstMatch(s, i, alts).value]| == RunEnd(s, i)
  {
    RunMatches(s, i, LowerStr(s[i..RunEnd(s, i)]));
    WordMatchIsRun(s, i, alts[FirstMatch(s, i, alts).value]);
  }

  /** No alternative matches at a word that is not one of them. */
  lemma KeptWordNoMatch(s: string, i: nat, alts: seq<string>)
    requires i < |s| && WordAlternatives(alts)
    requires LowerStr(s[i..RunEnd(s, i)]) !in alts
    ensures FirstMatch(s, i, alts).None?
  {
    if FirstMatch(s, i, alts).Some? {
      WordMatchIsRun(s, i, alts[FirstMatch(s, i, alts).value]);
    }
  }

  /** At the start of a word that is one of the alternatives, the whole word
      is deleted. */
  lemma DeleteRunFound(s: string, i: nat, alts: seq<string>)
    requires i < |s| && IsWordChar(s[i]) && (i == 0 || !IsWordChar(s[i - 1])) && WordAlternatives(alts)
    requires LowerStr(s[i..RunEnd(s, i)]) in alts
    ensures ReplaceFrom(s, i, alts, "") == ReplaceFrom(s, RunEnd(s, i), alts, "")
  {
    FoundWordMatches(s, i, alts);
    ReplaceFromDeletes(s, i, alts, RunEnd(s, i));
  }

  /** At the start of a word that is not one of the alternatives, the whole
      word is copied. */
  lemma DeleteRunKept(s: string, i: nat, alts: seq<string>)
    requires i < |s| && IsWordChar(s[i]) && WordAlternatives(alts)
    requires LowerStr(s[i..RunEnd(s, i)]) !in alts
    ensures ReplaceFrom(s, i, alts, "") == s[i..RunEnd(s, i)] + ReplaceFrom(s, RunEnd(s, i), alts, "")
  {
    var e := RunEnd(s, i);
    KeptWordNoMatch(s, i, alts);
    ReplaceFromCopies(s, i, alts, "");
    ReplaceFromInsideRun(s, i + 1, e, alts, "");
    PrependChar(s, i, e, ReplaceFrom(s, i + 1, alts, ""), ReplaceFrom(s, e, alts, ""));
  }

  /** A character that is not a word character separates words. */
  lemma WordsNonWordCons(c: char, y: string)
    requires !IsWordChar(c)
    ensures Words([c] + y) == Words(y)
  {
    assert ([c] + y)[1..] == y;
  }

  /** A run of word characters followed by a separator (or nothing) is one word. */
  lemma WordsRunPrefix(x: string, y: string)
    requires |x| > 0 && forall t :: 0 <= t < |x| ==> IsWordChar(x[t])
    requires |y| == 0 || !IsWordChar(y[0])
    ensures Words(x + y) == {LowerStr(x)} + Words(y)
  {
    var s := x + y;
    assert WordRunLen(s) == |x|;
    assert s[..|x|] == x && s[|x|..] == y;
  }

  /** The words of a suffix that starts with a word: that word, then the rest. */
  lemma WordsAtRun(s: string, i: nat)
    requires i < |s| && IsWordChar(s[i])
    ensures Words(s[i..]) == {LowerStr(s[i..RunEnd(s, i)])} + Words(s[RunEnd(s, i)..])
  {
    RunEndLen(s, i);
    var n := WordRunLen(s[i..]);
    assert s[i..][..n] == s[i..i + n] && s[i..][n..] == s[i + n..];
  }

  /** A copied word stays a word of its own in the output. */
  lemma WordsKeptRun(s: string, i: nat, alts: seq<string>)
    requires i < |s| && IsWordChar(s[i]) && WordAlternatives(alts)
    ensures Words(s[i..RunEnd(s, i)] + ReplaceFrom(s, RunEnd(s, i), alts, "")) ==
      {LowerStr(s[i..RunEnd(s, i)])} + Words(ReplaceFrom(s, RunEnd(s, i), alts, ""))
  {
    var e := RunEnd(s, i);
    if e < |s| {
      ReplaceFromNonWord(s, e, alts, "");
    }
    WordsRunPrefix(s[i..e], ReplaceFrom(s, e, alts, ""));
  }

  /** Leading separators carry no word. */
  lemma {:induction false} WordsSkip(s: string, n: nat)
    requires n <= |s| && forall i :: 0 <= i < n ==> !IsWordChar(s[i])
    ensures Words(s) == Words(s[n..])
    decreases n
  {
    if n > 0 {
      WordsSkip(s[1..], n - 1);
      assert s[1..][n - 1..] == s[n..];
    }
  }

  /** From index `i` on, deleting the alternatives removes exactly those words
      and keeps every other word of the text. */
  predicate DeletesWords(s: string, i: nat, alts: seq<string>)
    requires i <= |s| && NonEmptyAlternatives(alts)
  {
    Words(ReplaceFrom(s, i, alts, "")) == Words(s[i..]) - AltSet(alts)
  }

  /** Deleting single-word alternatives (`re.sub(r'\b(?:w1|w2|...)\b', '', s)`)
      removes exactly those words and keeps every other word of the text. */
  lemma {:induction false} DeleteWordsFrom(s: string, i: nat, alts: seq<string>)
    requires i <= |s| && WordAlternatives(alts) && OutsideWord(s, i)
    ensures DeletesWords(s, i, alts)
    decreases |s| - i
  {
    if i == |s| {
      assert s[i..] == [];
    } else {
      DeleteWordsFrom(s, NextStop(s, i), alts);
      DeleteStep(s, i, alts);
    }
  }

  /** Where the scan goes next: past a separator, or past a whole word. */
  function NextStop(s: string, i: nat): (r: nat)
    requires i < |s|
    ensures i < r <= |s| && OutsideWord(s, r)
  {
    if IsWordChar(s[i]) then RunEnd(s, i) else i + 1
  }

  /** One step of `DeleteWordsFrom`. */
  lemma DeleteStep(s: string, i: nat, alts: seq<string>)
    requires i < |s| && WordAlternatives(alts) && OutsideWord(s, i)
    requires DeletesWords(s, NextStop(s, i), alts)
    ensures DeletesWords(s, i, alts)
  {
    if IsWordChar(s[i]) {
      DeleteWord(s, i, alts);
    } else {
      DeleteSeparator(s, i, alts);
    }
  }

  /** One step of `DeleteWordsFrom` over a separator. */
  lemma DeleteSeparator(s: string, i: nat, alts: seq<string>)
    requires i < |s| && !IsWordChar(s[i]) && WordAlternatives(alts)
    requires DeletesWords(s, i + 1, alts)
    ensures DeletesWords(s, i, alts)
  {
    ReplaceFromNonWord(s, i, alts, "");
    WordsNonWordCons(s[i], ReplaceFrom(s, i + 1, alts, ""));
    WordsNonWordCons(s[i], s[i + 1..]);
    assert s[i..] == [s[i]] + s[i + 1..];
  }

  /** One step of `DeleteWordsFrom` over a whole word. */
  lemma DeleteWord(s: string, i: nat, alts: seq<string>)
    requires i < |s| && IsWordChar(s[i]) && (i == 0 || !IsWordChar(s[i - 1])) && WordAlternatives(alts)
    requires DeletesWords(s, RunEnd(s, i), alts)
    ensures DeletesWords(s, i, alts)
  {
    WordsAtRun(s, i);
    if LowerStr(s[i..RunEnd(s, i)]) in alts {
      DeleteRunFound(s, i, alts);
    } else {
      DeleteRunKept(s, i, alts);
      WordsKeptRun(s, i, alts);
    }
  }

  /** The words of a suffix that starts outside a word are words of the text. */
  lemma {:induction false} WordsSuffix(s: string, p: nat)
    requires p <= |s| && (p == 0 || !IsWordChar(s[p - 1]))
    ensures Words(s[p..]) <= Words(s)
    decreases |s|
  {
    if p > 0 {
      if IsWordChar(s[0]) {
        var n := WordRunLen(s);
        assert p > n;
        WordsSuffix(s[n..], p - n);
        assert s[n..][p - n..] == s[p..];
      } else {
        WordsSuffix(s[1..], p - 1);
        assert s[1..][p - 1..] == s[p..];
      }
    }
  }

  /** A match of a single word is one of the words of the text. */
  lemma WordMatchInWords(s: string, p: nat, a: string)
    requires |a| > 0 && forall t :: 0 <= t < |a| ==> IsWordChar(a[t])
    requires MatchesAt(s, p, a)
    ensures a in Words(s)
  {
    WordMatchIsRun(s, p, a);
    WordsSuffix(s, p);
    WordsAtRun(s, p);
  }

  /** A text none of whose words is an alternative contains no match of them. */
  lemma NoWordNoMatch(s: string, alts: seq<string>)
    requires WordAlternatives(alts)
    requires forall k :: 0 <= k < |alts| ==> alts[k] !in Words(s)
    ensures !SearchFrom(s, 0, alts)
  {
    forall j, k | 0 <= j <= |s| && 0 <= k < |alts|
      ensures !MatchesAt(s, j, alts[k])
    {
      if MatchesAt(s, j, alts[k]) {
        WordMatchInWords(s, j, alts[k]);
      }
    }
  }
}
