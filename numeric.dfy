/** Python's `sum`, `len`-based means and `min` over real numbers, as the
    pattern analyser uses them. */
module Numeric {
  /** `sum(xs)`, added left to right. */
  function Sum(xs: seq<real>): real
    decreases |xs|
  {
    if |xs| == 0 then 0.0 else Sum(xs[..|xs| - 1]) + xs[|xs| - 1]
  }

  /** `sum(xs) / len(xs) if xs else 0`. */
  function Mean(xs: seq<real>): real {
    if |xs| == 0 then 0.0 else Sum(xs) / |xs| as real
  }

  /** `min(a, b)`. */
  function Min(a: real, b: real): (r: real)
    ensures r <= a && r <= b
    ensures r == a || r == b
  {
    if a <= b then a else b
  }

  lemma {:induction false} SumAppend(a: seq<real>, b: seq<real>)
    ensures Sum(a + b) == Sum(a) + Sum(b)
    decreases |b|
  {
    if |b| == 0 {
      assert a + b == a;
    } else {
      assert (a + b)[..|a + b| - 1] == a + b[..|b| - 1];
      SumAppend(a, b[..|b| - 1]);
    }
  }

  /** A sum of values between `lo` and `hi` lies between `n * lo` and `n * hi`. */
  lemma {:induction false} SumBounds(xs: seq<real>, lo: real, hi: real)
    requires forall k :: 0 <= k < |xs| ==> lo <= xs[k] <= hi
    ensures |xs| as real * lo <= Sum(xs) <= |xs| as real * hi
    decreases |xs|
  {
    if |xs| > 0 {
      SumBounds(xs[..|xs| - 1], lo, hi);
      assert |xs| as real * lo == (|xs| - 1) as real * lo + lo;
      assert |xs| as real * hi == (|xs| - 1) as real * hi + hi;
    }
  }

  /** The mean of values between `lo` and `hi` lies between them. */
  lemma MeanBounds(xs: seq<real>, lo: real, hi: real)
    requires |xs| > 0
    requires forall k :: 0 <= k < |xs| ==> lo <= xs[k] <= hi
    ensures lo <= Mean(xs) <= hi
  {
    var n := |xs| as real;
    SumBounds(xs, lo, hi);
    DivBounds(Sum(xs), n, lo, hi);
  }

  lemma DivBounds(s: real, n: real, lo: real, hi: real)
    requires n > 0.0 && n * lo <= s <= n * hi
    ensures lo <= s / n <= hi
  {
    assert s / n * n == s;
  }

  lemma MulLess(x: real, y: real, a: real)
    requires x < y && a > 0.0
    ensures x * a < y * a
  {
  }

  lemma MulAtMost(x: real, y: real, a: real)
    requires x <= y && a > 0.0
    ensures x * a <= y * a
  {
  }

  /** A ratio is below one half exactly when twice the numerator is below
      the denominator. */
  lemma DivHalf(x: real, a: real)
    requires a > 0.0
    ensures x / a < 0.5 <==> 2.0 * x < a
  {
    var q := x / a;
    assert q * a == x;
    if q < 0.5 {
      MulLess(q, 0.5, a);
    } else {
      MulAtMost(0.5, q, a);
    }
  }

  /** Consecutive differences, `[xs[i] - xs[i-1] for i in range(1, len(xs))]`. */
  function Diffs(xs: seq<real>): (r: seq<real>)
    ensures |r| == if |xs| == 0 then 0 else |xs| - 1
  {
    if |xs| <= 1 then [] else seq(|xs| - 1, i requires 0 <= i < |xs| - 1 => xs[i + 1] - xs[i])
  }

  lemma DiffsSnoc(xs: seq<real>, i: nat)
    requires 1 <= i < |xs|
    ensures Diffs(xs[..i + 1]) == Diffs(xs[..i]) + [xs[i] - xs[i - 1]]
  {
  }

  /** The differences telescope: they add up to the last value minus the first. */
  lemma {:induction false} DiffsSum(xs: seq<real>)
    requires |xs| > 0
    ensures Sum(Diffs(xs)) == xs[|xs| - 1] - xs[0]
    decreases |xs|
  {
    if |xs| > 1 {
      var init := xs[..|xs| - 1];
      DiffsSum(init);
      if |init| == 1 {
        assert Diffs(xs) == [xs[1] - xs[0]];
        assert Diffs(xs)[..0] == [];
      } else {
        assert Diffs(xs)[..|Diffs(xs)| - 1] == Diffs(init);
      }
    }
  }
}
