/** The window statistics pandas applies to a full rolling window:
    arithmetic mean (`rolling().mean()`) and sample variance with Bessel's
    correction (`rolling().std()` squared, ddof = 1). */
module Stats {
  import opened Wrappers

  /** The sum of a series, folded from the front. */
  function Sum(v: seq<real>): real
  {
    if |v| == 0 then 0.0 else v[0] + Sum(v[1..])
  }

  /** The arithmetic mean of a non-empty series. */
  function Mean(v: seq<real>): real
    requires |v| > 0
  {
    Sum(v) / (|v| as real)
  }

  /** The sum of squared deviations of `v` from `m`. */
  function SquaredDeviations(v: seq<real>, m: real): real
  {
    if |v| == 0 then 0.0 else (v[0] - m) * (v[0] - m) + SquaredDeviations(v[1..], m)
  }

  /** Sample variance, denominator n - 1. With fewer than two values the
      denominator is zero and pandas yields NaN, modelled as `None`. */
  function SampleVariance(v: seq<real>): (r: Option<real>)
    ensures r.Some? <==> |v| >= 2
    ensures r.Some? ==> r.value >= 0.0
  {
    if |v| < 2 then None
    else
      SquaredDeviationsNonNegative(v, Mean(v));
      Some(SquaredDeviations(v, Mean(v)) / ((|v| - 1) as real))
  }

  /** A sum of squares is never negative. */
  lemma {:induction false} SquaredDeviationsNonNegative(v: seq<real>, m: real)
    ensures SquaredDeviations(v, m) >= 0.0
  {
    if |v| > 0 {
      SquareNonNegative(v[0] - m);
      SquaredDeviationsNonNegative(v[1..], m);
    }
  }

  /** Squares of reals are non-negative. */
  lemma SquareNonNegative(d: real)
    ensures d * d >= 0.0
  {
    if d < 0.0 {
      assert d * d == (-d) * (-d);
    }
  }

  /** Sum distributes over concatenation. */
  lemma {:induction false} SumConcat(a: seq<real>, b: seq<real>)
    ensures Sum(a + b) == Sum(a) + Sum(b)
  {
    if |a| == 0 {
      assert a + b == b;
    } else {
      assert (a + b)[1..] == a[1..] + b;
      SumConcat(a[1..], b);
    }
  }

  /** A sum of values in [lo, hi] lies between n * lo and n * hi. */
  lemma {:induction false} SumBounds(v: seq<real>, lo: real, hi: real)
    requires forall k :: 0 <= k < |v| ==> lo <= v[k] <= hi
    ensures (|v| as real) * lo <= Sum(v) <= (|v| as real) * hi
  {
    if |v| > 0 {
      SumBounds(v[1..], lo, hi);
    }
  }

  /** The mean of a series lies between any lower and upper bound of its
      values: a moving average never leaves the range of its window. */
  lemma MeanWithinBounds(v: seq<real>, lo: real, hi: real)
    requires |v| > 0
    requires forall k :: 0 <= k < |v| ==> lo <= v[k] <= hi
    ensures lo <= Mean(v) <= hi
  {
    SumBounds(v, lo, hi);
    var n := |v| as real;
    assert Mean(v) * n == Sum(v);
  }

  /** The sum of n copies of c is n * c. */
  lemma {:induction false} SumConstant(v: seq<real>, c: real)
    requires forall k :: 0 <= k < |v| ==> v[k] == c
    ensures Sum(v) == (|v| as real) * c
  {
    if |v| > 0 {
      SumConstant(v[1..], c);
    }
  }

  /** No value deviates from `m` when every value equals `m`. */
  lemma {:induction false} SquaredDeviationsOfConstant(v: seq<real>, c: real)
    requires forall k :: 0 <= k < |v| ==> v[k] == c
    ensures SquaredDeviations(v, c) == 0.0
  {
    if |v| > 0 {
      SquaredDeviationsOfConstant(v[1..], c);
    }
  }

  /** A constant series has mean c and, with at least two values, sample
      variance zero: a steady series has no volatility. */
  lemma ConstantHasZeroVariance(v: seq<real>, c: real)
    requires |v| >= 2
    requires forall k :: 0 <= k < |v| ==> v[k] == c
    ensures Mean(v) == c
    ensures SampleVariance(v) == Some(0.0)
  {
    SumConstant(v, c);
    SquaredDeviationsOfConstant(v, c);
  }

  /** Moving a window one step to the right moves its mean by the entering
      value minus the leaving one, divided by the window size. */
  lemma MeanSlides(xs: seq<real>, a: int, b: int)
    requires 0 <= a < b < |xs|
    ensures Mean(xs[a + 1..b + 1]) == Mean(xs[a..b]) + (xs[b] - xs[a]) / ((b - a) as real)
  {
    var n := (b - a) as real;
    SumSlides(xs, a, b);
    DivideSum(Sum(xs[a..b]), xs[b] - xs[a], n);
  }

  /** Division by a positive count distributes over a sum. */
  lemma DivideSum(x: real, y: real, n: real)
    requires n > 0.0
    ensures (x + y) / n == x / n + y / n
  {
  }

  /** Moving a window of a series one step to the right adds the entering
      value and drops the leaving one. */
  lemma SumSlides(xs: seq<real>, a: int, b: int)
    requires 0 <= a < b < |xs|
    ensures Sum(xs[a + 1..b + 1]) == Sum(xs[a..b]) - xs[a] + xs[b]
  {
    var prev := xs[a..b];
    var cur := xs[a + 1..b + 1];
    assert xs[a..b + 1] == prev + [xs[b]];
    assert xs[a..b + 1] == [xs[a]] + cur;
    SumConcat(prev, [xs[b]]);
    SumConcat([xs[a]], cur);
    assert Sum([xs[b]]) == xs[b] + Sum([]);
    assert Sum([xs[a]]) == xs[a] + Sum([]);
  }
}
