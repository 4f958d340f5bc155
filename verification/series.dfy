/** The column operations the transform applies to the date-ordered close
    series: `pct_change`, `rolling(window).mean()`, `rolling(window).std()`
    (as variance) and the `np.select` classification. Missing cells (NaN)
    are `None`. A rolling window uses pandas' default `min_periods`, equal
    to the window size: a result is present only when the window is full
    and every value in it is present. */
module Series {
  import opened Wrappers
  import opened Prices
  import opened Stats

  /** A daily return above this fraction is a gain, below its negation a loss. */
  const GainThreshold: real := 0.01

  /** Every value that serves as a divisor in `PctChange` is non-zero. */
  predicate NonZeroBeforeLast(xs: seq<real>)
  {
    forall i :: 0 <= i < |xs| - 1 ==> xs[i] != 0.0
  }

  /** Every cell of a column is present. */
  predicate AllPresent(xs: seq<Option<real>>)
  {
    forall i :: 0 <= i < |xs| ==> xs[i].Some?
  }

  /** A column with no missing cells. */
  function Lift(xs: seq<real>): (r: seq<Option<real>>)
    ensures |r| == |xs| && AllPresent(r)
    ensures forall i :: 0 <= i < |xs| ==> r[i].value == xs[i]
  {
    seq(|xs|, i requires 0 <= i < |xs| => Some(xs[i]))
  }

  /** The values of a column with no missing cells. */
  function Values(xs: seq<Option<real>>): (r: seq<real>)
    requires AllPresent(xs)
    ensures |r| == |xs|
    ensures forall i :: 0 <= i < |xs| ==> xs[i] == Some(r[i])
  {
    seq(|xs|, i requires 0 <= i < |xs| && AllPresent(xs) => xs[i].value)
  }

  /** `pct_change`: the fractional change of each value against the one
      before it; the first value has no predecessor. */
  function PctChange(xs: seq<real>): (r: seq<Option<real>>)
    requires NonZeroBeforeLast(xs)
    ensures |r| == |xs|
    ensures |xs| > 0 ==> r[0] == None
    ensures forall i :: 1 <= i < |xs| ==> r[i].Some?
  {
    seq(|xs|, i requires 0 <= i < |xs| => if i == 0 then None else Some(xs[i] / xs[i - 1] - 1.0))
  }

  /** The window of `w` cells ending at `i` is full and has no missing cell,
      so pandas (`min_periods == w`) computes a value there. */
  predicate Full(xs: seq<Option<real>>, i: int, w: nat)
    requires 0 <= i < |xs|
  {
    0 < w <= i + 1 && forall k :: i - w < k <= i ==> xs[k].Some?
  }

  /** The values of the window of `w` cells ending at `i`, if it is full. */
  function Window(xs: seq<Option<real>>, i: int, w: nat): (r: Option<seq<real>>)
    requires 0 <= i < |xs|
    ensures r.Some? <==> Full(xs, i, w)
    ensures r.Some? ==> |r.value| == w
    ensures r.Some? ==> forall k :: 0 <= k < w ==> xs[i - w + 1 + k] == Some(r.value[k])
  {
    if Full(xs, i, w) then
      Some(seq(w, k requires 0 <= k < w => xs[i - w + 1 + k].value))
    else
      None
  }

  /** `rolling(w).mean()`. */
  function RollingMean(xs: seq<Option<real>>, w: nat): (r: seq<Option<real>>)
    ensures |r| == |xs|
    ensures forall i :: 0 <= i < |xs| ==> (r[i].Some? <==> Full(xs, i, w))
  {
    seq(|xs|, i requires 0 <= i < |xs| =>
      match Window(xs, i, w)
      case None => None
      case Some(v) => Some(Mean(v)))
  }

  /** `rolling(w).std()` squared: the sample variance of each full window.
      A one-cell window has no sample variance (pandas gives NaN). */
  function RollingVariance(xs: seq<Option<real>>, w: nat): (r: seq<Option<real>>)
    ensures |r| == |xs|
    ensures forall i :: 0 <= i < |xs| ==> (r[i].Some? <==> w >= 2 && Full(xs, i, w))
    ensures forall i :: 0 <= i < |xs| && r[i].Some? ==> r[i].value >= 0.0
  {
    seq(|xs|, i requires 0 <= i < |xs| =>
      match Window(xs, i, w)
      case None => None
      case Some(v) => SampleVariance(v))
  }

  /** `np.select([ret > 0.01, ret < -0.01], ["gain", "loss"], "neutral")`:
      the gain test comes first, and a missing return fails both tests. */
  function Classify(ret: Option<real>): (d: DayType)
    ensures d == Gain <==> ret.Some? && ret.value > GainThreshold
    ensures d == Loss <==> ret.Some? && ret.value < -GainThreshold
    ensures d == Neutral <==> ret.None? || -GainThreshold <= ret.value <= GainThreshold
  {
    if ret.Some? && ret.value > GainThreshold then Gain
    else if ret.Some? && ret.value < -GainThreshold then Loss
    else Neutral
  }

  /** Rebuilds a price series from a starting price and the returns that
      follow it, each price being the previous one times (1 + return). */
  function Compound(start: real, rets: seq<real>): (xs: seq<real>)
    ensures |xs| == |rets| + 1 && xs[0] == start
    decreases |rets|
  {
    if |rets| == 0 then [start] else [start] + Compound(Grow(start, rets[0]), rets[1..])
  }

  /** The price that follows `price` after a return of `ret`. */
  function Grow(price: real, ret: real): real
  {
    price * (1.0 + ret)
  }

  /** `pct_change` loses nothing but the first price: compounding the
      returns from the first price gives back the whole series. */
  lemma ReturnsRebuildSeries(xs: seq<real>)
    requires |xs| > 0 && NonZeroBeforeLast(xs)
    ensures Compound(xs[0], Values(PctChange(xs)[1..])) == xs
  {
    ReturnsRebuildSuffix(xs, 0);
  }

  lemma {:induction false} ReturnsRebuildSuffix(xs: seq<real>, k: nat)
    requires k < |xs| && NonZeroBeforeLast(xs)
    ensures Compound(xs[k], Values(PctChange(xs)[k + 1..])) == xs[k..]
    decreases |xs| - k
  {
    var rets := Values(PctChange(xs)[k + 1..]);
    if k + 1 < |xs| {
      assert |rets| > 0 && rets[0] == xs[k + 1] / xs[k] - 1.0;
      CompoundStep(xs[k], xs[k + 1]);
      assert Compound(xs[k], rets) == [xs[k]] + Compound(xs[k + 1], rets[1..]);
      ReturnsTail(xs, k);
      ReturnsRebuildSuffix(xs, k + 1);
      assert xs[k..] == [xs[k]] + xs[k + 1..];
    } else {
      assert xs[k..] == [xs[k]];
    }
  }

  /** Dropping the first of the returns after row k leaves the returns
      after row k + 1. */
  lemma ReturnsTail(xs: seq<real>, k: nat)
    requires k + 1 < |xs| && NonZeroBeforeLast(xs)
    ensures AllPresent(PctChange(xs)[k + 1..]) && AllPresent(PctChange(xs)[k + 2..])
    ensures Values(PctChange(xs)[k + 1..])[1..] == Values(PctChange(xs)[k + 2..])
  {
    var rets := PctChange(xs);
    assert AllPresent(rets[k + 1..]);
    assert AllPresent(rets[k + 2..]);
    var a := Values(rets[k + 1..])[1..];
    var b := Values(rets[k + 2..]);
    assert |a| == |b|;
    forall j | 0 <= j < |a|
      ensures a[j] == b[j]
    {
      assert rets[k + 1..][j + 1] == rets[k + 2..][j];
    }
  }

  /** One compounding step undoes one `pct_change` step. */
  lemma CompoundStep(prev: real, next: real)
    requires prev != 0.0
    ensures Grow(prev, next / prev - 1.0) == next
  {
  }

  /** In price terms, a day is a gain exactly when the close rose by more
      than 1 % over the previous close, and a loss exactly when it fell by
      more than 1 %. */
  lemma ClassifyByPrice(prev: real, close: real)
    requires prev > 0.0
    ensures Classify(Some(close / prev - 1.0)) == Gain <==> close > (1.0 + GainThreshold) * prev
    ensures Classify(Some(close / prev - 1.0)) == Loss <==> close < (1.0 - GainThreshold) * prev
  {
    var q := close / prev;
    assert q * prev == close;
    assert Classify(Some(q - 1.0)) == Gain <==> q > 1.0 + GainThreshold;
    assert Classify(Some(q - 1.0)) == Loss <==> q < 1.0 - GainThreshold;
    ScaleKeepsOrder(1.0 + GainThreshold, q, prev);
    assert q > 1.0 + GainThreshold <==> close > (1.0 + GainThreshold) * prev;
    ScaleKeepsOrder(q, 1.0 - GainThreshold, prev);
    assert q < 1.0 - GainThreshold <==> close < (1.0 - GainThreshold) * prev;
  }

  /** Multiplying by a positive factor keeps a strict order, both ways. */
  lemma ScaleKeepsOrder(a: real, b: real, p: real)
    requires p > 0.0
    ensures a < b <==> a * p < b * p
  {
    if a < b {
      assert (b - a) * p > 0.0;
    } else {
      assert (a - b) * p >= 0.0;
    }
  }

  /** A larger return never gets a lower label: Loss < Neutral < Gain. */
  lemma ClassifyMonotone(a: real, b: real)
    requires a <= b
    ensures Rank(Classify(Some(a))) <= Rank(Classify(Some(b)))
  {
  }

  /** The order of the labels along the return axis. */
  function Rank(d: DayType): int
  {
    match d
    case Loss => 0
    case Neutral => 1
    case Gain => 2
  }

  /** Over a column with no gaps, the rolling mean at `i` is missing exactly
      while fewer than `w` rows exist, and is otherwise the mean of the last
      `w` values. */
  lemma RollingMeanOfSeries(xs: seq<real>, w: nat, i: int)
    requires 0 <= i < |xs|
    ensures RollingMean(Lift(xs), w)[i].Some? <==> 0 < w <= i + 1
    ensures 0 < w <= i + 1 ==> RollingMean(Lift(xs), w)[i] == Some(Mean(xs[i - w + 1..i + 1]))
  {
    if 0 < w <= i + 1 {
      var v := Window(Lift(xs), i, w).value;
      assert v == xs[i - w + 1..i + 1];
    }
  }

  /** The moving average can be maintained incrementally: from one row to
      the next it moves by the entering value minus the leaving one, divided
      by the window size. */
  lemma RollingMeanSlides(xs: seq<real>, w: nat, i: int)
    requires 0 < w <= i < |xs|
    ensures RollingMean(Lift(xs), w)[i].value
         == RollingMean(Lift(xs), w)[i - 1].value + (xs[i] - xs[i - w]) / (w as real)
  {
    RollingMeanOfSeries(xs, w, i);
    RollingMeanOfSeries(xs, w, i - 1);
    MeanSlides(xs, i - w, i);
  }

  /** A moving average stays within any bounds its window's values obey. */
  lemma RollingMeanWithinWindowRange(xs: seq<real>, w: nat, i: int, lo: real, hi: real)
    requires 0 < w <= i + 1 <= |xs|
    requires forall k :: i - w < k <= i ==> lo <= xs[k] <= hi
    ensures lo <= RollingMean(Lift(xs), w)[i].value <= hi
  {
    RollingMeanOfSeries(xs, w, i);
    var v := xs[i - w + 1..i + 1];
    assert forall k :: 0 <= k < |v| ==> v[k] == xs[i - w + 1 + k];
    MeanWithinBounds(v, lo, hi);
  }

  /** A rolling statistic over the returns never sees a full window that
      reaches back to the first row, whose return is missing: at `i` the
      window of `w >= 2` returns is complete exactly when `i >= w`, and it
      then holds the returns of rows `i - w + 1` to `i`. */
  lemma RollingVarianceOfReturns(xs: seq<real>, w: nat, i: int)
    requires NonZeroBeforeLast(xs) && 0 <= i < |xs| && w >= 2
    ensures RollingVariance(PctChange(xs), w)[i].Some? <==> i >= w
    ensures i >= w ==>
      RollingVariance(PctChange(xs), w)[i] == SampleVariance(Values(PctChange(xs)[i - w + 1..i + 1]))
  {
    var rets := PctChange(xs);
    if i < w && i + 1 >= w {
      assert !rets[i - w + 1].Some?;
    }
    if i >= w {
      assert Window(rets, i, w).value == Values(rets[i - w + 1..i + 1]);
    }
  }

  /** Every column operation looks only backwards: computing it on the first
      `n` rows gives the first `n` cells of computing it on all rows. */
  lemma PrefixStable(xs: seq<real>, n: nat, w: nat)
    requires n <= |xs| && NonZeroBeforeLast(xs)
    ensures PctChange(xs[..n]) == PctChange(xs)[..n]
    ensures RollingMean(Lift(xs[..n]), w) == RollingMean(Lift(xs), w)[..n]
    ensures RollingVariance(PctChange(xs[..n]), w) == RollingVariance(PctChange(xs), w)[..n]
  {
    assert Lift(xs[..n]) == Lift(xs)[..n];
    WindowPrefix(Lift(xs), n, w);
    WindowPrefix(PctChange(xs), n, w);
  }

  /** Windows ending inside a prefix are the same in the prefix. */
  lemma WindowPrefix(xs: seq<Option<real>>, n: nat, w: nat)
    requires n <= |xs|
    ensures forall i :: 0 <= i < n ==> Window(xs[..n], i, w) == Window(xs, i, w)
  {
    forall i | 0 <= i < n
      ensures Window(xs[..n], i, w) == Window(xs, i, w)
    {
      assert Full(xs[..n], i, w) == Full(xs, i, w);
      if Full(xs, i, w) {
        var a := Window(xs[..n], i, w).value;
        var b := Window(xs, i, w).value;
        assert forall k :: 0 <= k < w ==> a[k] == b[k];
        assert a == b;
      }
    }
  }
}
