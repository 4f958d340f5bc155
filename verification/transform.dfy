/** The transform stage: order the typed daily records by date, then append
    the derived analytics columns computed over the ordered close series. */
module Transform {
  import opened Wrappers
  import opened Prices
  import opened Sorting
  import opened Stats
  import opened Series

  /** Rows in the volatility window (`rolling(window=7)` over returns). */
  const VolatilityWindow: nat := 7
  /** Rows in the short moving average (`mean_20d`). */
  const ShortWindow: nat := 20
  /** Rows in the long moving average (`mean_50d`). */
  const LongWindow: nat := 50

  /** A daily record with the derived columns appended. `variance7d` is the
      square of `volatility_7d`; the other names follow the output table. */
  datatype EnrichedRow = EnrichedRow(
    date: int, open: real, high: real, low: real, close: real, volume: real,
    dailyReturn: Option<real>,
    variance7d: Option<real>,
    mean20d: Option<real>,
    mean50d: Option<real>,
    dayType: DayType)

  /** The original columns of an enriched record. */
  function Base(e: EnrichedRow): Row
  {
    Row(e.date, e.open, e.high, e.low, e.close, e.volume)
  }

  /** The original columns of an enriched table. */
  function Bases(es: seq<EnrichedRow>): (rs: seq<Row>)
    ensures |rs| == |es|
    ensures forall i :: 0 <= i < |es| ==> rs[i] == Base(es[i])
  {
    seq(|es|, i requires 0 <= i < |es| => Base(es[i]))
  }

  /** The `daily_return` column of an enriched table. */
  function Returns(es: seq<EnrichedRow>): (rs: seq<Option<real>>)
    ensures |rs| == |es|
    ensures forall i :: 0 <= i < |es| ==> rs[i] == es[i].dailyReturn
  {
    seq(|es|, i requires 0 <= i < |es| => es[i].dailyReturn)
  }

  /** No price is zero, so every daily return is a finite quotient. */
  predicate ClosesNonZero(rows: seq<Row>)
  {
    forall i :: 0 <= i < |rows| ==> rows[i].close != 0.0
  }

  /** Appends the derived columns to a table in the order given. */
  function Enrich(rows: seq<Row>): (out: seq<EnrichedRow>)
    requires NonZeroBeforeLast(Closes(rows))
    ensures Bases(out) == rows
  {
    var closes := Closes(rows);
    var rets := PctChange(closes);
    var vol := RollingVariance(rets, VolatilityWindow);
    var m20 := RollingMean(Lift(closes), ShortWindow);
    var m50 := RollingMean(Lift(closes), LongWindow);
    seq(|rows|, i requires 0 <= i < |rows| =>
      EnrichedRow(rows[i].date, rows[i].open, rows[i].high, rows[i].low, rows[i].close, rows[i].volume,
                  rets[i], vol[i], m20[i], m50[i], Classify(rets[i])))
  }

  /** `transform`: the records in date order, each carrying its original
      columns unchanged plus the derived ones. */
  function Transform(rows: seq<Row>): (out: seq<EnrichedRow>)
    requires ClosesNonZero(rows)
    ensures |out| == |rows|
    ensures SortedByDate(Bases(out))
    ensures multiset(Bases(out)) == multiset(rows)
    ensures forall i :: 0 <= i < |out| ==> out[i].close != 0.0
  {
    var sorted := SortByDate(rows);
    assert forall i :: 0 <= i < |sorted| ==> sorted[i] in multiset(rows);
    Enrich(sorted)
  }

  /** The sorted table `Transform` enriches has no zero close. */
  lemma SortedClosesNonZero(rows: seq<Row>)
    requires ClosesNonZero(rows)
    ensures NonZeroBeforeLast(Closes(SortByDate(rows)))
  {
    var sorted := SortByDate(rows);
    assert forall i :: 0 <= i < |sorted| ==> sorted[i] in multiset(rows);
  }

  /** `Transform` is `Enrich` applied to the date-ordered rows. */
  lemma TransformEnrichesSorted(rows: seq<Row>)
    requires ClosesNonZero(rows)
    ensures NonZeroBeforeLast(Closes(SortByDate(rows)))
    ensures Transform(rows) == Enrich(SortByDate(rows))
  {
    SortedClosesNonZero(rows);
  }

  /** `daily_return`: missing on the first row, and otherwise the change of
      the close against the previous row's close. */
  lemma TransformDailyReturn(rows: seq<Row>, i: int)
    requires ClosesNonZero(rows) && 0 <= i < |rows|
    ensures i == 0 ==> Transform(rows)[i].dailyReturn == None
    ensures i > 0 ==>
      Transform(rows)[i].dailyReturn == Some(Transform(rows)[i].close / Transform(rows)[i - 1].close - 1.0)
  {
    TransformEnrichesSorted(rows);
    var sorted := SortByDate(rows);
    EnrichDailyReturn(sorted, i);
  }

  /** `daily_return` of a table enriched in the order given. */
  lemma EnrichDailyReturn(rows: seq<Row>, i: int)
    requires NonZeroBeforeLast(Closes(rows)) && 0 <= i < |rows|
    ensures i == 0 ==> Enrich(rows)[i].dailyReturn == None
    ensures i > 0 ==> Enrich(rows)[i].dailyReturn == Some(rows[i].close / rows[i - 1].close - 1.0)
  {
  }

  /** `mean_20d` and `mean_50d`: missing until the window is full, then the
      mean of the closes of the last 20 (50) rows, including this one. */
  lemma TransformMovingAverages(rows: seq<Row>, i: int)
    requires ClosesNonZero(rows) && 0 <= i < |rows|
    ensures var out := Transform(rows); var closes := Closes(Bases(out));
      && (out[i].mean20d.Some? <==> i >= 19)
      && (out[i].mean50d.Some? <==> i >= 49)
      && (i >= 19 ==> out[i].mean20d == Some(Mean(closes[i - 19..i + 1])))
      && (i >= 49 ==> out[i].mean50d == Some(Mean(closes[i - 49..i + 1])))
  {
    var sorted := SortByDate(rows);
    var out := Transform(rows);
    assert NonZeroBeforeLast(Closes(sorted)) && out == Enrich(sorted) by {
      TransformEnrichesSorted(rows);
    }
    assert Closes(Bases(out)) == Closes(sorted);
    EnrichMovingAverages(sorted, i);
  }

  /** `mean_20d` and `mean_50d` of a table enriched in the order given. */
  lemma EnrichMovingAverages(rows: seq<Row>, i: int)
    requires NonZeroBeforeLast(Closes(rows)) && 0 <= i < |rows|
    ensures Enrich(rows)[i].mean20d.Some? <==> i >= 19
    ensures Enrich(rows)[i].mean50d.Some? <==> i >= 49
    ensures i >= 19 ==> Enrich(rows)[i].mean20d == Some(Mean(Closes(rows)[i - 19..i + 1]))
    ensures i >= 49 ==> Enrich(rows)[i].mean50d == Some(Mean(Closes(rows)[i - 49..i + 1]))
  {
    RollingMeanOfSeries(Closes(rows), ShortWindow, i);
    RollingMeanOfSeries(Closes(rows), LongWindow, i);
  }

  /** `volatility_7d` (as variance): missing on rows 0 to 6, because the
      7-row window still holds the first row's missing return; from row 7 on,
      the sample variance of the last seven daily returns, never negative. */
  lemma TransformVolatility(rows: seq<Row>, i: int)
    requires ClosesNonZero(rows) && 0 <= i < |rows|
    ensures Transform(rows)[i].variance7d.Some? <==> i >= 7
    ensures i >= 7 ==> AllPresent(Returns(Transform(rows))[i - 6..i + 1])
    ensures i >= 7 ==>
      Transform(rows)[i].variance7d == SampleVariance(Values(Returns(Transform(rows))[i - 6..i + 1]))
    ensures i >= 7 ==> Transform(rows)[i].variance7d.value >= 0.0
  {
    TransformEnrichesSorted(rows);
    EnrichVolatility(SortByDate(rows), i);
  }

  /** The 7-row variance of a table enriched in the order given. */
  lemma EnrichVolatility(rows: seq<Row>, i: int)
    requires NonZeroBeforeLast(Closes(rows)) && 0 <= i < |rows|
    ensures Enrich(rows)[i].variance7d.Some? <==> i >= 7
    ensures i >= 7 ==> AllPresent(Returns(Enrich(rows))[i - 6..i + 1])
    ensures i >= 7 ==>
      Enrich(rows)[i].variance7d == SampleVariance(Values(Returns(Enrich(rows))[i - 6..i + 1]))
  {
    var closes := Closes(rows);
    RollingVarianceOfReturns(closes, VolatilityWindow, i);
    if i >= 7 {
      assert Returns(Enrich(rows))[i - 6..i + 1] == PctChange(closes)[i - 6..i + 1];
    }
  }

  /** `day_type`: gain exactly when the return exceeds 1 %, loss exactly when
      it is below -1 %, neutral otherwise, including on the first row; in
      price terms (prices being positive), a gain is a close more than 1 %
      above the previous close and a loss one more than 1 % below it. */
  lemma TransformDayType(rows: seq<Row>, i: int)
    requires ClosesNonZero(rows) && 0 <= i < |rows|
    ensures i == 0 ==> Transform(rows)[i].dayType == Neutral
    ensures Transform(rows)[i].dayType == Gain <==>
      Transform(rows)[i].dailyReturn.Some? && Transform(rows)[i].dailyReturn.value > GainThreshold
    ensures Transform(rows)[i].dayType == Loss <==>
      Transform(rows)[i].dailyReturn.Some? && Transform(rows)[i].dailyReturn.value < -GainThreshold
    ensures i > 0 && Transform(rows)[i - 1].close > 0.0 ==>
      (Transform(rows)[i].dayType == Gain <==> Transform(rows)[i].close > (1.0 + GainThreshold) * Transform(rows)[i - 1].close)
    ensures i > 0 && Transform(rows)[i - 1].close > 0.0 ==>
      (Transform(rows)[i].dayType == Loss <==> Transform(rows)[i].close < (1.0 - GainThreshold) * Transform(rows)[i - 1].close)
  {
    TransformEnrichesSorted(rows);
    TransformDailyReturn(rows, i);
    if i > 0 && Transform(rows)[i - 1].close > 0.0 {
      ClassifyByPrice(Transform(rows)[i - 1].close, Transform(rows)[i].close);
    }
  }

  /** Enrichment looks only backwards: the derived columns of the first `n`
      rows do not depend on the rows after them. */
  lemma EnrichIsCausal(rows: seq<Row>, n: nat)
    requires NonZeroBeforeLast(Closes(rows)) && n <= |rows|
    ensures NonZeroBeforeLast(Closes(rows[..n]))
    ensures Enrich(rows[..n]) == Enrich(rows)[..n]
  {
    var closes := Closes(rows);
    assert Closes(rows[..n]) == closes[..n];
    PrefixStable(closes, n, VolatilityWindow);
    PrefixStable(closes, n, ShortWindow);
    PrefixStable(closes, n, LongWindow);
    var a := Enrich(rows[..n]);
    var b := Enrich(rows)[..n];
    forall i | 0 <= i < n
      ensures a[i] == b[i]
    {
    }
  }

  /** The analytics of a day depend only on that day and the days before it:
      on a chronological table, transforming the first `n` days gives the
      first `n` rows of transforming the whole table. */
  lemma TransformIsCausal(rows: seq<Row>, n: nat)
    requires ClosesNonZero(rows) && SortedByDate(rows) && n <= |rows|
    ensures Transform(rows[..n]) == Transform(rows)[..n]
  {
    var prefix := rows[..n];
    SortSortedIsIdentity(rows);
    SortSortedIsIdentity(prefix);
    TransformEnrichesSorted(rows);
    TransformEnrichesSorted(prefix);
    EnrichIsCausal(rows, n);
  }

  /** The output's date column is that of any chronological arrangement of
      the input: an unstable sort may order same-dated rows differently, but
      never changes which date stands on which row. */
  lemma TransformDatesDetermined(rows: seq<Row>, chronological: seq<Row>)
    requires ClosesNonZero(rows)
    requires SortedByDate(chronological) && multiset(chronological) == multiset(rows)
    ensures Dates(Bases(Transform(rows))) == Dates(chronological)
  {
    SortedDatesDetermined(Bases(Transform(rows)), chronological);
  }

  /** With distinct dates the output does not depend on how the sort breaks
      ties: it is the enrichment of the one chronological arrangement of the
      rows. */
  lemma TransformOfDistinctDates(rows: seq<Row>, chronological: seq<Row>)
    requires ClosesNonZero(rows)
    requires StrictlyByDate(chronological) && multiset(chronological) == multiset(rows)
    ensures NonZeroBeforeLast(Closes(chronological))
    ensures Transform(rows) == Enrich(chronological)
  {
    DistinctDatesDetermineOrder(rows, chronological);
    TransformEnrichesSorted(rows);
  }

  /** A table of exactly 20 days has exactly one `mean_20d`, on its last
      row, and no `mean_50d` at all. */
  lemma TwentyRowsHaveOneShortMean(rows: seq<Row>)
    requires ClosesNonZero(rows) && |rows| == 20
    ensures forall i :: 0 <= i < 19 ==> Transform(rows)[i].mean20d == None
    ensures Transform(rows)[19].mean20d.Some?
    ensures forall i :: 0 <= i < 20 ==> Transform(rows)[i].mean50d == None
  {
    forall i | 0 <= i < 20
      ensures (Transform(rows)[i].mean20d.Some? <==> i >= 19) && Transform(rows)[i].mean50d == None
    {
      TransformMovingAverages(rows, i);
    }
  }

  /** Three days given out of order: dated 3, 1, 2 with closes 99, 100 and
      101, whatever their other columns. */
  predicate ThreeDays(rows: seq<Row>)
  {
    && |rows| == 3
    && rows[0].date == 3 && rows[1].date == 1 && rows[2].date == 2
    && rows[0].close == 99.0 && rows[1].close == 100.0 && rows[2].close == 101.0
  }

  /** After sorting, the closes run 100, 101, 99; in exact arithmetic the
      returns are none, exactly 1 % (not above the threshold, hence neutral)
      and -2/101 (a loss); no window is full yet. */
  lemma ThreeDayScenario(rows: seq<Row>)
    requires ThreeDays(rows)
    ensures ClosesNonZero(rows)
    ensures var out := Transform(rows);
      && Dates(Bases(out)) == [1, 2, 3]
      && Returns(out) == [None, Some(0.01), Some(-2.0 / 101.0)]
      && out[0].dayType == Neutral && out[1].dayType == Neutral && out[2].dayType == Loss
      && out[2].variance7d == None && out[2].mean20d == None
  {
    var sorted := SortByDate(rows);
    assert sorted == [rows[1], rows[2], rows[0]] by {
      SortThreeDays(rows);
    }
    assert ClosesNonZero(rows);
    assert Transform(rows) == Enrich(sorted) by {
      TransformEnrichesSorted(rows);
    }
    SortedThreeDays(sorted);
  }

  /** Sorting puts the three days in date order 1, 2, 3. */
  lemma SortThreeDays(rows: seq<Row>)
    requires ThreeDays(rows)
    ensures SortByDate(rows) == [rows[1], rows[2], rows[0]]
  {
    assert rows[2..][1..] == [];
    assert SortByDate(rows[2..]) == [rows[2]];
    assert rows[1..][1..] == rows[2..];
    assert SortByDate(rows[1..]) == [rows[1], rows[2]];
    assert Insert(rows[0], []) == [rows[0]];
    assert [rows[2]][1..] == [];
    assert Insert(rows[0], [rows[2]]) == [rows[2], rows[0]];
    assert [rows[1], rows[2]][1..] == [rows[2]];
    assert Insert(rows[0], [rows[1], rows[2]]) == [rows[1], rows[2], rows[0]];
  }

  /** The derived columns of the three days in date order. */
  lemma SortedThreeDays(sorted: seq<Row>)
    requires |sorted| == 3
    requires sorted[0].date == 1 && sorted[1].date == 2 && sorted[2].date == 3
    requires sorted[0].close == 100.0 && sorted[1].close == 101.0 && sorted[2].close == 99.0
    ensures NonZeroBeforeLast(Closes(sorted))
    ensures var out := Enrich(sorted);
      && Dates(Bases(out)) == [1, 2, 3]
      && Returns(out) == [None, Some(0.01), Some(-2.0 / 101.0)]
      && out[0].dayType == Neutral && out[1].dayType == Neutral && out[2].dayType == Loss
      && out[2].variance7d == None && out[2].mean20d == None
  {
    var out := Enrich(sorted);
    EnrichDailyReturn(sorted, 0);
    EnrichDailyReturn(sorted, 1);
    EnrichDailyReturn(sorted, 2);
    assert Returns(out) == [None, Some(0.01), Some(-2.0 / 101.0)];
    assert Dates(Bases(out)) == [1, 2, 3];
  }
}
