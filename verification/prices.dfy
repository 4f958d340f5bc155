/** The records the pipeline moves around: one typed daily price record per
    trading day, and the three-way label the transform attaches to it. */
module Prices {

  /** One trading day once its fields have been typed: `date` is a day
      ordinal (the parsed calendar date), the rest are the OHLCV columns. */
  datatype Row = Row(date: int, open: real, high: real, low: real, close: real, volume: real)

  /** The `day_type` column. */
  datatype DayType = Gain | Loss | Neutral

  /** The `date` column of a table. */
  function Dates(rows: seq<Row>): (ds: seq<int>)
    ensures |ds| == |rows|
    ensures forall i :: 0 <= i < |rows| ==> ds[i] == rows[i].date
  {
    seq(|rows|, i requires 0 <= i < |rows| => rows[i].date)
  }

  /** The `close` column of a table. */
  function Closes(rows: seq<Row>): (cs: seq<real>)
    ensures |cs| == |rows|
    ensures forall i :: 0 <= i < |rows| ==> cs[i] == rows[i].close
  {
    seq(|rows|, i requires 0 <= i < |rows| => rows[i].close)
  }

  /** A table is in chronological order: no row is dated after a later row. */
  predicate SortedByDate(rows: seq<Row>)
  {
    forall i, j :: 0 <= i < j < |rows| ==> rows[i].date <= rows[j].date
  }

  /** A table in chronological order with no date repeated, as the daily
      series of the API is: its dates are the keys of one JSON object. */
  predicate StrictlyByDate(rows: seq<Row>)
  {
    forall i, j :: 0 <= i < j < |rows| ==> rows[i].date < rows[j].date
  }
}
