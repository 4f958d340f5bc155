/** The pure part of the extract stage: once the HTTP response has been
    decoded, check that it carries the daily time series and turn that
    series into one raw record per date. */
module Extract {
  import opened Wrappers

  /** The key under which the API returns the daily series. */
  const TimeSeriesKey: string := "Time Series (Daily)"

  /** The decoded response body, reduced to what the API sends: objects whose
      leaves are strings. An object keeps its members in document order, as
      a decoded Python dict does. */
  datatype Json = JString(text: string) | JObject(members: seq<Member>)

  /** One key/value member of a JSON object. */
  datatype Member = Member(key: string, value: Json)

  /** One untyped daily record: the date key and that date's entry (the
      "1. open" ... "5. volume" fields, still as text). */
  datatype RawRow = RawRow(date: string, entry: Json)

  /** `DataUnavailable` carries the whole payload, as the raised message
      does; `MalformedSeries` is pandas failing on a series it cannot turn
      into a table. */
  datatype ExtractError = DataUnavailable(payload: map<string, Json>) | MalformedSeries

  /** `from_dict(orient="index")` decides from the first entry alone whether
      the series is a dict of dicts; if it is, every entry is read as a dict,
      and an entry that is not one makes it fail. */
  predicate FlatEntryAfterNested(members: seq<Member>)
  {
    && |members| > 0
    && members[0].value.JObject?
    && exists k :: 0 <= k < |members| && !members[k].value.JObject?
  }

  /** The column `rename_axis("date").reset_index()` adds for the dates. */
  const DateColumn: string := "date"

  /** A JSON object with a member under `name`. */
  predicate HasField(j: Json, name: string)
  {
    j.JObject? && exists m :: 0 <= m < |j.members| && j.members[m].key == name
  }

  /** On the dict-of-dicts path the entries' fields become the table's
      columns, so a field called "date" leaves no room for the date column
      that `reset_index` inserts, and the insertion raises. */
  predicate DateFieldInNested(members: seq<Member>)
  {
    && |members| > 0
    && members[0].value.JObject?
    && exists k :: 0 <= k < |members| && HasField(members[k].value, DateColumn)
  }

  /** No key occurs twice in an object, as in any decoded dict. */
  predicate DistinctKeys(members: seq<Member>)
  {
    forall i, j :: 0 <= i < j < |members| ==> members[i].key != members[j].key
  }

  /** No date occurs on two rows. */
  predicate DistinctDates(rows: seq<RawRow>)
  {
    forall i, j :: 0 <= i < j < |rows| ==> rows[i].date != rows[j].date
  }

  /** `extract` after the response is decoded: fails with the payload when the
      series key is missing, fails when pandas cannot read the series as a
      table or cannot add the date column to it, and otherwise yields one row per entry of the series, in the
      series' order, each row keyed by its date and carrying its entry (the
      table pandas builds when every entry carries the same fields). */
  method ExtractRows(payload: map<string, Json>) returns (r: Result<seq<RawRow>, ExtractError>)
    ensures TimeSeriesKey !in payload <==> r == Failure(DataUnavailable(payload))
    ensures TimeSeriesKey in payload && !payload[TimeSeriesKey].JObject? ==> r == Failure(MalformedSeries)
    ensures TimeSeriesKey in payload && payload[TimeSeriesKey].JObject? ==>
      (r == Failure(MalformedSeries) <==>
         FlatEntryAfterNested(payload[TimeSeriesKey].members) || DateFieldInNested(payload[TimeSeriesKey].members))
    ensures r.Success? <==>
      TimeSeriesKey in payload && payload[TimeSeriesKey].JObject?
      && !FlatEntryAfterNested(payload[TimeSeriesKey].members)
      && !DateFieldInNested(payload[TimeSeriesKey].members)
    ensures r.Success? ==>
      && |r.value| == |payload[TimeSeriesKey].members|
      && (forall i :: 0 <= i < |r.value| ==>
            r.value[i] == RawRow(payload[TimeSeriesKey].members[i].key, payload[TimeSeriesKey].members[i].value))
      && (DistinctKeys(payload[TimeSeriesKey].members) ==> DistinctDates(r.value))
  {
    if TimeSeriesKey !in payload {
      return Failure(DataUnavailable(payload));
    }
    if !payload[TimeSeriesKey].JObject? {
      return Failure(MalformedSeries);
    }
    var members := payload[TimeSeriesKey].members;
    var nested := |members| > 0 && members[0].value.JObject?;
    var rows: seq<RawRow> := [];
    var i := 0;
    while i < |members|
      invariant 0 <= i <= |members|
      invariant |rows| == i
      invariant forall k :: 0 <= k < i ==> rows[k] == RawRow(members[k].key, members[k].value)
      invariant nested ==> forall k :: 0 <= k < i ==> members[k].value.JObject?
      invariant nested ==> forall k :: 0 <= k < i ==> !HasField(members[k].value, DateColumn)
    {
      if nested && (!members[i].value.JObject? || HasField(members[i].value, DateColumn)) {
        return Failure(MalformedSeries);
      }
      rows := rows + [RawRow(members[i].key, members[i].value)];
      i := i + 1;
    }
    return Success(rows);
  }
}
