/** The chronological sort of the transform (`df.sort_values("date")`).
    pandas sorts with an unstable quicksort, so rows sharing a date come out
    in an unspecified relative order. `SortByDate` promises only what every
    such sort delivers (a date-ordered permutation); it breaks ties by input
    order. `SortedDatesDetermined` shows the date column does not depend on
    how ties were broken, and `DistinctDatesDetermineOrder` that without
    ties every sort gives the same table. */
module Sorting {
  import opened Prices

  /** Places `r` into the date-ordered table `s`, before the first row that is
      not dated earlier. */
  function Insert(r: Row, s: seq<Row>): (t: seq<Row>)
    requires SortedByDate(s)
    ensures |t| == |s| + 1
    ensures SortedByDate(t)
    ensures multiset(t) == multiset(s) + multiset{r}
    ensures t[0] == r || (|s| > 0 && t[0] == s[0])
  {
    if |s| == 0 || r.date <= s[0].date then
      [r] + s
    else
      assert s == [s[0]] + s[1..];
      var rest := Insert(r, s[1..]);
      PrependKeepsOrder(s[0], rest);
      [s[0]] + rest
  }

  /** A row dated no later than the first row of a date-ordered table can be
      put in front of it. */
  lemma PrependKeepsOrder(x: Row, rest: seq<Row>)
    requires SortedByDate(rest)
    requires |rest| > 0 ==> x.date <= rest[0].date
    ensures SortedByDate([x] + rest)
  {
    var t := [x] + rest;
    forall i, j | 0 <= i < j < |t|
      ensures t[i].date <= t[j].date
    {
      if i == 0 {
        assert t[j] == rest[j - 1];
        assert rest[0].date <= rest[j - 1].date;
      } else {
        assert t[i] == rest[i - 1] && t[j] == rest[j - 1];
      }
    }
  }

  /** The rows of `s` in non-decreasing date order, duplicates kept. */
  function SortByDate(s: seq<Row>): (t: seq<Row>)
    ensures |t| == |s|
    ensures SortedByDate(t)
    ensures multiset(t) == multiset(s)
  {
    if |s| == 0 then []
    else
      assert s == [s[0]] + s[1..];
      Insert(s[0], SortByDate(s[1..]))
  }

  /** Sorting a table already in date order leaves it unchanged: the
      insertion sort keeps same-dated rows in their input order. */
  lemma {:induction false} SortSortedIsIdentity(s: seq<Row>)
    requires SortedByDate(s)
    ensures SortByDate(s) == s
  {
    if |s| > 0 {
      SortSortedIsIdentity(s[1..]);
    }
  }

  /** Removing one row from a date-ordered table keeps it date-ordered and
      takes exactly that row out of its multiset. */
  lemma RemoveAtKeepsOrder(b: seq<Row>, j: int)
    requires SortedByDate(b) && 0 <= j < |b|
    ensures SortedByDate(b[..j] + b[j+1..])
    ensures multiset(b[..j] + b[j+1..]) == multiset(b) - multiset{b[j]}
  {
    var b' := b[..j] + b[j+1..];
    assert b == b[..j] + [b[j]] + b[j+1..];
    forall p, q | 0 <= p < q < |b'|
      ensures b'[p].date <= b'[q].date
    {
      var p0 := if p < j then p else p + 1;
      var q0 := if q < j then q else q + 1;
      assert b'[p] == b[p0] && b'[q] == b[q0];
    }
  }

  /** Two date-ordered arrangements of the same non-empty multiset of rows
      start on the same date, the earliest one; `j` locates `a`'s first row
      inside `b`. */
  lemma SameEarliestDate(a: seq<Row>, b: seq<Row>) returns (j: int)
    requires SortedByDate(a) && SortedByDate(b)
    requires multiset(a) == multiset(b) && |a| > 0
    ensures 0 <= j < |b| && b[j] == a[0]
    ensures a[0].date == b[0].date
  {
    assert a[0] in multiset(b);
    j :| 0 <= j < |b| && b[j] == a[0];
    assert b[0] in multiset(a);
    var i :| 0 <= i < |a| && a[i] == b[0];
  }

  /** Putting back a row dated like the first row of `b`: if the rest of `a`
      matches `b` with its `j`-th row removed, all of `a` matches `b`. */
  lemma DatesAfterReinsert(a: seq<Row>, b: seq<Row>, j: int)
    requires SortedByDate(b) && 0 <= j < |b| && |a| == |b|
    requires a[0].date == b[j].date == b[0].date
    requires Dates(a[1..]) == Dates(b[..j] + b[j+1..])
    ensures Dates(a) == Dates(b)
  {
    var b' := b[..j] + b[j+1..];
    forall k | 0 <= k < |b|
      ensures Dates(a)[k] == Dates(b)[k]
    {
      if 0 < k <= j {
        assert b[0].date <= b[k].date <= b[j].date;
        assert b[0].date <= b[k - 1].date <= b[j].date;
        assert b'[k - 1] == b[k - 1];
        assert Dates(a[1..])[k - 1] == Dates(b')[k - 1];
      } else if k > j {
        assert b'[k - 1] == b[k];
        assert Dates(a[1..])[k - 1] == Dates(b')[k - 1];
      }
    }
  }

  /** Any two date-ordered arrangements of the same rows agree on the date
      column: which of several same-dated rows comes first is the only
      freedom an unstable sort has. */
  lemma {:induction false} SortedDatesDetermined(a: seq<Row>, b: seq<Row>)
    requires SortedByDate(a) && SortedByDate(b)
    requires multiset(a) == multiset(b)
    ensures Dates(a) == Dates(b)
    decreases |a|
  {
    assert |a| == |multiset(a)| == |multiset(b)| == |b|;
    if |a| > 0 {
      var j := SameEarliestDate(a, b);
      var a' := a[1..];
      var b' := b[..j] + b[j+1..];
      assert a == [a[0]] + a';
      assert multiset(a') == multiset(a) - multiset{a[0]};
      RemoveAtKeepsOrder(b, j);
      assert SortedByDate(a');
      SortedDatesDetermined(a', b');
      DatesAfterReinsert(a, b, j);
    }
  }

  /** When no date repeats there is only one chronological arrangement of
      the rows, so whatever ties an unstable sort might break, its result is
      `SortByDate`'s. */
  lemma DistinctDatesDetermineOrder(rows: seq<Row>, chronological: seq<Row>)
    requires StrictlyByDate(chronological)
    requires multiset(chronological) == multiset(rows)
    ensures SortByDate(rows) == chronological
  {
    var t := SortByDate(rows);
    SortedDatesDetermined(t, chronological);
    forall k | 0 <= k < |t|
      ensures t[k] == chronological[k]
    {
      SamePositionWhenDatesDistinct(t, chronological, k);
    }
  }

  /** With distinct dates, a row's date fixes its position. */
  lemma SamePositionWhenDatesDistinct(t: seq<Row>, c: seq<Row>, k: int)
    requires StrictlyByDate(c) && multiset(t) == multiset(c)
    requires Dates(t) == Dates(c) && 0 <= k < |t|
    ensures t[k] == c[k]
  {
    assert t[k] in multiset(c);
    var j :| 0 <= j < |c| && c[j] == t[k];
    assert Dates(t)[k] == Dates(c)[k];
  }
}
