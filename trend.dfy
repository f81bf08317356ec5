/**
  `adult_digital_trend` (main.py:157-158): the demographic table indexed by its
  parsed `date`, resampled by calendar month, `demo_age_17_` summed per month.
  The result has one entry for every month from the earliest to the latest
  date, a month without rows summing to zero; rows whose date is NaT fall in
  no month.
 */
module Trend {
  import opened Wrappers
  import opened Frames
  import Calendar

  /** A row with a parsed date. */
  predicate Dated(r: Row) {
    r.date.Some? && r.date.value.Stamp?
  }

  /** The consecutive number of the month a dated row falls in. */
  function MonthOf(r: Row): int
    requires Dated(r)
  {
    Calendar.MonthIndex(r.date.value.day)
  }

  predicate HasDated(rows: seq<Row>) {
    exists i :: 0 <= i < |rows| && Dated(rows[i])
  }

  /** The month of the earliest date, if any row has one. */
  function EarliestMonth(rows: seq<Row>): Option<int> {
    if |rows| == 0 then None
    else
      var init := EarliestMonth(rows[..|rows| - 1]);
      var last := rows[|rows| - 1];
      if !Dated(last) then init
      else if init.None? || MonthOf(last) < init.value then Some(MonthOf(last))
      else init
  }

  /** The month of the latest date, if any row has one. */
  function LatestMonth(rows: seq<Row>): Option<int> {
    if |rows| == 0 then None
    else
      var init := LatestMonth(rows[..|rows| - 1]);
      var last := rows[|rows| - 1];
      if !Dated(last) then init
      else if init.None? || init.value < MonthOf(last) then Some(MonthOf(last))
      else init
  }

  /** There is an earliest month exactly when some date parsed; it is a lower bound on, and one of, the rows' months. */
  lemma {:induction false} EarliestMonthSpec(rows: seq<Row>)
    ensures EarliestMonth(rows).Some? <==> HasDated(rows)
    ensures EarliestMonth(rows).Some? ==>
      && (forall i :: 0 <= i < |rows| && Dated(rows[i]) ==> EarliestMonth(rows).value <= MonthOf(rows[i]))
      && (exists i :: 0 <= i < |rows| && Dated(rows[i]) && MonthOf(rows[i]) == EarliestMonth(rows).value)
  {
    if |rows| > 0 {
      var n := |rows| - 1;
      EarliestMonthSpec(rows[..n]);
      assert forall i :: 0 <= i < n ==> rows[..n][i] == rows[i];
    }
  }

  /** There is a latest month exactly when some date parsed; it is an upper bound on, and one of, the rows' months. */
  lemma {:induction false} LatestMonthSpec(rows: seq<Row>)
    ensures LatestMonth(rows).Some? <==> HasDated(rows)
    ensures LatestMonth(rows).Some? ==>
      && (forall i :: 0 <= i < |rows| && Dated(rows[i]) ==> MonthOf(rows[i]) <= LatestMonth(rows).value)
      && (exists i :: 0 <= i < |rows| && Dated(rows[i]) && MonthOf(rows[i]) == LatestMonth(rows).value)
  {
    if |rows| > 0 {
      var n := |rows| - 1;
      LatestMonthSpec(rows[..n]);
      assert forall i :: 0 <= i < n ==> rows[..n][i] == rows[i];
    }
  }

  /** The column summed over the rows dated in month `m`. */
  function BucketSum(rows: seq<Row>, column: string, m: int): int {
    if |rows| == 0 then 0
    else
      var last := rows[|rows| - 1];
      BucketSum(rows[..|rows| - 1], column, m) + (if Dated(last) && MonthOf(last) == m then Count(last, column) else 0)
  }

  /** `resample("M")[column].sum()`: every month from the earliest to the latest, with its sum. */
  function MonthlyTrend(rows: seq<Row>, column: string): seq<(Calendar.Month, int)> {
    var first, last := EarliestMonth(rows), LatestMonth(rows);
    if first.Some? && last.Some? then
      EarliestMonthSpec(rows);
      LatestMonthSpec(rows);
      var lo, hi := first.value, last.value;
      seq(hi - lo + 1, i requires 0 <= i < hi - lo + 1 => (Calendar.MonthAt(lo + i), BucketSum(rows, column, lo + i)))
    else []
  }

  /** Why `resample` refuses a table. */
  datatype ResampleError = AllDatesMissing

  /**
    `resample("M")` on the table indexed by its dates: an empty table gives an
    empty series, but a table whose every date is NaT has no first or last
    month to build the bins from, and pandas raises.
   */
  function Resample(rows: seq<Row>, column: string): Result<seq<(Calendar.Month, int)>, ResampleError> {
    if |rows| > 0 && !HasDated(rows) then Failure(AllDatesMissing) else Success(MonthlyTrend(rows, column))
  }

  /** Resampling fails exactly on a non-empty table with no parsed date; otherwise the series is empty exactly when the table is. */
  lemma {:induction false} ResampleSpec(rows: seq<Row>, column: string)
    ensures Resample(rows, column).Failure? <==> |rows| > 0 && !HasDated(rows)
    ensures Resample(rows, column).Success? ==> (|Resample(rows, column).value| == 0 <==> |rows| == 0)
  {
    TrendConsecutive(rows, column);
  }

  /** The calendar month after `m`. */
  function NextMonth(m: Calendar.Month): Calendar.Month {
    if m.month == 12 then Calendar.Month(m.year + 1, 1) else Calendar.Month(m.year, m.month + 1)
  }

  lemma MonthAtNext(i: int)
    ensures Calendar.MonthAt(i + 1) == NextMonth(Calendar.MonthAt(i))
  {
  }

  /** The calendar month of a dated row. */
  function RowMonth(r: Row): (m: Calendar.Month)
    requires Dated(r)
    ensures Calendar.MonthAt(MonthOf(r)) == m
  {
    Calendar.MonthOfDate(r.date.value.day);
    Calendar.Month(r.date.value.day.year, r.date.value.day.month)
  }

  /** A table has an empty trend exactly when it has no dated row; otherwise the months step one at a time. */
  lemma {:induction false} TrendConsecutive(rows: seq<Row>, column: string)
    ensures var t := MonthlyTrend(rows, column);
      && (|t| == 0 <==> !HasDated(rows))
      && forall k :: 0 <= k < |t| - 1 ==> t[k + 1].0 == NextMonth(t[k].0)
  {
    EarliestMonthSpec(rows);
    LatestMonthSpec(rows);
    var t := MonthlyTrend(rows, column);
    if HasDated(rows) {
      var lo := EarliestMonth(rows).value;
      forall k | 0 <= k < |t| - 1
        ensures t[k + 1].0 == NextMonth(t[k].0)
      {
        MonthAtNext(lo + k);
      }
    }
  }

  /** The trend starts at the month of the earliest dated row. */
  lemma {:induction false} TrendFirst(rows: seq<Row>, column: string)
    requires HasDated(rows)
    ensures var t := MonthlyTrend(rows, column);
      |t| > 0 && exists i :: 0 <= i < |rows| && Dated(rows[i]) && t[0].0 == RowMonth(rows[i])
  {
    EarliestMonthSpec(rows);
    LatestMonthSpec(rows);
    var lo := EarliestMonth(rows).value;
    var i :| 0 <= i < |rows| && Dated(rows[i]) && MonthOf(rows[i]) == lo;
    assert MonthlyTrend(rows, column)[0].0 == RowMonth(rows[i]);
  }

  /** The trend ends at the month of the latest dated row. */
  lemma {:induction false} TrendLast(rows: seq<Row>, column: string)
    requires HasDated(rows)
    ensures var t := MonthlyTrend(rows, column);
      |t| > 0 && exists j :: 0 <= j < |rows| && Dated(rows[j]) && t[|t| - 1].0 == RowMonth(rows[j])
  {
    EarliestMonthSpec(rows);
    LatestMonthSpec(rows);
    var lo, hi := EarliestMonth(rows).value, LatestMonth(rows).value;
    var j :| 0 <= j < |rows| && Dated(rows[j]) && MonthOf(rows[j]) == hi;
    TrendAt(rows, column, hi - lo);
    var t := MonthlyTrend(rows, column);
    assert lo + (hi - lo) == hi;
    assert t[|t| - 1].0 == Calendar.MonthAt(hi);
  }

  /** The trend spans the months from the earliest to the latest; entry `k` is month `lo + k`. */
  lemma TrendAt(rows: seq<Row>, column: string, k: int)
    requires EarliestMonth(rows).Some? && LatestMonth(rows).Some?
    requires 0 <= k <= LatestMonth(rows).value - EarliestMonth(rows).value
    ensures |MonthlyTrend(rows, column)| == LatestMonth(rows).value - EarliestMonth(rows).value + 1
    ensures var lo := EarliestMonth(rows).value;
      MonthlyTrend(rows, column)[k] == (Calendar.MonthAt(lo + k), BucketSum(rows, column, lo + k))
  {
    EarliestMonthSpec(rows);
    LatestMonthSpec(rows);
  }

  /** Every dated row's month has an entry, holding that month's sum. */
  lemma {:induction false} TrendCovers(rows: seq<Row>, column: string, i: int)
    requires 0 <= i < |rows| && Dated(rows[i])
    ensures var t := MonthlyTrend(rows, column);
      exists k :: 0 <= k < |t| && t[k] == (RowMonth(rows[i]), BucketSum(rows, column, MonthOf(rows[i])))
  {
    EarliestMonthSpec(rows);
    LatestMonthSpec(rows);
    var lo, hi := EarliestMonth(rows).value, LatestMonth(rows).value;
    var t := MonthlyTrend(rows, column);
    var k := MonthOf(rows[i]) - lo;
    assert t[k] == (RowMonth(rows[i]), BucketSum(rows, column, MonthOf(rows[i])));
  }

  /** A month in which no row is dated sums to zero. */
  lemma {:induction false} BucketOfEmptyMonth(rows: seq<Row>, column: string, m: int)
    requires forall i :: 0 <= i < |rows| && Dated(rows[i]) ==> MonthOf(rows[i]) != m
    ensures BucketSum(rows, column, m) == 0
  {
    if |rows| > 0 {
      var n := |rows| - 1;
      assert forall i :: 0 <= i < n ==> rows[..n][i] == rows[i];
      BucketOfEmptyMonth(rows[..n], column, m);
    }
  }

  /** A row whose date is NaT changes nothing in the trend. */
  lemma {:induction false} TrendUndatedRow(rows: seq<Row>, r: Row, column: string)
    requires !Dated(r)
    ensures MonthlyTrend(rows + [r], column) == MonthlyTrend(rows, column)
  {
    var more := rows + [r];
    assert more[..|more| - 1] == rows;
    assert EarliestMonth(more) == EarliestMonth(rows);
    assert LatestMonth(more) == LatestMonth(rows);
    forall m
      ensures BucketSum(more, column, m) == BucketSum(rows, column, m)
    {
    }
    if EarliestMonth(rows).Some? && LatestMonth(rows).Some? {
      EarliestMonthSpec(rows);
      LatestMonthSpec(rows);
      var lo, hi := EarliestMonth(rows).value, LatestMonth(rows).value;
      forall k | 0 <= k <= hi - lo
        ensures MonthlyTrend(more, column)[k] == MonthlyTrend(rows, column)[k]
      {
        TrendAt(rows, column, k);
        TrendAt(more, column, k);
      }
      TrendAt(rows, column, 0);
      TrendAt(more, column, 0);
    }
  }

  /** The values of a trend, added up. */
  function TrendSum(t: seq<(Calendar.Month, int)>): int {
    if |t| == 0 then 0 else TrendSum(t[..|t| - 1]) + t[|t| - 1].1
  }

  /** The reference: the column summed over the rows that have a parsed date. */
  function DatedSum(rows: seq<Row>, column: string): int {
    if |rows| == 0 then 0
    else
      var last := rows[|rows| - 1];
      DatedSum(rows[..|rows| - 1], column) + (if Dated(last) then Count(last, column) else 0)
  }

  /** The bucket sums of the `n` months from month `lo` on. */
  function RangeSum(rows: seq<Row>, column: string, lo: int, n: nat): int {
    if n == 0 then 0 else RangeSum(rows, column, lo, n - 1) + BucketSum(rows, column, lo + n - 1)
  }

  /** Adding a row adds its count to the range exactly when its month lies in the range. */
  lemma {:induction false} RangeSumSnoc(rows: seq<Row>, r: Row, column: string, lo: int, n: nat)
    ensures RangeSum(rows + [r], column, lo, n)
         == RangeSum(rows, column, lo, n) + (if Dated(r) && lo <= MonthOf(r) < lo + n then Count(r, column) else 0)
  {
    assert (rows + [r])[..|rows|] == rows;
    if n > 0 {
      RangeSumSnoc(rows, r, column, lo, n - 1);
    }
  }

  /** A range of months holding every dated row sums to the whole dated column. */
  lemma {:induction false} RangeCoversDated(rows: seq<Row>, column: string, lo: int, n: nat)
    requires forall i :: 0 <= i < |rows| && Dated(rows[i]) ==> lo <= MonthOf(rows[i]) < lo + n
    ensures RangeSum(rows, column, lo, n) == DatedSum(rows, column)
  {
    if |rows| == 0 {
      RangeOfNoRows(column, lo, n);
    } else {
      var k := |rows| - 1;
      assert forall i :: 0 <= i < k ==> rows[..k][i] == rows[i];
      RangeCoversDated(rows[..k], column, lo, n);
      RangeSumSnoc(rows[..k], rows[k], column, lo, n);
      assert rows[..k] + [rows[k]] == rows;
    }
  }

  lemma {:induction false} RangeOfNoRows(column: string, lo: int, n: nat)
    ensures RangeSum([], column, lo, n) == 0
  {
    if n > 0 {
      RangeOfNoRows(column, lo, n - 1);
    }
  }

  /** A list of month entries holding the bucket sums from month `lo` on adds up to their range. */
  lemma {:induction false} TrendSumOfBuckets(t: seq<(Calendar.Month, int)>, rows: seq<Row>, column: string, lo: int)
    requires forall i :: 0 <= i < |t| ==> t[i].1 == BucketSum(rows, column, lo + i)
    ensures TrendSum(t) == RangeSum(rows, column, lo, |t|)
  {
    if |t| > 0 {
      var k := |t| - 1;
      assert forall i :: 0 <= i < k ==> t[..k][i] == t[i];
      TrendSumOfBuckets(t[..k], rows, column, lo);
    }
  }

  /**
    Resampling loses nothing but the NaT rows: the monthly values add up to the
    column summed over the rows with a parsed date.
   */
  lemma {:induction false} TrendTotal(rows: seq<Row>, column: string)
    ensures TrendSum(MonthlyTrend(rows, column)) == DatedSum(rows, column)
  {
    EarliestMonthSpec(rows);
    LatestMonthSpec(rows);
    var t := MonthlyTrend(rows, column);
    if HasDated(rows) {
      var lo, hi := EarliestMonth(rows).value, LatestMonth(rows).value;
      TrendSumOfBuckets(t, rows, column, lo);
      RangeCoversDated(rows, column, lo, hi - lo + 1);
    } else {
      RangeCoversDated(rows, column, 0, 0);
    }
  }

  /** Three in January and four in March, nothing in February: the trend is 3, 0, 4. */
  lemma TrendExample(a: Row, b: Row)
    requires a.date == Some(Stamp(Calendar.Date(2025, 1, 15))) && a.counts == map["demo_age_17_" := 3]
    requires b.date == Some(Stamp(Calendar.Date(2025, 3, 2))) && b.counts == map["demo_age_17_" := 4]
    ensures MonthlyTrend([a, b], "demo_age_17_")
         == [(Calendar.Month(2025, 1), 3), (Calendar.Month(2025, 2), 0), (Calendar.Month(2025, 3), 4)]
  {
    var rows := [a, b];
    assert rows[..1] == [a] && [a][..0] == [];
    var lo := Calendar.MonthIndex(Calendar.Date(2025, 1, 15));
    assert EarliestMonth([a]) == Some(lo) && LatestMonth([a]) == Some(lo);
    assert EarliestMonth(rows) == Some(lo);
    assert LatestMonth(rows) == Some(lo + 2);
    assert Count(a, "demo_age_17_") == 3 && Count(b, "demo_age_17_") == 4;
    assert MonthOf(a) == lo && MonthOf(b) == lo + 2;
    assert BucketSum([a], "demo_age_17_", lo) == 3;
    assert BucketSum([a], "demo_age_17_", lo + 1) == 0;
    assert BucketSum([a], "demo_age_17_", lo + 2) == 0;
    assert BucketSum(rows, "demo_age_17_", lo) == 3;
    assert BucketSum(rows, "demo_age_17_", lo + 1) == 0;
    assert BucketSum(rows, "demo_age_17_", lo + 2) == 4;
    Calendar.MonthOfDate(Calendar.Date(2025, 1, 15));
    Calendar.MonthOfDate(Calendar.Date(2025, 3, 2));
    MonthAtNext(lo);
  }
}
