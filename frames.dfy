/**
  The tables the pipeline works on. A frame has rows and the subset of the
  three canonicalized columns (`state`, `district`, `date`) that it carries;
  the count columns (`demo_age_5_17`, `bio_age_17_`, `age_0_5`, ...) are a map
  per row in which a missing cell is simply absent.
 */
module Frames {
  import opened Wrappers
  import Calendar

  /** A `date` cell: the text read from the file, or a timestamp once parsed. */
  datatype DateCell = Raw(text: string) | Stamp(day: Calendar.Day)

  /** One record. `None` is pandas' missing value (NaN / NaT). */
  datatype Row = Row(
    state: Option<string>,
    district: Option<string>,
    date: Option<DateCell>,
    counts: map<string, int>)

  /** The columns whose presence main.py tests before rewriting them (lines 96, 99, 102). */
  datatype Column = StateColumn | DistrictColumn | DateColumn

  datatype Frame = Frame(columns: set<Column>, rows: seq<Row>)

  /** A row with no cell in a column its frame lacks. */
  predicate RowFits(columns: set<Column>, r: Row) {
    && (StateColumn !in columns ==> r.state.None?)
    && (DistrictColumn !in columns ==> r.district.None?)
    && (DateColumn !in columns ==> r.date.None?)
  }

  predicate WellFormed(f: Frame) {
    forall i :: 0 <= i < |f.rows| ==> RowFits(f.columns, f.rows[i])
  }

  /** The value of a count cell, a missing cell counting as zero (pandas' `sum` skips NaN). */
  function Count(r: Row, column: string): int {
    if column in r.counts then r.counts[column] else 0
  }

  /** `df[mask]`: the rows the mask keeps, in their order. */
  function Where(rows: seq<Row>, keep: Row -> bool): (r: seq<Row>)
    ensures |r| <= |rows|
    ensures forall k :: 0 <= k < |r| ==> keep(r[k])
  {
    if |rows| == 0 then []
    else
      var init := Where(rows[..|rows| - 1], keep);
      if keep(rows[|rows| - 1]) then init + [rows[|rows| - 1]] else init
  }

  /** The positions of the rows `Where` keeps, in increasing order. */
  ghost function KeptPositions(rows: seq<Row>, keep: Row -> bool): seq<int> {
    if |rows| == 0 then []
    else
      var init := KeptPositions(rows[..|rows| - 1], keep);
      if keep(rows[|rows| - 1]) then init + [|rows| - 1] else init
  }

  /**
    `Where` is a selection: it keeps exactly the rows the mask accepts, each
    once, unchanged and in their original order.
   */
  lemma {:induction false} WhereSelects(rows: seq<Row>, keep: Row -> bool)
    ensures var out, pos := Where(rows, keep), KeptPositions(rows, keep);
      && |out| == |pos|
      && (forall k :: 0 <= k < |pos| ==> 0 <= pos[k] < |rows| && out[k] == rows[pos[k]])
      && (forall k, l :: 0 <= k < l < |pos| ==> pos[k] < pos[l])
      && (forall i :: 0 <= i < |rows| ==> (keep(rows[i]) <==> i in pos))
  {
    if |rows| > 0 {
      var n := |rows| - 1;
      WhereSelects(rows[..n], keep);
      var pos := KeptPositions(rows[..n], keep);
      assert forall i :: 0 <= i < n ==> rows[..n][i] == rows[i];
      assert forall k :: 0 <= k < |pos| ==> pos[k] < n;
    }
  }

  /** Masking a concatenation masks each part. */
  lemma {:induction false} WhereAppend(a: seq<Row>, b: seq<Row>, keep: Row -> bool)
    ensures Where(a + b, keep) == Where(a, keep) + Where(b, keep)
    decreases |b|
  {
    if |b| == 0 {
      assert a + b == a;
    } else {
      var n := |b| - 1;
      assert (a + b)[..|a + b| - 1] == a + b[..n];
      WhereAppend(a, b[..n], keep);
    }
  }

  /** Two masks in a row keep what their conjunction keeps. */
  lemma {:induction false} WhereWhere(rows: seq<Row>, first: Row -> bool, second: Row -> bool, both: Row -> bool)
    requires forall r :: both(r) == (first(r) && second(r))
    ensures Where(Where(rows, first), second) == Where(rows, both)
  {
    if |rows| > 0 {
      var n := |rows| - 1;
      WhereWhere(rows[..n], first, second, both);
      var inner := Where(rows[..n], first);
      if first(rows[n]) {
        assert (inner + [rows[n]])[..|inner|] == inner;
      }
    }
  }

  /** A mask that accepts every row keeps the rows as they are. */
  lemma {:induction false} WhereAll(rows: seq<Row>, keep: Row -> bool)
    requires forall k :: 0 <= k < |rows| ==> keep(rows[k])
    ensures Where(rows, keep) == rows
  {
    if |rows| > 0 {
      WhereAll(rows[..|rows| - 1], keep);
    }
  }
}
