/**
  The national totals of main.py:122-123: `df[[c1, c2]].sum().sum()`, the sum of
  each listed count column (missing cells skipped, that is counted as zero),
  then the sum of those column sums.
 */
module Totals {
  import opened Frames
  import Merge
  import Normalize

  /** The columns summed into `total_demo` (main.py:122). */
  const DemoColumns: seq<string> := ["demo_age_5_17", "demo_age_17_"]

  /** The columns summed into `total_bio` (main.py:123). */
  const BioColumns: seq<string> := ["bio_age_5_17", "bio_age_17_"]

  /** `df[column].sum()`. */
  function ColumnSum(rows: seq<Row>, column: string): int {
    if |rows| == 0 then 0 else ColumnSum(rows[..|rows| - 1], column) + Count(rows[|rows| - 1], column)
  }

  /** `df[columns].sum().sum()`: column by column, then across the columns. */
  function Total(rows: seq<Row>, columns: seq<string>): int {
    if |columns| == 0 then 0 else Total(rows, columns[..|columns| - 1]) + ColumnSum(rows, columns[|columns| - 1])
  }

  /** The listed cells of one row, added up. */
  function RowTotal(r: Row, columns: seq<string>): int {
    if |columns| == 0 then 0 else RowTotal(r, columns[..|columns| - 1]) + Count(r, columns[|columns| - 1])
  }

  /** Row by row: the sum of the row totals. */
  function SumOfRowTotals(rows: seq<Row>, columns: seq<string>): int {
    if |rows| == 0 then 0 else SumOfRowTotals(rows[..|rows| - 1], columns) + RowTotal(rows[|rows| - 1], columns)
  }

  function TotalDemo(demographic: Frame): int {
    Total(demographic.rows, DemoColumns)
  }

  function TotalBio(biometric: Frame): int {
    Total(biometric.rows, BioColumns)
  }

  /** Adding one row to the table adds its total to the grand total. */
  lemma {:induction false} TotalSnoc(rows: seq<Row>, r: Row, columns: seq<string>)
    ensures Total(rows + [r], columns) == Total(rows, columns) + RowTotal(r, columns)
  {
    if |columns| > 0 {
      TotalSnoc(rows, r, columns[..|columns| - 1]);
      assert (rows + [r])[..|rows + [r]| - 1] == rows;
    }
  }

  /**
    Summing column by column and then across is summing each row's listed
    cells and then down: so `total_demo` is the sum, over the rows, of
    `demo_age_5_17` plus `demo_age_17_`, missing cells counting as zero.
   */
  lemma {:induction false} TotalIsSumOfRowTotals(rows: seq<Row>, columns: seq<string>)
    ensures Total(rows, columns) == SumOfRowTotals(rows, columns)
  {
    if |rows| == 0 {
      EmptyTotal(columns);
    } else {
      var n := |rows| - 1;
      TotalIsSumOfRowTotals(rows[..n], columns);
      TotalSnoc(rows[..n], rows[n], columns);
      assert rows[..n] + [rows[n]] == rows;
    }
  }

  lemma {:induction false} EmptyTotal(columns: seq<string>)
    ensures Total([], columns) == 0
  {
    if |columns| > 0 {
      EmptyTotal(columns[..|columns| - 1]);
    }
  }

  /** Column sums are additive over concatenation. */
  lemma {:induction false} ColumnSumAppend(a: seq<Row>, b: seq<Row>, column: string)
    ensures ColumnSum(a + b, column) == ColumnSum(a, column) + ColumnSum(b, column)
    decreases |b|
  {
    if |b| == 0 {
      assert a + b == a;
    } else {
      var n := |b| - 1;
      assert (a + b)[..|a + b| - 1] == a + b[..n];
      ColumnSumAppend(a, b[..n], column);
    }
  }

  /** The grand total is additive over concatenation. */
  lemma {:induction false} TotalAppend(a: seq<Row>, b: seq<Row>, columns: seq<string>)
    ensures Total(a + b, columns) == Total(a, columns) + Total(b, columns)
  {
    if |columns| > 0 {
      TotalAppend(a, b, columns[..|columns| - 1]);
      ColumnSumAppend(a, b, columns[|columns| - 1]);
    }
  }

  /** The per-file totals of the tables `load_and_merge` reads. */
  function FileTotals(tables: seq<Frame>, columns: seq<string>): int {
    if |tables| == 0 then 0 else FileTotals(tables[..|tables| - 1], columns) + Total(tables[|tables| - 1].rows, columns)
  }

  /** The total of a merged category is the sum of the totals of its files. */
  lemma {:induction false} TotalOfMerge(tables: seq<Frame>, columns: seq<string>)
    ensures Total(Merge.AllRows(tables), columns) == FileTotals(tables, columns)
  {
    if |tables| == 0 {
      EmptyTotal(columns);
    } else {
      var n := |tables| - 1;
      TotalOfMerge(tables[..n], columns);
      TotalAppend(Merge.AllRows(tables[..n]), tables[n].rows, columns);
    }
  }

  /** The rows of the raw table that cleaning keeps, as they were. */
  function Survivors(df: Frame): seq<Row> {
    Where(df.rows, (r: Row) => Normalize.Survives(df.columns, r))
  }

  /**
    A row without the column adds nothing to its sum; a row with it adds its
    count: a missing cell reads as zero.
   */
  lemma ColumnSumSnoc(rows: seq<Row>, r: Row, column: string)
    ensures column !in r.counts ==> ColumnSum(rows + [r], column) == ColumnSum(rows, column)
    ensures column in r.counts ==> ColumnSum(rows + [r], column) == ColumnSum(rows, column) + r.counts[column]
  {
    assert (rows + [r])[..|rows|] == rows;
  }

  /**
    Cleaning never changes a count, so a cleaned column sum is the column sum
    over the raw rows that survive; the rows the state filter drops contribute nothing.
   */
  lemma {:induction false} CleanedColumnSum(columns: set<Column>, rows: seq<Row>, column: string)
    ensures ColumnSum(Where(Normalize.CanonicalRows(columns, rows), Normalize.CleaningMask(columns)), column)
         == ColumnSum(Where(rows, (r: Row) => Normalize.Survives(columns, r)), column)
  {
    if |rows| > 0 {
      var n := |rows| - 1;
      var canon := Normalize.CanonicalRows(columns, rows);
      assert canon[..n] == Normalize.CanonicalRows(columns, rows[..n]);
      CleanedColumnSum(columns, rows[..n], column);
      Normalize.CleaningMaskOnCanonical(columns, rows[n]);
      Normalize.CanonicalRowFacts(columns, rows[n]);
    }
  }

  /** The total of a cleaned table is the total of the raw rows it keeps. */
  lemma {:induction false} CleanedTotal(df: Frame, columns: seq<string>)
    ensures Total(Normalize.Normalize(df).rows, columns) == Total(Survivors(df), columns)
  {
    if |columns| > 0 {
      CleanedTotal(df, columns[..|columns| - 1]);
      Normalize.NormalizeIsOneMask(df);
      CleanedColumnSum(df.columns, df.rows, columns[|columns| - 1]);
    }
  }

  /** A missing `demo_age_5_17` cell adds zero: a row with only `demo_age_17_` = 5 totals 5. */
  lemma TotalDemoExample(r: Row)
    requires r.counts == map["demo_age_17_" := 5]
    ensures Total([r], DemoColumns) == 5
  {
    assert [r][..0] == [];
    assert ColumnSum([r], "demo_age_5_17") == 0;
    assert ColumnSum([r], "demo_age_17_") == 5;
    assert DemoColumns[..1] == ["demo_age_5_17"];
    assert Total([r], ["demo_age_5_17"]) == 0 by {
      assert ["demo_age_5_17"][..0] == [];
    }
  }
}
