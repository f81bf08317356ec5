/**
  `load_and_merge` (main.py:9-23): the tables read from a category's files,
  in the order `glob` listed them, are collected into a list and concatenated
  with `pd.concat(df_list, axis=0, ignore_index=True)`. Discovering and reading
  the files is I/O and stays outside: the method receives the tables read.
 */
module Merge {
  import opened Wrappers
  import opened Frames

  /** `pd.concat([])` raises `ValueError: No objects to concatenate`. */
  datatype MergeError = NoObjectsToConcatenate

  /** The rows of all tables, table by table, each in its own order. */
  function AllRows(tables: seq<Frame>): seq<Row> {
    if |tables| == 0 then [] else AllRows(tables[..|tables| - 1]) + tables[|tables| - 1].rows
  }

  /** The concatenated frame has every column any of the tables has. */
  function AllColumns(tables: seq<Frame>): set<Column> {
    if |tables| == 0 then {} else AllColumns(tables[..|tables| - 1]) + tables[|tables| - 1].columns
  }

  /** The total number of rows of the tables. */
  function RowCount(tables: seq<Frame>): nat {
    if |tables| == 0 then 0 else RowCount(tables[..|tables| - 1]) + |tables[|tables| - 1].rows|
  }

  /** `pd.concat` of the list: an error for an empty list, otherwise one frame. */
  function Concat(tables: seq<Frame>): (r: Result<Frame, MergeError>)
    ensures r.Failure? <==> |tables| == 0
  {
    if |tables| == 0 then Failure(NoObjectsToConcatenate)
    else Success(Frame(AllColumns(tables), AllRows(tables)))
  }

  /**
    main.py:15-20: the loop that appends each table to `df_list`, then the
    concatenation. The tables are not sorted, deduplicated or reshaped.
   */
  method LoadAndMerge(files: seq<Frame>) returns (merged: Result<Frame, MergeError>)
    ensures merged == Concat(files)
  {
    var dfList: seq<Frame> := [];
    var i := 0;
    while i < |files|
      invariant 0 <= i <= |files|
      invariant dfList == files[..i]
    {
      dfList := dfList + [files[i]];
      i := i + 1;
    }
    assert dfList == files;
    if |dfList| == 0 {
      return Failure(NoObjectsToConcatenate);
    }
    var rows: seq<Row> := [];
    var columns: set<Column> := {};
    for j := 0 to |dfList|
      invariant rows == AllRows(dfList[..j])
      invariant columns == AllColumns(dfList[..j])
    {
      assert dfList[..j + 1][..j] == dfList[..j];
      rows := rows + dfList[j].rows;
      columns := columns + dfList[j].columns;
    }
    assert dfList[..|dfList|] == dfList;
    merged := Success(Frame(columns, rows));
  }

  /** The merged row count is the sum of the per-file row counts. */
  lemma {:induction false} AllRowsLength(tables: seq<Frame>)
    ensures |AllRows(tables)| == RowCount(tables)
  {
    if |tables| > 0 {
      AllRowsLength(tables[..|tables| - 1]);
    }
  }

  /** Concatenating two lists of tables concatenates their rows. */
  lemma {:induction false} AllRowsAppend(a: seq<Frame>, b: seq<Frame>)
    ensures AllRows(a + b) == AllRows(a) + AllRows(b)
    decreases |b|
  {
    if |b| == 0 {
      assert a + b == a;
    } else {
      var n := |b| - 1;
      assert (a + b)[..|a + b| - 1] == a + b[..n];
      AllRowsAppend(a, b[..n]);
    }
  }

  /** Concatenating two lists of tables unites their columns. */
  lemma {:induction false} AllColumnsAppend(a: seq<Frame>, b: seq<Frame>)
    ensures AllColumns(a + b) == AllColumns(a) + AllColumns(b)
    decreases |b|
  {
    if |b| == 0 {
      assert a + b == a;
    } else {
      var n := |b| - 1;
      assert (a + b)[..|a + b| - 1] == a + b[..n];
      AllColumnsAppend(a, b[..n]);
    }
  }

  /**
    Rows appear file by file, in within-file order: row `j` of file `i` is row
    `RowCount(files[..i]) + j` of the merged table.
   */
  lemma {:induction false} AllRowsAt(tables: seq<Frame>, i: int, j: int)
    requires 0 <= i < |tables| && 0 <= j < |tables[i].rows|
    ensures RowCount(tables[..i]) + j < |AllRows(tables)|
    ensures AllRows(tables)[RowCount(tables[..i]) + j] == tables[i].rows[j]
  {
    assert tables == tables[..i] + [tables[i]] + tables[i + 1..];
    AllRowsAppend(tables[..i] + [tables[i]], tables[i + 1..]);
    AllRowsAppend(tables[..i], [tables[i]]);
    AllRowsLength(tables[..i]);
    assert [tables[i]][..0] == [];
  }

  /** A row of a file that lacks a column has no cell there, also after the merge. */
  lemma {:induction false} ConcatWellFormed(tables: seq<Frame>)
    requires forall i :: 0 <= i < |tables| ==> WellFormed(tables[i])
    ensures Concat(tables).Success? ==> WellFormed(Concat(tables).value)
  {
    if |tables| > 0 {
      var f := Concat(tables).value;
      forall k | 0 <= k < |f.rows|
        ensures RowFits(f.columns, f.rows[k])
      {
        var n := |tables| - 1;
        var init := tables[..n];
        if k < |AllRows(init)| {
          ConcatWellFormed(init);
          if n > 0 {
            assert AllRows(init)[k] == f.rows[k];
            assert RowFits(AllColumns(init), f.rows[k]);
          }
        } else {
          assert f.rows[k] == tables[n].rows[k - |AllRows(init)|];
        }
      }
    }
  }
}
