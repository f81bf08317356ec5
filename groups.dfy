/**
  `df.groupby("state")[column].sum()` (main.py:141-142): one entry per distinct
  state, labels in ascending order, each the sum of the column over the rows
  of that state. Rows with a missing state belong to no group.
 */
module Groups {
  import opened Wrappers
  import opened Frames
  import opened Series
  import Totals

  /** Adds `v` to the group labelled `key`, opening the group in its sorted place if it is new. */
  function AddToGroup(g: seq<(string, int)>, key: string, v: int): seq<(string, int)> {
    if |g| == 0 then [(key, v)]
    else if g[0].0 == key then [(key, g[0].1 + v)] + g[1..]
    else if Less(key, g[0].0) then [(key, v)] + g
    else [g[0]] + AddToGroup(g[1..], key, v)
  }

  /** Adding to a group keeps the labels ascending and adds `key` to them. */
  lemma {:induction false} AddToGroupKeys(g: seq<(string, int)>, key: string, v: int)
    requires KeysAscending(g)
    ensures KeysAscending(AddToGroup(g, key, v))
    ensures Keys(AddToGroup(g, key, v)) == Keys(g) + {key}
  {
    if |g| == 0 {
      assert Keys([(key, v)]) == {key} by {
        assert [(key, v)][1..] == [];
      }
    } else {
      AscendingTail(g);
      assert g == [g[0]] + g[1..];
      if g[0].0 == key {
        AscendingCons((key, g[0].1 + v), g[1..]);
      } else if Less(key, g[0].0) {
        forall k | k in Keys(g)
          ensures Less(key, k)
        {
          if k != g[0].0 {
            LessTransitive(key, g[0].0, k);
          }
        }
        AscendingCons((key, v), g);
      } else {
        AddToGroupKeys(g[1..], key, v);
        LessTotal(key, g[0].0);
        AscendingCons(g[0], AddToGroup(g[1..], key, v));
      }
    }
  }

  /** The groupby-sum, one row at a time. */
  function GroupSum(rows: seq<Row>, column: string): (g: seq<(string, int)>)
    ensures KeysAscending(g)
  {
    if |rows| == 0 then []
    else
      var g := GroupSum(rows[..|rows| - 1], column);
      var r := rows[|rows| - 1];
      if r.state.Some? then
        AddToGroupKeys(g, r.state.value, Count(r, column));
        AddToGroup(g, r.state.value, Count(r, column))
      else g
  }

  /** Whether some row has the state `key`. */
  predicate HasState(rows: seq<Row>, key: string) {
    exists i :: 0 <= i < |rows| && rows[i].state == Some(key)
  }

  /** The reference sum: the column over the rows whose state is `key`. */
  function StateSum(rows: seq<Row>, key: string, column: string): int {
    if |rows| == 0 then 0
    else
      var last := rows[|rows| - 1];
      StateSum(rows[..|rows| - 1], key, column) + (if last.state == Some(key) then Count(last, column) else 0)
  }

  /** The column over the rows that have a state at all. */
  function StatedSum(rows: seq<Row>, column: string): int {
    if |rows| == 0 then 0
    else
      var last := rows[|rows| - 1];
      StatedSum(rows[..|rows| - 1], column) + (if last.state.Some? then Count(last, column) else 0)
  }

  lemma {:induction false} StateSumOfAbsent(rows: seq<Row>, key: string, column: string)
    requires !HasState(rows, key)
    ensures StateSum(rows, key, column) == 0
  {
    if |rows| > 0 {
      var n := |rows| - 1;
      assert forall i :: 0 <= i < n ==> rows[..n][i] == rows[i];
      StateSumOfAbsent(rows[..n], key, column);
    }
  }

  /** Adding to a group changes that group's value and no other. */
  lemma {:induction false} AddToGroupLookup(g: seq<(string, int)>, key: string, v: int, k: string)
    requires KeysAscending(g)
    ensures Lookup(AddToGroup(g, key, v), k)
         == if k == key then Some((if Lookup(g, key).Some? then Lookup(g, key).value else 0) + v)
            else Lookup(g, k)
  {
    if |g| == 0 {
      assert [(key, v)][1..] == [];
    } else if g[0].0 == key {
      assert ([(key, g[0].1 + v)] + g[1..])[1..] == g[1..];
    } else if Less(key, g[0].0) {
      BelowFirstIsAbsent(g, key);
      assert ([(key, v)] + g)[1..] == g;
    } else {
      AscendingTail(g);
      AddToGroupLookup(g[1..], key, v, k);
      var rest := AddToGroup(g[1..], key, v);
      assert ([g[0]] + rest)[1..] == rest;
    }
  }

  /** Adding to a group adds to the series' total. */
  lemma {:induction false} AddToGroupSum(g: seq<(string, int)>, key: string, v: int)
    requires KeysAscending(g)
    ensures ValueSum(AddToGroup(g, key, v)) == ValueSum(g) + v
  {
    if |g| > 0 && g[0].0 != key && !Less(key, g[0].0) {
      AddToGroupSum(g[1..], key, v);
      assert ([g[0]] + AddToGroup(g[1..], key, v))[1..] == AddToGroup(g[1..], key, v);
    } else if |g| > 0 && g[0].0 == key {
      assert ([(key, g[0].1 + v)] + g[1..])[1..] == g[1..];
    } else if |g| > 0 {
      assert ([(key, v)] + g)[1..] == g;
    }
  }

  /**
    The groupby-sum has a group for exactly the states that occur, and each
    group's value is the column summed over the rows of that state.
   */
  lemma {:induction false} GroupSumLookup(rows: seq<Row>, column: string, key: string)
    ensures Lookup(GroupSum(rows, column), key)
         == if HasState(rows, key) then Some(StateSum(rows, key, column)) else None
  {
    if |rows| > 0 {
      var n := |rows| - 1;
      GroupSumLookup(rows[..n], column, key);
      var r := rows[n];
      assert HasState(rows, key) <==> HasState(rows[..n], key) || r.state == Some(key) by {
        if HasState(rows, key) && r.state != Some(key) {
          var i :| 0 <= i < |rows| && rows[i].state == Some(key);
          assert rows[..n][i].state == Some(key);
        }
        if HasState(rows[..n], key) {
          var i :| 0 <= i < n && rows[..n][i].state == Some(key);
          assert rows[i].state == Some(key);
        }
      }
      if r.state.Some? {
        AddToGroupLookup(GroupSum(rows[..n], column), r.state.value, Count(r, column), key);
        if r.state.value == key && !HasState(rows[..n], key) {
          StateSumOfAbsent(rows[..n], key, column);
        }
      }
    }
  }

  /** The group values add up to the column total over the rows that have a state. */
  lemma {:induction false} GroupSumsAddUp(rows: seq<Row>, column: string)
    ensures ValueSum(GroupSum(rows, column)) == StatedSum(rows, column)
  {
    if |rows| > 0 {
      var n := |rows| - 1;
      GroupSumsAddUp(rows[..n], column);
      if rows[n].state.Some? {
        AddToGroupSum(GroupSum(rows[..n], column), rows[n].state.value, Count(rows[n], column));
      }
    }
  }

  /** When every row has a state, as after cleaning a table with a state column, that is the whole column. */
  lemma {:induction false} StatedSumOfStatedRows(rows: seq<Row>, column: string)
    requires forall i :: 0 <= i < |rows| ==> rows[i].state.Some?
    ensures StatedSum(rows, column) == Totals.ColumnSum(rows, column)
  {
    if |rows| > 0 {
      StatedSumOfStatedRows(rows[..|rows| - 1], column);
    }
  }
}
