/**
  The cleaning loop of main.py:92-115. For each of the three merged frames, in
  this order and only where the frame has the column: the `date` cells are
  parsed (line 97), the `district` cells stripped and upper-cased (line 100),
  the `state` cells stripped, upper-cased and alias-resolved (lines 103-105);
  then rows whose state is digits only (line 108) and rows whose state is not a
  valid name (line 111) are dropped, and the cleaned frame replaces the old one
  in `dfs` (line 113).
 */
module Normalize {
  import opened Wrappers
  import Text
  import Calendar
  import States
  import opened Frames

  /** `astype(str)`: a missing cell becomes the text "nan". */
  function CellText(c: Option<string>): string {
    if c.Some? then c.value else "nan"
  }

  /** main.py:97: text that does not parse becomes NaT instead of raising; a timestamp stays. */
  function CoerceDate(c: Option<DateCell>): (r: Option<DateCell>)
    ensures r.None? || r.value.Stamp?
  {
    match c
    case None => None
    case Some(Stamp(_)) => c
    case Some(Raw(text)) =>
      match Calendar.ParseDate(text)
      case Some(d) => Some(Stamp(d))
      case None => None
  }

  /** main.py:100. */
  function CanonicalDistrict(c: Option<string>): (d: string)
    ensures Text.Trimmed(d) && Text.IsUpper(d)
  {
    Text.StripUpperIdempotent(CellText(c));
    Text.Upper(Text.Strip(CellText(c)))
  }

  /** One column pass each: the rewrite main.py applies to every row of the column. */
  function WithParsedDate(r: Row): Row {
    r.(date := CoerceDate(r.date))
  }

  function WithCanonicalDistrict(r: Row): Row {
    r.(district := Some(CanonicalDistrict(r.district)))
  }

  function WithCanonicalState(r: Row): Row {
    r.(state := Some(States.CanonicalState(CellText(r.state))))
  }

  /** The three column rewrites of main.py:96-105, each only if the frame has the column. */
  function CanonicalRow(columns: set<Column>, r: Row): Row {
    var dated := if DateColumn in columns then WithParsedDate(r) else r;
    var districted := if DistrictColumn in columns then WithCanonicalDistrict(dated) else dated;
    if StateColumn in columns then WithCanonicalState(districted) else districted
  }

  /**
    What the rewrites leave in a row: the counts untouched, a parsed or missing
    date, a trimmed upper-case district, and any column the frame lacks as it was.
   */
  lemma CanonicalRowFacts(columns: set<Column>, r: Row)
    ensures var c := CanonicalRow(columns, r);
      && c.counts == r.counts
      && (DateColumn in columns ==> c.date.None? || c.date.value.Stamp?)
      && (DistrictColumn in columns ==>
            c.district.Some? && Text.Trimmed(c.district.value) && Text.IsUpper(c.district.value))
      && (DateColumn !in columns ==> c.date == r.date)
      && (DistrictColumn !in columns ==> c.district == r.district)
      && (StateColumn !in columns ==> c.state == r.state)
  {
  }

  function CanonicalRows(columns: set<Column>, rows: seq<Row>): (c: seq<Row>)
    ensures |c| == |rows|
  {
    seq(|rows|, i requires 0 <= i < |rows| => CanonicalRow(columns, rows[i]))
  }

  /** The mask of main.py:108: the state is not digits only. */
  predicate NotDigitState(r: Row) {
    !Text.AllDigits(CellText(r.state))
  }

  /** The mask of main.py:111: the state is one of `valid_states`. */
  predicate HasValidState(r: Row) {
    CellText(r.state) in States.ValidStates
  }

  /** The cleaned frame: canonical cells, then the two state filters if there is a state column. */
  function Normalize(df: Frame): Frame {
    var rows := CanonicalRows(df.columns, df.rows);
    if StateColumn in df.columns then Frame(df.columns, Where(Where(rows, NotDigitState), HasValidState))
    else Frame(df.columns, rows)
  }

  /** One vectorised column assignment, done in place over the frame's rows. */
  method RewriteColumn(rows: array<Row>, step: Row -> Row)
    modifies rows
    ensures forall k :: 0 <= k < rows.Length ==> rows[k] == step(old(rows[k]))
  {
    for i := 0 to rows.Length
      invariant forall k :: 0 <= k < i ==> rows[k] == step(old(rows[k]))
      invariant forall k :: i <= k < rows.Length ==> rows[k] == old(rows[k])
    {
      rows[i] := step(rows[i]);
    }
  }

  /** `df = df[mask]`: a new frame with the rows the mask keeps. */
  method Select(rows: seq<Row>, keep: Row -> bool) returns (kept: seq<Row>)
    ensures kept == Where(rows, keep)
  {
    kept := [];
    for i := 0 to |rows|
      invariant kept == Where(rows[..i], keep)
    {
      assert rows[..i + 1][..i] == rows[..i];
      if keep(rows[i]) {
        kept := kept + [rows[i]];
      }
    }
    assert rows[..|rows|] == rows;
  }

  /** The body of the loop of main.py:94-113 for one frame. */
  method NormalizeFrame(df: Frame) returns (cleaned: Frame)
    ensures cleaned == Normalize(df)
  {
    var n := |df.rows|;
    var rows := new Row[n](i requires 0 <= i < n => df.rows[i]);
    if DateColumn in df.columns {
      RewriteColumn(rows, WithParsedDate);
    }
    if DistrictColumn in df.columns {
      RewriteColumn(rows, WithCanonicalDistrict);
    }
    if StateColumn in df.columns {
      RewriteColumn(rows, WithCanonicalState);
    }
    assert rows[..] == CanonicalRows(df.columns, df.rows);
    var kept := rows[..];
    if StateColumn in df.columns {
      kept := Select(kept, NotDigitState);
      kept := Select(kept, HasValidState);
    }
    cleaned := Frame(df.columns, kept);
  }

  /** The loop of main.py:94-113: each frame of `dfs` is replaced by its cleaned version. */
  method NormalizeAll(dfs: array<Frame>)
    modifies dfs
    ensures forall i :: 0 <= i < dfs.Length ==> dfs[i] == Normalize(old(dfs[i]))
  {
    ghost var before := dfs[..];
    // The invariant names the cleaning through a function value, so the
    // definition of `Normalize` is not unfolded at every step.
    ghost var clean: Frame -> Frame := Normalize;
    for i := 0 to dfs.Length
      invariant forall k :: 0 <= k < i ==> dfs[k] == clean(before[k])
      invariant forall k :: i <= k < dfs.Length ==> dfs[k] == before[k]
    {
      var cleaned := NormalizeFrame(dfs[i]);
      dfs[i] := cleaned;
    }
  }

  /** A valid name is never digits only, so the filter of line 111 already implies that of line 108. */
  lemma {:induction false} DigitFilterIsRedundant(rows: seq<Row>)
    ensures Where(Where(rows, NotDigitState), HasValidState) == Where(rows, HasValidState)
  {
    States.ValidStatesAreNotDigits();
    WhereWhere(rows, NotDigitState, HasValidState, HasValidState);
  }

  /** Whether a raw row survives cleaning: only its state decides, and only if there is a state column. */
  predicate Survives(columns: set<Column>, r: Row) {
    StateColumn !in columns || States.CanonicalState(CellText(r.state)) in States.ValidStates
  }

  predicate AnyRow(r: Row) {
    true
  }

  /** The mask cleaning applies, in effect, to the canonical rows. */
  function CleaningMask(columns: set<Column>): Row -> bool {
    if StateColumn in columns then HasValidState else AnyRow
  }

  /** The mask decides on a canonical row exactly as `Survives` decides on the raw one. */
  lemma CleaningMaskOnCanonical(columns: set<Column>, r: Row)
    ensures CleaningMask(columns)(CanonicalRow(columns, r)) == Survives(columns, r)
  {
  }

  /** The two filters of main.py:108 and 111 act together as the one mask `CleaningMask`. */
  lemma {:induction false} NormalizeIsOneMask(df: Frame)
    ensures Normalize(df).rows == Where(CanonicalRows(df.columns, df.rows), CleaningMask(df.columns))
  {
    var canon := CanonicalRows(df.columns, df.rows);
    if StateColumn in df.columns {
      DigitFilterIsRedundant(canon);
    } else {
      WhereAll(canon, AnyRow);
    }
  }

  /**
    Cleaning keeps exactly the rows whose canonical state is a valid name (all
    rows if the frame has no state column), each once and in the original
    order, and each kept row is the canonical form of its raw row: the date,
    district and counts never decide whether a row is dropped.
   */
  lemma {:induction false} NormalizeSelectsSurvivors(df: Frame)
    ensures var out, pos := Normalize(df).rows, KeptPositions(CanonicalRows(df.columns, df.rows), CleaningMask(df.columns));
      && |out| == |pos|
      && (forall k :: 0 <= k < |pos| ==> 0 <= pos[k] < |df.rows| && out[k] == CanonicalRow(df.columns, df.rows[pos[k]]))
      && (forall k, l :: 0 <= k < l < |pos| ==> pos[k] < pos[l])
      && (forall i :: 0 <= i < |df.rows| ==> (Survives(df.columns, df.rows[i]) <==> i in pos))
  {
    var canon := CanonicalRows(df.columns, df.rows);
    NormalizeIsOneMask(df);
    WhereSelects(canon, CleaningMask(df.columns));
    forall i | 0 <= i < |df.rows|
      ensures Survives(df.columns, df.rows[i]) == CleaningMask(df.columns)(canon[i])
    {
      CleaningMaskOnCanonical(df.columns, df.rows[i]);
    }
  }

  /** Without a state column no row is dropped. */
  lemma {:induction false} NoStateColumnKeepsEveryRow(df: Frame)
    requires StateColumn !in df.columns
    ensures |Normalize(df).rows| == |df.rows|
    ensures forall i :: 0 <= i < |df.rows| ==> Normalize(df).rows[i] == CanonicalRow(df.columns, df.rows[i])
  {
  }

  /**
    Every row of a cleaned frame has a valid state, a trimmed upper-case
    district, a parsed or missing date and the counts of the raw row it comes from.
   */
  lemma {:induction false} NormalizedRowsAreClean(df: Frame, k: int)
    requires 0 <= k < |Normalize(df).rows|
    ensures var r := Normalize(df).rows[k];
      && (StateColumn in df.columns ==> r.state.Some? && r.state.value in States.ValidStates)
      && (DistrictColumn in df.columns ==>
            r.district.Some? && Text.Trimmed(r.district.value) && Text.IsUpper(r.district.value))
      && (DateColumn in df.columns ==> r.date.None? || r.date.value.Stamp?)
      && exists i :: 0 <= i < |df.rows| && r.counts == df.rows[i].counts
  {
    NormalizeSelectsSurvivors(df);
    var pos := KeptPositions(CanonicalRows(df.columns, df.rows), CleaningMask(df.columns));
    CanonicalRowFacts(df.columns, df.rows[pos[k]]);
  }

  /** Cleaning a row's cells twice is cleaning them once. */
  lemma {:induction false} CanonicalRowIdempotent(columns: set<Column>, r: Row)
    ensures CanonicalRow(columns, CanonicalRow(columns, r)) == CanonicalRow(columns, r)
  {
    var c := CanonicalRow(columns, r);
    CanonicalRowFacts(columns, r);
    if DistrictColumn in columns {
      Text.StripTrimmed(c.district.value);
      Text.UpperOfUpper(c.district.value);
    }
    if StateColumn in columns {
      States.CanonicalStateIdempotent(CellText(r.state));
    }
  }

  /** Cleaning a cleaned frame changes nothing: no further row is dropped and no cell changes. */
  lemma {:induction false} NormalizeIdempotent(df: Frame)
    ensures Normalize(Normalize(df)) == Normalize(df)
  {
    var once := Normalize(df);
    NormalizeSelectsSurvivors(df);
    var pos := KeptPositions(CanonicalRows(df.columns, df.rows), CleaningMask(df.columns));
    forall k | 0 <= k < |once.rows|
      ensures CanonicalRow(df.columns, once.rows[k]) == once.rows[k]
    {
      CanonicalRowIdempotent(df.columns, df.rows[pos[k]]);
    }
    assert CanonicalRows(df.columns, once.rows) == once.rows;
    if StateColumn in df.columns {
      DigitFilterIsRedundant(once.rows);
      WhereAll(once.rows, HasValidState);
    }
  }

  /** Each row is cleaned on its own: cleaning a concatenation cleans each part. */
  lemma {:induction false} NormalizeAppend(columns: set<Column>, a: seq<Row>, b: seq<Row>)
    ensures Normalize(Frame(columns, a + b)).rows
         == Normalize(Frame(columns, a)).rows + Normalize(Frame(columns, b)).rows
  {
    assert CanonicalRows(columns, a + b) == CanonicalRows(columns, a) + CanonicalRows(columns, b);
    if StateColumn in columns {
      DigitFilterIsRedundant(CanonicalRows(columns, a + b));
      DigitFilterIsRedundant(CanonicalRows(columns, a));
      DigitFilterIsRedundant(CanonicalRows(columns, b));
      WhereAppend(CanonicalRows(columns, a), CanonicalRows(columns, b), HasValidState);
    }
  }

  /** A row whose state reads " orissa " is kept, renamed "ODISHA"; other cells are cleaned as usual. */
  lemma {:induction false} OrissaRowKept(columns: set<Column>, r: Row)
    requires StateColumn in columns && r.state == Some(" orissa ")
    ensures Survives(columns, r)
    ensures CanonicalRow(columns, r).state == Some("ODISHA")
  {
    States.OrissaExample();
    States.ExampleNamesAgainstValidStates();
  }

  /**
    A missing cell reads "nan": a row without a state is dropped when the frame
    has a state column, and a missing district becomes the text "NAN".
   */
  lemma {:induction false} MissingCellsBecomeNan(columns: set<Column>, r: Row)
    requires r.state.None?
    ensures StateColumn in columns ==> !Survives(columns, r)
    ensures StateColumn in columns ==> CanonicalRow(columns, r).state == Some("NAN")
    ensures CanonicalDistrict(None) == "NAN"
  {
    States.NanExample();
  }

  /** Rows whose state is "12345" or "DAMAN & DIU" are dropped whatever their other cells hold. */
  lemma {:induction false} StrayStateRowsDropped(columns: set<Column>, r: Row)
    requires StateColumn in columns
    requires r.state == Some("12345") || r.state == Some("DAMAN & DIU")
    ensures !Survives(columns, r)
  {
    States.DigitsExample();
    States.DamanExample();
    States.ExampleNamesAgainstValidStates();
  }

  /**
    A zero-padded `DD-MM-YYYY` date cell becomes that day's timestamp when the
    day exists and NaT otherwise; either way the row stays.
   */
  lemma {:induction false} DateCellParsed(columns: set<Column>, r: Row, d: Calendar.Date)
    requires DateColumn in columns
    requires 0 <= d.year <= 9999 && 1 <= d.month <= 12 && 1 <= d.day <= 31
    requires r.date == Some(Raw(Calendar.FormatDate(d)))
    ensures CanonicalRow(columns, r).date == if Calendar.ValidDate(d) then Some(Stamp(d)) else None
  {
    Calendar.ParseFormatted(d);
  }
}
