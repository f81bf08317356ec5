/**
  The script itself (main.py:33-158): the three categories are loaded and
  merged, the list `dfs` of the three frames is cleaned in place, and the
  three analyses are computed from the cleaned frames. Printing and plotting
  are left out; what the script computes for them is the `Report`.
 */
module Pipeline {
  import opened Wrappers
  import opened Frames
  import Calendar
  import States
  import Merge
  import Normalize
  import Totals
  import Series
  import Groups
  import Ranking
  import Trend

  /** The values main.py prints or plots. */
  datatype Report = Report(
    totalDemo: int,
    totalBio: int,
    childGapRatio: seq<(string, Ranking.Ratio)>,
    topStates: seq<(string, Ranking.Ratio)>,
    adultDigitalTrend: seq<(Calendar.Month, int)>)

  /** The merged frame of a non-empty list of tables. */
  function Merged(files: seq<Frame>): Frame
    requires |files| > 0
  {
    Merge.Concat(files).value
  }

  /** The two ways the script stops: a category without files, or a trend without any date. */
  datatype ScriptError = MergeFailed(Merge.MergeError) | ResampleFailed(Trend.ResampleError)

  /** main.py:122-158 on the cleaned biometric, demographic and enrolment frames. */
  function Analyse(biometric: Frame, demographic: Frame, enrolment: Frame): Result<Report, ScriptError> {
    var ratio := Ranking.ChildGapRatio(biometric.rows, enrolment.rows);
    match Trend.Resample(demographic.rows, "demo_age_17_")
    case Failure(e) => Failure(ResampleFailed(e))
    case Success(trend) =>
      Success(Report(
        Totals.TotalDemo(demographic),
        Totals.TotalBio(biometric),
        ratio,
        Ranking.Head(ratio, 10),
        trend))
  }

  /**
    The whole script, from the tables read from each category's files. It
    stops when some category has no files, and otherwise when the cleaned
    demographic table has rows but none with a parsed date.
   */
  function Run(bioFiles: seq<Frame>, demoFiles: seq<Frame>, enrolFiles: seq<Frame>): (r: Result<Report, ScriptError>)
    ensures r.Failure? <==>
      || |bioFiles| == 0 || |demoFiles| == 0 || |enrolFiles| == 0
      || (var demo := Normalize.Normalize(Merged(demoFiles)).rows; |demo| > 0 && !Trend.HasDated(demo))
    ensures |bioFiles| == 0 || |demoFiles| == 0 || |enrolFiles| == 0 ==>
      r == Failure(MergeFailed(Merge.NoObjectsToConcatenate))
  {
    match (Merge.Concat(bioFiles), Merge.Concat(demoFiles), Merge.Concat(enrolFiles))
    case (Success(b), Success(d), Success(e)) =>
      Trend.ResampleSpec(Normalize.Normalize(d).rows, "demo_age_17_");
      Analyse(Normalize.Normalize(b), Normalize.Normalize(d), Normalize.Normalize(e))
    case _ => Failure(MergeFailed(Merge.NoObjectsToConcatenate))
  }

  /** main.py:33-158 step by step; the first category without files, or a trend without dates, stops the script. */
  method RunPipeline(bioFiles: seq<Frame>, demoFiles: seq<Frame>, enrolFiles: seq<Frame>)
    returns (report: Result<Report, ScriptError>)
    ensures report == Run(bioFiles, demoFiles, enrolFiles)
  {
    var biometric := Merge.LoadAndMerge(bioFiles);
    if biometric.Failure? {
      return Failure(MergeFailed(biometric.error));
    }
    var demographic := Merge.LoadAndMerge(demoFiles);
    if demographic.Failure? {
      return Failure(MergeFailed(demographic.error));
    }
    var enrolment := Merge.LoadAndMerge(enrolFiles);
    if enrolment.Failure? {
      return Failure(MergeFailed(enrolment.error));
    }
    var dfs := new Frame[] [biometric.value, demographic.value, enrolment.value];
    Normalize.NormalizeAll(dfs);
    var bio, demo, enrol := dfs[0], dfs[1], dfs[2];
    var totalDemo := Totals.TotalDemo(demo);
    var totalBio := Totals.TotalBio(bio);
    var ratio := Ranking.ChildGapRatio(bio.rows, enrol.rows);
    var trend := Trend.Resample(demo.rows, "demo_age_17_");
    if trend.Failure? {
      return Failure(ResampleFailed(trend.error));
    }
    report := Success(Report(totalDemo, totalBio, ratio, Ranking.Head(ratio, 10), trend.value));
  }

  /**
    `total_demo` and `total_bio` are the listed count columns summed over the
    raw rows, of all files of the category, that survive cleaning.
   */
  lemma {:induction false} ReportTotals(bioFiles: seq<Frame>, demoFiles: seq<Frame>, enrolFiles: seq<Frame>)
    requires Run(bioFiles, demoFiles, enrolFiles).Success?
    ensures var r := Run(bioFiles, demoFiles, enrolFiles).value;
      && r.totalDemo == Totals.Total(Totals.Survivors(Merged(demoFiles)), Totals.DemoColumns)
      && r.totalBio == Totals.Total(Totals.Survivors(Merged(bioFiles)), Totals.BioColumns)
  {
    Totals.CleanedTotal(Merged(demoFiles), Totals.DemoColumns);
    Totals.CleanedTotal(Merged(bioFiles), Totals.BioColumns);
  }

  /** Without a state column nothing is dropped: the demographic total is then the total over all files. */
  lemma {:induction false} TotalDemoOfStatelessFiles(demoFiles: seq<Frame>)
    requires |demoFiles| > 0 && StateColumn !in Merge.AllColumns(demoFiles)
    ensures Totals.TotalDemo(Normalize.Normalize(Merged(demoFiles)))
         == Totals.FileTotals(demoFiles, Totals.DemoColumns)
  {
    var merged := Merged(demoFiles);
    Normalize.NoStateColumnKeepsEveryRow(merged);
    Totals.CleanedTotal(merged, Totals.DemoColumns);
    assert Totals.Survivors(merged) == merged.rows by {
      WhereAll(merged.rows, (r: Row) => Normalize.Survives(merged.columns, r));
    }
    Totals.TotalOfMerge(demoFiles, Totals.DemoColumns);
  }

  /**
    The ranking has one entry per state of the cleaned biometric or enrolment
    frame, sorted non-increasingly, each the ratio of the state's sums; the
    plotted top ten is its head and nothing left out ranks above it.
   */
  lemma {:induction false} ReportRanking(bioFiles: seq<Frame>, demoFiles: seq<Frame>, enrolFiles: seq<Frame>)
    requires Run(bioFiles, demoFiles, enrolFiles).Success?
    ensures var r := Run(bioFiles, demoFiles, enrolFiles).value;
      var bio, enrol := Normalize.Normalize(Merged(bioFiles)).rows, Normalize.Normalize(Merged(enrolFiles)).rows;
      && Ranking.SortedDescending(r.childGapRatio)
      && Series.DistinctKeys(r.childGapRatio)
      && (forall k :: k in Series.Keys(r.childGapRatio) <==> Groups.HasState(bio, k) || Groups.HasState(enrol, k))
      && (forall i :: 0 <= i < |r.childGapRatio| ==>
            r.childGapRatio[i].1 == Ranking.StateRatio(bio, enrol, r.childGapRatio[i].0))
      && r.topStates <= r.childGapRatio
      && |r.topStates| == (if |r.childGapRatio| < 10 then |r.childGapRatio| else 10)
      && (forall i, j :: 0 <= i < |r.topStates| <= j < |r.childGapRatio| ==>
            Ranking.AtLeast(r.topStates[i].1, r.childGapRatio[j].1))
  {
    var bio, enrol := Normalize.Normalize(Merged(bioFiles)).rows, Normalize.Normalize(Merged(enrolFiles)).rows;
    Ranking.ChildGapRatioSpec(bio, enrol);
    Ranking.HeadIsTop(Ranking.ChildGapRatio(bio, enrol), 10);
  }

  /** When both merged frames have a state column, every ranked state is one of the valid names. */
  lemma {:induction false} RankedStatesAreValid(biometric: Frame, enrolment: Frame, k: string)
    requires StateColumn in biometric.columns && StateColumn in enrolment.columns
    requires k in Series.Keys(Ranking.ChildGapRatio(Normalize.Normalize(biometric).rows, Normalize.Normalize(enrolment).rows))
    ensures k in States.ValidStates
  {
    var bio, enrol := Normalize.Normalize(biometric), Normalize.Normalize(enrolment);
    Ranking.ChildGapRatioSpec(bio.rows, enrol.rows);
    if Groups.HasState(bio.rows, k) {
      var i :| 0 <= i < |bio.rows| && bio.rows[i].state == Some(k);
      Normalize.NormalizedRowsAreClean(biometric, i);
    } else {
      var i :| 0 <= i < |enrol.rows| && enrol.rows[i].state == Some(k);
      Normalize.NormalizedRowsAreClean(enrolment, i);
    }
  }

  /**
    Grouping the cleaned rows by state loses nothing: the per-state sums of a
    column (main.py:141-142) add up to the column's sum over the cleaned frame.
   */
  lemma {:induction false} CleanedGroupsAddUp(df: Frame, column: string)
    requires StateColumn in df.columns
    ensures Series.ValueSum(Groups.GroupSum(Normalize.Normalize(df).rows, column))
         == Totals.ColumnSum(Normalize.Normalize(df).rows, column)
  {
    var rows := Normalize.Normalize(df).rows;
    forall i | 0 <= i < |rows|
      ensures rows[i].state.Some?
    {
      Normalize.NormalizedRowsAreClean(df, i);
    }
    Groups.GroupSumsAddUp(rows, column);
    Groups.StatedSumOfStatedRows(rows, column);
  }

  /**
    The monthly trend loses only the rows whose date did not parse: its values
    add up to `demo_age_17_` over the cleaned rows with a date.
   */
  lemma {:induction false} ReportTrend(bioFiles: seq<Frame>, demoFiles: seq<Frame>, enrolFiles: seq<Frame>)
    requires Run(bioFiles, demoFiles, enrolFiles).Success?
    ensures var r := Run(bioFiles, demoFiles, enrolFiles).value;
      Trend.TrendSum(r.adultDigitalTrend)
      == Trend.DatedSum(Normalize.Normalize(Merged(demoFiles)).rows, "demo_age_17_")
  {
    Trend.TrendTotal(Normalize.Normalize(Merged(demoFiles)).rows, "demo_age_17_");
  }
}
