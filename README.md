# UIDAI update-demand pipeline, in Dafny

This project models `main.py`, a pandas script that analyses Aadhaar
biometric-update, demographic-update and enrolment records. The script does
the following:

1. **Loads** each of the three categories. It collects the tables read from
   the category's CSV files and concatenates them (`load_and_merge`).
2. **Cleans** the three merged frames in a loop:
   - it parses the `date` column as `%d-%m-%Y`, and text that does not parse
     becomes NaT;
   - it strips and upper-cases `district`;
   - it strips and upper-cases `state`, and resolves it through a fixed alias
     map;
   - it drops the rows whose state is digits only or not one of 36 valid
     names.
3. **Analyses** the cleaned frames:
   - the national totals `total_demo` and `total_bio`;
   - the child compliance ranking `child_gap_ratio`: the per-state biometric
     5-17 sums divided by the per-state enrolment 0-5 sums, sorted in
     descending order, with the top ten kept for plotting;
   - the monthly trend of adult demographic updates (`resample("M")`).

Each step is a Dafny module in its own file:

| file | module | what it models |
|---|---|---|
| `wrappers.dfy` | `Wrappers` | `Option` and `Result` |
| `text.dfy` | `Text` | `str.strip()`, `str.upper()`, `fullmatch(r"\d+")`, on ASCII |
| `calendar.dfy` | `Calendar` | Gregorian dates, the `%d-%m-%Y` parser, month numbering |
| `frames.dfy` | `Frames` | rows, frames, missing cells, boolean-mask selection `df[mask]` |
| `merge.dfy` | `Merge` | `load_and_merge` and `pd.concat` |
| `states.dfy` | `States` | `state_mapping`, `valid_states`, the canonical state name |
| `normalize.dfy` | `Normalize` | the cleaning loop over `dfs` |
| `totals.dfy` | `Totals` | `df[[c1, c2]].sum().sum()` |
| `series.dfy` | `Series` | a Series keyed by state, and Python's string order |
| `groups.dfy` | `Groups` | `groupby("state")[c].sum()` |
| `ranking.dfy` | `Ranking` | Series division, `sort_values(ascending=False)`, `head(10)` |
| `trend.dfy` | `Trend` | `set_index("date").resample("M")[c].sum()` |
| `pipeline.dfy` | `Pipeline` | the script end to end, producing a `Report` |

The parts of the script that change state are imperative Dafny:

- `Merge.LoadAndMerge` has the `df_list` loop.
- `Normalize.RewriteColumn` rewrites a column in place over an `array`.
- `Normalize.NormalizeAll` replaces each element of the `dfs` array by its
  cleaned frame.
- `Pipeline.RunPipeline` runs the script's statements in order.

Each of these methods is proved equal to a specification function. The
properties are then proved about those functions.

Choices about how pandas is represented:

- **Missing cells.** A missing cell is `None`. `astype(str)` turns a missing
  cell into the text `"nan"`. A missing count cell adds nothing to a sum.
- **Ratios.** Ratios are exact rationals, not floats. `x/0` is an infinity
  with the sign of `x`, `0/0` is NaN, and a state present on one side only
  gets NaN.
- **Months.** A month is a `(year, month)` pair.

### Behaviour worth noting

- **Number of valid names.** `valid_states` lists 36 names (main.py:53-90):
  28 states and 8 union territories.
- **Categories with no files.** `pd.concat([])` raises "No objects to
  concatenate" (main.py:20). `Merge.Concat` returns that error, and
  `Pipeline.Run` fails with that error whenever one of the three lists of files is empty.
- **States on one side only.** Series division aligns on the union of the
  labels (main.py:145):
  - a state on one side only gets NaN and is ranked last;
  - a state with a zero enrolment sum and a positive biometric sum gets +inf
    and is ranked ahead of every finite or NaN ratio (`Ranking.PosInfFirst`).
- **No parsed date.** `resample("M")` (main.py:158) on a non-empty table whose
  every date is NaT has no first or last month to build its bins from, and
  pandas raises. `Trend.Resample` fails there, and so does `Pipeline.Run`.
  An empty table gives an empty series.
- **Ties.** `sort_values` promises no order among equal ratios. The model
  proves that the ranking is sorted and is a permutation, and nothing about
  the order of ties.

## Model

| member | source | states |
|---|---|---|
| Text.UpperCharIdempotent | main.py:100 | `upper()` on one character changes exactly the lower-case letters, leaves none, and a second application changes nothing |
| Text.UpperCharKeepsSpace | main.py:100 | `upper()` never turns whitespace into non-whitespace or back |
| Text.StripLeftDropsSpacePrefix | main.py:100 | the left strip removes a whitespace-only prefix and keeps the rest unchanged |
| Text.StripRightDropsSpaceSuffix | main.py:100 | the right strip removes a whitespace-only suffix and keeps the rest unchanged |
| Text.StripIsTrimmedMiddle | main.py:100 | `strip()` returns a middle part of its input, with no whitespace at either end, and only whitespace is cut away around it |
| Text.StripTrimmed | main.py:100 | stripping an already trimmed string changes nothing |
| Text.StripIdempotent | main.py:100 | `strip()` is idempotent |
| Text.Upper | main.py:100 | `upper()` keeps the length |
| Text.UpperIsUpper | main.py:100 | the result of `upper()` has no lower-case letter, and `upper()` is idempotent |
| Text.UpperOfUpper | main.py:100 | a string without lower-case letters is its own upper-case |
| Text.UpperKeepsTrimmed | main.py:100 | upper-casing keeps a trimmed string trimmed |
| Text.StripUpperIdempotent | main.py:100 | the output of `strip().upper()` is trimmed and upper-case, so applying the chain again changes nothing |
| Text.DigitsHaveNoLetters | main.py:108 | a string that fully matches `\d+` holds no space and no letter, upper- or lower-case |
| Calendar.DaysInMonth | main.py:97 | a month has 28 to 31 days, and February has 29 exactly in leap years |
| Calendar.ParseDate | main.py:97 | whatever the parser accepts is a day that exists, in years 1-9999 |
| Calendar.FourDigitsValue | main.py:97 | `%Y` reads back the year spelled with four digits |
| Calendar.FourDigitsSpellValue | main.py:97 | a four-digit year field is the spelling of its value |
| Calendar.ParseFormatted | main.py:97 | a zero-padded `DD-MM-YYYY` text parses to its date when that day exists, and to NaT otherwise |
| Calendar.ParsedTenIsFormatted | main.py:97 | every ten-character text the parser accepts that does not start with a space is the zero-padded spelling of its date |
| Calendar.MonthAt | main.py:158 | consecutive month numbers name calendar months, and the numbering is invertible |
| Calendar.MonthOfDate | main.py:158 | a date falls in the month named by its month number |
| Frames.Where | main.py:108-111 | a selection is no longer than the frame, and every row it keeps satisfies the mask |
| Frames.WhereSelects | main.py:108-111 | `df[mask]` keeps exactly the rows the mask accepts, each once, unchanged and in order |
| Frames.WhereAppend | main.py:108-111 | selecting from a concatenation selects from each part |
| Frames.WhereWhere | main.py:108-111 | two masks applied in turn act as their conjunction |
| Frames.WhereAll | main.py:108-111 | a mask that accepts every row keeps the frame as it is |
| Merge.Concat | main.py:20 | `pd.concat` fails exactly on an empty list of tables |
| Merge.LoadAndMerge | main.py:15-20 | the append loop followed by the concatenation equals `Concat` of the tables read |
| Merge.AllRowsLength | main.py:20-21 | the merged row count is the sum of the per-file row counts |
| Merge.AllRowsAppend | main.py:20 | concatenating two lists of tables concatenates their rows |
| Merge.AllColumnsAppend | main.py:20 | concatenating two lists of tables unites their columns |
| Merge.AllRowsAt | main.py:20 | row `j` of file `i` is row `RowCount(files[..i]) + j` of the merged table |
| Merge.ConcatWellFormed | main.py:20 | a row has no cell in a column its own file lacks, also after the merge |
| States.PlainNameIsCanonical | main.py:103-105 | a name of upper-case letters and inner spaces is trimmed, upper-case and not digits only |
| States.ValidStatesStartWithLetter | main.py:53-90 | every valid name starts with a letter |
| States.AliasTargetsListed | main.py:38-51 | the values of the alias map are exactly the nine listed target names |
| States.AliasTargetsReached | main.py:38-51 | each of the nine target names is the value of some alias |
| States.AliasTargetsArePlain | main.py:38-51 | every alias target is already trimmed and upper-case |
| States.AliasTargetsAreNotKeys | main.py:38-51 | no alias target is itself an alias, so one lookup reaches a fixed point |
| States.StrandedAliasTargets | main.py:38-90 | every alias target is valid except "DAMAN AND DIU" and "DADRA AND NAGAR HAVELI", so rows renamed to those are dropped |
| States.ValidStatesAreNotDigits | main.py:53-90 | no valid name is digits only |
| States.CanonicalStateIdempotent | main.py:103-105 | canonicalizing a canonical state name changes nothing |
| States.CanonicalOfPlain | main.py:103-105 | a trimmed upper-case value only goes through the alias lookup |
| States.OrissaExample | main.py:39 | " orissa " becomes "ODISHA" |
| States.WestBengalExample | main.py:42 | inner blanks are not collapsed, and "WEST  BENGAL" is resolved by its own alias |
| States.DamanExample | main.py:48 | "DAMAN & DIU" becomes "DAMAN AND DIU", which is not a valid name |
| States.NanExample | main.py:100-105 | the text "nan" of a missing cell becomes "NAN", which is not a valid name |
| States.DigitsExample | main.py:103-105 | a digits-only value passes through canonicalization unchanged |
| States.ExampleNamesAgainstValidStates | main.py:53-90 | "ODISHA" and "WEST BENGAL" are valid; "DAMAN AND DIU" and "12345" are not |
| Normalize.MissingCellsBecomeNan | main.py:100-111 | a missing state becomes "NAN" and its row is dropped when the frame has a state column; a missing district becomes "NAN" |
| Normalize.CoerceDate | main.py:97 | with `errors="coerce"`, a date cell ends as a timestamp or NaT and never raises |
| Normalize.CanonicalDistrict | main.py:100 | a cleaned district is trimmed and upper-case |
| Normalize.CanonicalRowFacts | main.py:96-105 | row rewriting leaves counts and absent columns untouched; the date becomes a timestamp or NaT, and the district is trimmed and upper-case |
| Normalize.CanonicalRows | main.py:96-105 | the column rewrites keep the number of rows |
| Normalize.RewriteColumn | main.py:97-105 | the in-place column assignment replaces each row by its rewritten form |
| Normalize.Select | main.py:108-111 | the filtering loop computes `df[mask]` |
| Normalize.NormalizeFrame | main.py:96-111 | the loop body for one frame computes `Normalize` |
| Normalize.NormalizeAll | main.py:94-113 | after the loop, each element of `dfs` is the cleaned form of its old value |
| Normalize.DigitFilterIsRedundant | main.py:108-111 | the digits-only filter drops nothing that the valid-name filter keeps |
| Normalize.CleaningMaskOnCanonical | main.py:102-111 | whether a row is kept depends only on its canonical state |
| Normalize.NormalizeIsOneMask | main.py:108-111 | the two filters act as one mask over the canonical rows |
| Normalize.NormalizeSelectsSurvivors | main.py:94-113 | cleaning keeps exactly the rows whose canonical state is valid (all rows without a state column), each once, in order, and in canonical form |
| Normalize.NoStateColumnKeepsEveryRow | main.py:102 | a frame without a state column loses no row |
| Normalize.NormalizedRowsAreClean | main.py:94-113 | every cleaned row has a valid state, a clean district, a parsed or missing date, and the counts of a raw row |
| Normalize.CanonicalRowIdempotent | main.py:96-105 | rewriting a row twice is rewriting it once |
| Normalize.NormalizeIdempotent | main.py:94-113 | cleaning a cleaned frame changes nothing |
| Normalize.NormalizeAppend | main.py:94-113 | each row is cleaned on its own, so cleaning a concatenation cleans each part |
| Normalize.OrissaRowKept | main.py:103-111 | a row with state " orissa " is kept and renamed "ODISHA" |
| Normalize.StrayStateRowsDropped | main.py:108-111 | rows with state "12345" or "DAMAN & DIU" are dropped |
| Normalize.DateCellParsed | main.py:97 | a zero-padded date cell becomes that day's timestamp if the day exists, and NaT otherwise |
| Totals.TotalSnoc | main.py:122-123 | one more row adds its row total to the grand total |
| Totals.TotalIsSumOfRowTotals | main.py:122-123 | summing column by column and then across equals summing each row's listed cells |
| Totals.EmptyTotal | main.py:122-123 | an empty table totals zero |
| Totals.ColumnSumSnoc | main.py:122-123 | a row without the count column leaves the column sum unchanged; a row with it adds its count |
| Totals.ColumnSumAppend | main.py:122-123 | column sums add up over a concatenation |
| Totals.TotalAppend | main.py:122-123 | grand totals add up over a concatenation |
| Totals.TotalOfMerge | main.py:20-23 | a merged category's total is the sum of its files' totals |
| Totals.CleanedColumnSum | main.py:108-123 | a cleaned column sum is the column sum over the raw rows that survive |
| Totals.CleanedTotal | main.py:108-123 | a cleaned frame's total is the total of the raw rows it keeps |
| Totals.TotalDemoExample | main.py:122 | a row holding only `demo_age_17_` = 5 totals 5 |
| Series.LessIrreflexive | main.py:141-142 | no name sorts before itself |
| Series.LessTransitive | main.py:141-142 | Python's string order is transitive |
| Series.LessTotal | main.py:141-142 | any two different names are ordered one way or the other |
| Series.KeysAreLabels | main.py:141-142 | the label set of a series is the set of its entries' labels |
| Series.AscendingCons | main.py:141-142 | an entry below every label can go in front of an ascending series |
| Series.AscendingTail | main.py:141-142 | the tail of an ascending series is ascending and lies above its first label |
| Series.AscendingIsDistinct | main.py:141-142 | an ascending series repeats no label |
| Series.DistinctCons | main.py:145 | an entry with a new label can go in front of a series without repeated labels |
| Series.DistinctTail | main.py:145 | the tail of a series without repeated labels repeats none and lacks the first label |
| Series.LookupEntry | main.py:145 | in a series without repeated labels, looking up an entry's label gives that entry's value |
| Series.Lookup | main.py:145 | a lookup succeeds exactly for the labels of the series |
| Series.BelowFirstIsAbsent | main.py:141-142 | no label below the first label occurs in an ascending series |
| Groups.AddToGroupKeys | main.py:141-142 | adding to a group keeps the labels ascending and adds the key |
| Groups.GroupSum | main.py:141-142 | the groupby result is sorted by state |
| Groups.StateSumOfAbsent | main.py:141-142 | a state with no rows sums to zero |
| Groups.AddToGroupLookup | main.py:141-142 | adding to a group changes that group's value and no other |
| Groups.AddToGroupSum | main.py:141-142 | adding to a group adds to the series' total |
| Groups.GroupSumLookup | main.py:141-142 | there is a group for exactly the states that occur, and each holds its state's column sum |
| Groups.GroupSumsAddUp | main.py:141-142 | the group values add up to the column over the rows that have a state |
| Groups.StatedSumOfStatedRows | main.py:141-142 | when every row has a state, that is the whole column sum |
| Ranking.Divide | main.py:145 | float division of sums: NaN exactly for 0/0, +inf exactly for a positive sum over zero, -inf exactly for a negative one, finite exactly when the divisor is non-zero, and the quotient cross-multiplies back |
| Ranking.AtLeastTotal | main.py:145 | any two ratios are comparable in the descending order |
| Ranking.CrossMultiplied | main.py:145 | the arithmetic step behind transitivity of the order on finite quotients |
| Ranking.AtLeastTransitive | main.py:145 | the descending order with NaN last is transitive |
| Ranking.AlignSpec | main.py:145 | Series division has the union of both label sets, ascending, with the quotient where both sides have the label and NaN elsewhere |
| Ranking.AlignLeftFirst | main.py:145 | the AlignSpec step for a label on the left side only |
| Ranking.AlignRightFirst | main.py:145 | the AlignSpec step for a label on the right side only |
| Ranking.AlignBothFirst | main.py:145 | the AlignSpec step for a label on both sides |
| Ranking.FirstKeyNotInTail | main.py:145 | the first label of an ascending series does not recur |
| Ranking.AboveFirst | main.py:145 | a name below the first label of an ascending series lies below every label |
| Ranking.AlignValid | main.py:145 | every aligned quotient is a well-formed ratio |
| Ranking.InsertPermutes | main.py:145 | insertion adds the entry and loses none |
| Ranking.InsertBounded | main.py:145 | insertion keeps an upper bound on the values |
| Ranking.InsertSorted | main.py:145 | insertion keeps the ranking sorted |
| Ranking.SortDescendingSpec | main.py:145 | `sort_values(ascending=False)` returns a permutation of its input, in non-increasing order with NaN last |
| Ranking.InsertKeys | main.py:145 | insertion adds the entry's label and keeps labels distinct |
| Ranking.SortDescendingKeys | main.py:145 | sorting keeps the labels, and keeps them distinct |
| Ranking.UndefinedLast | main.py:145 | in the ranking, every entry after a NaN is NaN |
| Ranking.PosInfFirst | main.py:145 | in the ranking, every entry before a +inf is +inf, so +inf ratios come ahead of every finite or NaN ratio |
| Ranking.ChildGapRatioSpec | main.py:141-145 | `child_gap_ratio` has one entry per state on either side, each equal to the state's biometric sum over its enrolment sum (NaN if one-sided or 0/0), sorted non-increasingly |
| Ranking.Head | main.py:148 | `head(n)` is a prefix of length `min(n, len)` |
| Ranking.HeadIsTop | main.py:148 | the top ten are sorted, and none of them ranks below an entry left out |
| Ranking.RankingExample | main.py:145 | in a four-state example, a zero enrolment sum ranks first as +inf, equal sums give 1, and a one-sided state is NaN and ranks last |
| Trend.EarliestMonthSpec | main.py:158 | the earliest month exists exactly when some date parsed; it bounds every dated row's month from below and is one of them |
| Trend.LatestMonthSpec | main.py:158 | the latest month exists exactly when some date parsed; it bounds every dated row's month from above and is one of them |
| Trend.MonthAtNext | main.py:158 | consecutive month numbers are consecutive calendar months |
| Trend.RowMonth | main.py:158 | a dated row's calendar month is the month its number names |
| Trend.TrendConsecutive | main.py:158 | the month range is empty exactly when no date parsed, and otherwise steps one calendar month at a time |
| Trend.ResampleSpec | main.py:158 | resampling fails exactly on a non-empty table without a parsed date, and otherwise gives a series that is empty exactly when the table is |
| Trend.TrendAt | main.py:158 | the trend has one entry per month from the earliest to the latest, and entry `k` holds month `lo + k` and that month's sum |
| Trend.TrendFirst | main.py:158 | the first month of the trend is that of some dated row |
| Trend.TrendLast | main.py:158 | the last month of the trend is that of some dated row |
| Trend.TrendCovers | main.py:158 | every dated row's month appears in the trend, holding that month's sum |
| Trend.BucketOfEmptyMonth | main.py:158 | a month without rows sums to zero |
| Trend.TrendUndatedRow | main.py:157-158 | a row whose date is NaT changes nothing in the trend |
| Trend.RangeSumSnoc | main.py:158 | one more row adds its count to a month range exactly when its month lies in the range |
| Trend.RangeCoversDated | main.py:158 | a month range that holds every dated row sums to the whole dated column |
| Trend.RangeOfNoRows | main.py:158 | an empty table sums to zero over any month range |
| Trend.TrendSumOfBuckets | main.py:158 | month entries holding bucket sums add up to their range |
| Trend.TrendTotal | main.py:157-158 | the monthly values add up to the column over the rows with a parsed date |
| Trend.TrendExample | main.py:158 | 3 in January and 4 in March give the trend 3, 0, 4 |
| Pipeline.Run | main.py:33-158 | the script fails exactly when some category has no files, or when the cleaned demographic table has rows but no parsed date; a missing category gives "No objects to concatenate" |
| Pipeline.RunPipeline | main.py:33-158 | the script's statements, run in order, compute `Run` |
| Pipeline.ReportTotals | main.py:122-123 | `total_demo` and `total_bio` are the listed columns summed over the raw rows, from all files, that survive cleaning |
| Pipeline.TotalDemoOfStatelessFiles | main.py:102-122 | without a state column, `total_demo` is the sum of the per-file totals |
| Pipeline.ReportRanking | main.py:141-148 | the reported ranking is sorted, has distinct states and holds each state's ratio; the top ten are its head, and nothing left out ranks above them |
| Pipeline.RankedStatesAreValid | main.py:111-145 | every state in the ranking is a valid name |
| Pipeline.CleanedGroupsAddUp | main.py:141-142 | the per-state sums of a column over a cleaned frame add up to the column's sum over that frame |
| Pipeline.ReportTrend | main.py:157-158 | the reported trend loses only the rows whose date did not parse |

## Left out

- Reading and I/O are not modelled. `glob`, `read_csv`, `os.path.join`, the `print` calls and all plotting (matplotlib and seaborn) are outside the model. The model takes the tables already read as parameters, in the order `glob` returned the files.
- Column types are not inferred. There are no dtypes: `state`, `district` and `date` are optional text cells, and every count column holds integers.
- A count column that is missing raises `KeyError` in pandas; here its cells count as zero (`Frames.Count`). The same holds for `groupby("state")` on a frame without a state column: `Groups.GroupSum` then gives an empty series instead of raising. Likewise, `set_index("date")` raises on a frame without a date column. Here the rows of such a frame have no date, so `Trend.Resample` fails when the frame has rows and gives an empty trend when it has none.
- When the script stops at `resample`, the totals and the ranking it printed before are not part of the model: `Pipeline.Run` then returns only the error.
- Only ASCII is covered for `strip()`, `upper()` and `\d`. Unicode whitespace, Unicode case mapping (for example `ß` becoming `SS`) and non-ASCII digits are not modelled.
- The date parser does not model the special strings `"now"` and `"today"`, which read the clock. It also does not model the nanosecond timestamp range of 1677-09-22 to 2262-04-11: dates outside that range but in years 1-9999 parse here, whereas pandas turns them into NaT.
- Floating point is not modelled. Ratios are exact rationals, so rounding and float ties are left out, and ordering is by exact value.
- 64-bit integer overflow in the sums is not modelled; integers are unbounded.
- A month of the trend is a `(year, month)` pair, not pandas' month-end timestamp label.
- `set_index("date", inplace=True)` mutates the demographic frame in place. Only the resampled series computed from it is modelled.
- Ranking.SortDescending: among entries with equal ratios the model fixes one order, but pandas leaves that order unspecified, so the contracts promise only sortedness and permutation.
