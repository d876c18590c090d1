# finb core, modelled in Dafny

finb is a toolkit for Vietnamese listed companies. It crawls quarterly financial statements and daily prices, and it derives fundamental and technical factors from them. This project models the deterministic core of that toolkit and proves properties of the model:

- **The quarterly fundamental-factor engine** (`CompanyQuarterlyFundamentalFactors` in `finb/analyzer/factor.py`). A snapshot of one (symbol, year, quarter) is built from its balance sheet, income statement, cash-flow statement and price series. The prices are clipped to the quarter's window. The snapshot also carries a chain of four prior-quarter snapshots. About fifty-five factors are computed from it, each wrapped so that a failure becomes NaN. `EPS` is the one factor left unwrapped.
- **The technical factors** (`TechnicalFactors`): traded volume over a slice of recent days, and the free float left after the major holders.
- **Quarter and day arithmetic** (`finb/utils/date.py`).
- **Data shaping in `finb/utils/datahub.py`**:
  - the daily-to-weekly OHLCV aggregation;
  - the quarter gate shared by the statement readers;
  - the balance-sheet and income-statement percent views;
  - the revenue and operating-cash-flow repairs;
  - the "{y}-Q{q}" year-range assembly.
- **Bar sampling and returns** (`finb/analyzer/process.py`).
- **The slug step of the company URL** (`finb/utils/common.py`).

## Modules

| file | module | models |
|---|---|---|
| `values.dfy` | `Values` | Python exceptions as `Outcome` (`Ok` or `Raised(Error)`), floats as `Num` (a real or NaN), and left-to-right arithmetic on them |
| `calendar.dfy` | `Calendar` | `prev_quarter`, `convert_quarter_to_end_date`, the month-to-quarter formula, day ordinals and weekdays, `latest_working_day` |
| `slug.dfy` | `Slug` | `"-".join(name.strip().lower().split())` |
| `statements.dfy` | `Statements` | statement tables, the `Store` of files, the single-quarter readers, the repairs, the percent views |
| `weekly.dfy` | `Weekly` | `generate_weekly_quotes` |
| `year_range.dfy` | `YearRange` | the `*_with_year_range` readers |
| `bars.dfy` | `Bars` | `compute_returns`, `volume_bar`, `dollar_bar` |
| `factors.dfy` | `Factors` | `nanc`, `CompanyQuarterlyFundamentalFactors.__init__` and every factor property |
| `technical.dfy` | `Technical` | `TechnicalFactors` |

### Modelling conventions

- **Exceptions.** A Python exception is the value `Raised(e)`. The cause `e` is a missing line item, a missing table, a missing price series, a chain that is too short, a division by zero, an invalid date, a missing holders file, or a column-length mismatch. `nanc` is `Factors.Nanc`: it maps every `Raised` to `NaN`.
- **Tables.** A statement table is the ordered sequence of its (label, value) rows. `df.loc[label]` reads the first row with that label, and a percent view addresses rows by position.
- **Files and the clock.** The files on disk are one value, the `Store`. A key the store lacks is a read that failed and was caught. An empty price series reads as None, because `read_price_df` raises on its last date and catches that (finb/utils/datahub.py:19-27). The wall clock is the `Store`'s `now`; `latest_working_day` takes `today` as a parameter.
- **Days.** A day is its proleptic Gregorian ordinal, as Python's `toordinal()` numbers it. The weekday is `(d + 6) % 7`, with Monday as 0.
- **Constants.** `PAR_VALUE` and `TAX_RATE` live in a file outside this model, so they are the fields of a `Factors.Config` parameter.
- **Statements, effects and loops.**
  - Snapshots are values: `__init__` is the only place their fields are set.
  - `__init__` is the method `Factors.Build`. Its four-step chain loop is the method `Factors.LoadChain`, which calls `Build` with the chain suppressed.
  - The loops of the source are methods proved against specification functions: `WeeklyQuotes`, `BalanceSheetPercent`, `CollectQuarters`, `Concat`, `VolumeBar`, `DollarBar` and `LatestWorkingDay`.
- **The default identity path.** When the year or quarter is left to default, `__init__` assigns `current_quarter_and_year()`, which returns `(quarter, year)`, to `self.year, self.quarter` (finb/analyzer/factor.py:22-23, finb/utils/date.py:22-26). The statement readers then get a quarter equal to the current calendar year, and the first of them raises in `convert_quarter_to_end_date`, outside its `try` (finb/analyzer/factor.py:28, finb/utils/datahub.py:94-97). `Factors.DefaultPathRaises` proves that the path without a year always raises, and `Factors.DefaultQuarterPathRaises` that the path with a year but no quarter raises whenever the current year lies outside 1..4.
- **Year-range columns.** A quarter that read as None gets the column `""` (finb/utils/datahub.py:178-179); the model writes it as the cell `Blank`.

## Model

| member | source | states |
|---|---|---|
| Calendar.QuarterIndexInjective | finb/utils/date.py:41-44 | two quarters in 1..4 with the same linear index 4y+q are the same quarter |
| Calendar.PrevQuarterStepsBack | finb/utils/date.py:41-44 | `prev_quarter` gives (y-1, 4) for Q1 and (y, q-1) otherwise; the result stays in 1..4 and the linear index drops by exactly 1 |
| Calendar.PrevQuarterNStepsBack | finb/analyzer/factor.py:54-57 | `prev_quarter` applied k times stays in 1..4 and moves exactly k quarters back |
| Calendar.FourQuartersBackIsPreviousYear | finb/utils/date.py:41-44 | four steps back is the same quarter of the previous year |
| Calendar.QuarterEndDate | finb/utils/date.py:47-58 | a successful end date implies a quarter in 1..4 |
| Calendar.QuarterEndDates | finb/utils/date.py:47-58 | Q1 to Q4 end on (y,4,1), (y,7,1), (y,10,1) and (y+1,1,1); any other quarter raises (unbound `month`) |
| Calendar.PrevQuarterEndsAtQuarterStart | finb/utils/date.py:41-58 | the end date of the previous quarter is the first day of the quarter: quarters tile the calendar |
| Calendar.QuarterOfMonthContainsMonth | finb/utils/date.py:22-26 | `(m-1)//3+1` is in 1..4, and every day of month m lies in that quarter: not before its start and before its end date |
| Calendar.WeekdayOfPreviousDay | finb/utils/date.py:34-39 | stepping one day back from Tuesday..Sunday lowers the weekday by one |
| Calendar.LatestWorkingDay | finb/utils/date.py:34-39 | the result is a weekday (Mon..Fri), at most two days before today, and every day after it up to today is a weekend day |
| Slug.WordsSplitAtSpace | finb/utils/common.py:12-14 | splitting at a whitespace character splits the word list there |
| Slug.WordsAreNonEmptyWithoutSpace | finb/utils/common.py:12-14 | `split()` never yields an empty word or one that holds whitespace |
| Slug.WordsEmptyIffAllSpace | finb/utils/common.py:12-14 | a string has no words exactly when it is all whitespace |
| Slug.WordsOfOneWord | finb/utils/common.py:12-14 | a non-empty string without whitespace is a single word |
| Slug.StripLeftShape | finb/utils/common.py:12 | `lstrip` removes exactly the leading whitespace run |
| Slug.StripRightShape | finb/utils/common.py:12 | `rstrip` removes exactly the trailing whitespace run |
| Slug.WordsOfStrip | finb/utils/common.py:12-14 | stripping never changes the words |
| Slug.WordsOfLower | finb/utils/common.py:12-14 | lowering commutes with splitting |
| Slug.SlugIsJoinedLowerWords | finb/utils/common.py:12-14 | the slug is the lower-cased whitespace-separated words joined by single hyphens |
| Slug.JoinAppend | finb/utils/common.py:14 | joining two non-empty word lists puts one separator between their joins |
| Slug.SlugHasNoSpaceNoUpper | finb/utils/common_test.py:7-14 | the slug contains no whitespace and no upper-case letter |
| Slug.SlugEmptyIffBlank | finb/utils/common.py:12-14 | the slug is empty exactly when the name is empty or all whitespace |
| Slug.SlugIgnoresOuterSpace | finb/utils/common.py:12-14 | leading and trailing whitespace contributes no hyphen |
| Slug.SlugJoinsAcrossSpace | finb/utils/common.py:14 | a whitespace run between two parts that hold words becomes exactly one hyphen |
| Slug.SlugIdempotent | finb/utils/common.py:12-14 | the slug of a slug is itself |
| Statements.IndexOf | finb/utils/datahub.py:112-120 | the position found holds the label and is the first such position; None means no row holds the label |
| Statements.IndexOfDependsOnLabels | finb/utils/datahub.py:219-221 | tables with the same labels find every label at the same position |
| Statements.LocAfterSetValue | finb/utils/datahub.py:219-221 | after the assignment the label reads v and every other label reads as before |
| Statements.RowValues | finb/utils/datahub.py:312-322 | present exactly when every label is present, and then the labels' values in order |
| Statements.RepairRevenueFails | finb/utils/datahub.py:215-223 | the revenue repair fails (the reader gives None) exactly when a label it reads is missing |
| Statements.RepairRevenueRewritesGross | finb/utils/datahub.py:219-221 | gross revenue below net revenue becomes net revenue plus deductions and nothing else changes; otherwise the table is returned unchanged |
| Statements.RepairedGrossNotBelowNet | finb/utils/datahub.py:219-221 | with non-negative deductions, the repaired gross revenue is never below net revenue |
| Statements.RepairOperatingCashFlowFails | finb/utils/datahub.py:309-325 | the cash-flow repair fails exactly when the operating cash-flow label is missing, or when it is zero and one of the ten parts is missing |
| Statements.RepairOperatingCashFlowRewritesZero | finb/utils/datahub.py:311-322 | a zero operating cash flow becomes the sum of the ten listed rows and nothing else changes; a non-zero one is left as it is |
| Statements.BalanceSheetPercent | finb/utils/datahub.py:112-135 | the two append loops build the percent view: the assets header, the asset rows over total assets, the capital header, the capital rows over total assets |
| Statements.AppendScaled | finb/utils/datahub.py:118-124 | one append loop extends the rows by the scaled range, or fails on a zero divisor |
| Statements.PercentViewAssetRows | finb/utils/datahub.py:112-124 | asset row k sits at position 1+k-fa of the percent view, as its value over a non-zero total assets |
| Statements.PercentViewTotalIsOne | finb/utils/datahub.py:115-124 | the total-assets row of the percent view reads exactly 1 |
| Statements.IncomePercentViewRows | finb/utils/datahub.py:224-237 | the income percent view is missing exactly when a bounding label is missing or revenue is zero over a non-empty range; otherwise row k is row first+k of the statement over revenue, and the first row reads exactly 1 |
| Statements.ScaledRowsRoundTrip | finb/utils/datahub.py:118-134 | multiplying a scaled row by the divisor gives back the raw value |
| Statements.ReadBalanceSheet | finb/utils/datahub.py:93-146 | raises exactly on an invalid quarter, and returns a table only for a quarter that ended before now |
| Statements.ReadBalanceSheetPercent | finb/utils/datahub.py:93-146 | raises exactly on an invalid quarter, and returns a percent view only for a quarter that ended before now |
| Statements.ReadIncomeStatement | finb/utils/datahub.py:203-242 | raises exactly on an invalid quarter, and returns a repaired table only for a quarter that ended before now |
| Statements.ReadIncomeStatementPercent | finb/utils/datahub.py:203-242 | raises exactly on an invalid quarter, and returns a percent view only for a quarter that ended before now |
| Statements.ReadCashflow | finb/utils/datahub.py:297-328 | raises exactly on an invalid quarter, and returns a repaired table only for a quarter that ended before now |
| Weekly.WeekOfIsMonday | finb/utils/datahub.py:36 | a row's week key is a Monday, and the row lies within the seven days that start there |
| Weekly.WeekOfIsUnique | finb/utils/datahub.py:36 | a day belongs to the week of a Monday exactly when its key is that Monday |
| Weekly.First | finb/utils/datahub.py:41 | the position of the first occurrence of a value |
| Weekly.Unique | finb/utils/datahub.py:41 | `unique()` yields values of the input, none of them twice |
| Weekly.UniqueCovers | finb/utils/datahub.py:41 | every value of the input is among the unique values |
| Weekly.UniqueKeepsFirstAppearanceOrder | finb/utils/datahub.py:41 | the unique values come out in the order of their first appearance |
| Weekly.RowsOfWeekMembers | finb/utils/datahub.py:42 | the rows selected for week w are exactly the input rows keyed w, and there are some exactly when w occurs |
| Weekly.MaxHighIsMaximum | finb/utils/datahub.py:44 | the weekly high bounds every row's high and is one of them |
| Weekly.MinLowIsMinimum | finb/utils/datahub.py:45 | the weekly low bounds every row's low and is one of them |
| Weekly.WeeklyQuotes | finb/utils/datahub.py:32-55 | the loop that prepends each week's bar, followed by the reversal, yields one bar per distinct week in order of first appearance |
| Weekly.PrependKeepsReversedPrefix | finb/utils/datahub.py:49-51 | prepending the next bar to the reversed prefix gives the reversed longer prefix |
| Weekly.WeeklyKeys | finb/utils/datahub.py:36-54 | every output key is a Monday, no week appears twice, and the week of every input row appears |
| Weekly.WeeklyBarSummarisesWeek | finb/utils/datahub.py:41-47 | each weekly bar has the first row's open and the last row's close, its high and low bound the week's rows and are attained, and its volume is the sum of the week's volumes |
| Weekly.VolumeOfWeeksAppend | finb/utils/datahub.py:47 | one more daily row adds its volume to the volume of its own week only |
| Weekly.VolumeOfAllWeeks | finb/utils/datahub.py:41-47 | the weekly volumes over all weeks sum to the total daily volume |
| Weekly.WeeklyVolumePreserved | finb/utils/datahub.py:32-55 | the weekly table carries exactly the daily table's total volume |
| YearRange.Digits | finb/utils/datahub.py:157 | `str(n)` is non-empty and all digits |
| YearRange.DigitsRoundTrip | finb/utils/datahub.py:157 | reading back the digits of n gives n |
| YearRange.IntToStringRoundTrip | finb/utils/datahub.py:157 | reading back `str(n)` of any integer gives n |
| YearRange.QuarterLabelInjective | finb/utils/datahub.py:157 | distinct (year, quarter) pairs get distinct "{y}-Q{q}" labels |
| YearRange.Entries | finb/utils/datahub.py:153-170 | the list built for n visited quarters has n pairs |
| YearRange.EntriesAt | finb/utils/datahub.py:153-170 | pair k is labelled by the k-th visited quarter (years ascending, then quarters 1..4) and holds what was read for it |
| YearRange.EntriesStayRaised | finb/utils/datahub.py:153-170 | once a read raises, the range reader raises that same exception |
| YearRange.FirstFieldsIsEarliest | finb/utils/datahub.py:151-171 | the index is the labels of the earliest statement that was read, and is absent exactly when every quarter read as None |
| YearRange.CollectQuarters | finb/utils/datahub.py:153-170 | the nested loop yields the list of pairs and the index, or the first exception a read raised |
| YearRange.CollectYear | finb/utils/datahub.py:154-170 | one pass of the inner loop appends four pairs or raises |
| YearRange.ColumnsAt | finb/utils/datahub.py:172-181 | column k is built from pair k: the statement's values, or `""` for a quarter read as None |
| YearRange.ColumnsRaisedIff | finb/utils/datahub.py:172-181 | the column loop raises exactly when a statement's length differs from the index's |
| YearRange.Concat | finb/utils/datahub.py:172-181 | the column loop returns the index with one column per pair, or the length error |
| YearRange.AssembleRange | finb/utils/datahub.py:148-200 | collection followed by the column loop is the range frame |
| YearRange.RangeColumnAt | finb/utils/datahub.py:148-200 | column k is labelled by the k-th visited quarter and holds that quarter's values, or is blank when it read as None |
| YearRange.RangeColumns | finb/utils/datahub.py:148-200 | the range frame has 4·(to−from+1) columns, labelled "{y}-Q{q}" in order, blank for missing quarters |
| YearRange.EntriesOk | finb/utils/datahub.py:153-170 | reads that never raise let the collection loop finish |
| YearRange.ReadStatementRaises | finb/utils/datahub.py:155-166 | a single-quarter read raises exactly when the quarter's end date cannot be built |
| YearRange.RangeReadsInYears | finb/utils/datahub.py:148-170 | for years 1..9998 the collection loop never raises |
| YearRange.BalanceSheetRange | finb/utils/datahub.py:148-200 | the balance-sheet range reader returns the range frame of the single-quarter reader |
| YearRange.IncomeStatementPercentRangeAsWritten | finb/utils/datahub.py:244-294 | the percent income range as written: the quarters are collected, but the columns come from the raw list, which this format leaves empty |
| YearRange.IncomePercentRangeHasNoColumns | finb/utils/datahub.py:278-286 | the frame as written has no quarter column at all, where the corrected frame has 4·(to−from+1) |
| YearRange.IncomeStatementRange | finb/utils/datahub.py:244-294 | the income range reader, corrected to take its columns from the list its format filled and to assign the values in order, returns the range frame |
| YearRange.AlignedRangeColumns | finb/utils/datahub.py:268-276 | assigning each statement's label-indexed values to the position-indexed frame gives one column per visited quarter, all NaN for a quarter that was read and `""` for one that read as None |
| YearRange.IncomeStatementRawRangeAsWritten | finb/utils/datahub.py:244-290 | the raw income range as written: the quarters are collected, and the column loop builds the aligned columns |
| YearRange.IncomeRawRangeLosesValues | finb/utils/datahub.py:268-276 | as written, a quarter that was read gets an all-NaN column and nothing raises, where the corrected frame holds that statement's values |
| Bars.ReturnsCompound | finb/analyzer/process.py:7-12 | the first return is 0; a return compounds the previous price into the current one; after a zero price the return is 0 or an infinity of the new price's sign |
| Bars.ReturnsOfFlatPrices | finb/analyzer/process.py:7-12 | prices that do not move have zero returns |
| Bars.ScanBars | finb/analyzer/process.py:49-60 | the loop's selected indices are row positions |
| Bars.SelectionIncreases | finb/analyzer/process.py:49-60 | the selected indices are in range and strictly increase |
| Bars.ScanIsBarSelection | finb/analyzer/process.py:49-60 | each selected row ends a run that reaches the threshold while every shorter prefix stays below it; the rows after the last selection stay below it and form the accumulator |
| Bars.RunsClosedAppend | finb/analyzer/process.py:53-58 | a newly closed run extends the valid selection |
| Bars.BarCountBound | finb/analyzer/process.py:49-60 | with non-negative weights, the bar count times the threshold is at most the total weight |
| Bars.CopiesIsProduct | finb/analyzer/process.py:49-60 | n thresholds added up are n times the threshold |
| Bars.RunsSum | finb/analyzer/process.py:53-58 | the first j runs weigh at least j thresholds |
| Bars.DropDuplicatesKeepsInputRows | finb/analyzer/process.py:59 | every row kept by `drop_duplicates` is an input row |
| Bars.DropDuplicatesCoversInput | finb/analyzer/process.py:59 | every input row's values survive in some kept row |
| Bars.DropDuplicatesDistinct | finb/analyzer/process.py:59 | no two kept rows have the same values |
| Bars.VolumeBar | finb/analyzer/process.py:49-60 | `volume_bar` returns the de-duplicated rows that the accumulator scan over the volumes selects |
| Bars.DollarBar | finb/analyzer/process.py:63-74 | `dollar_bar` returns the de-duplicated rows that the scan over (close+low+high)/3·volume·1000 selects |
| Bars.DollarWeightsNonNegative | finb/analyzer/process.py:63-74 | non-negative prices and volumes give non-negative dollar weights, so the count bound applies |
| Factors.ItemsSumIsRowSum | finb/analyzer/factor.py:182-205 | a left-to-right sum of labelled rows succeeds exactly when the table and every label are present, and is then the sum of their values |
| Factors.FCFEIsAlwaysNaN | finb/analyzer/factor.py:313-320 | FCFE indexes columns by row labels, so it is always NaN |
| Factors.EPSRaisesOnlyOnZeroShares | finb/analyzer/factor.py:327-329 | the unwrapped EPS raises exactly when the share count is zero, and then with a division by zero |
| Factors.EPSFailureIsContained | finb/analyzer/factor.py:137-145 | when EPS raises, the wrapped PE and trailing EPS are NaN instead |
| Factors.NumberOfSharesFormula | finb/analyzer/factor.py:63-68 | shares are equity over par value, and NaN without a balance sheet, an equity row or a non-zero par value; shares times par gives equity back |
| Factors.BVPSFormula | finb/analyzer/factor.py:70-75 | book value per share is (assets − liabilities) / shares, NaN for zero shares, and multiplies back to the book value |
| Factors.MCFormula | finb/analyzer/factor.py:77-81 | market cap is shares × last close × 1000, NaN without prices |
| Factors.EVFormula | finb/analyzer/factor.py:101-105 | EV is MC + total debt − cash − short-term investments |
| Factors.OPAFormula | finb/analyzer/factor.py:193-205 | operating assets are the sum of the nine listed rows, NaN when one is missing |
| Factors.OPLFormula | finb/analyzer/factor.py:182-191 | operating liabilities are the sum of the six listed rows, NaN when one is missing |
| Factors.NOAFormula | finb/analyzer/factor.py:207-211 | NOA is OPA − OPL, NaN when either is NaN or the balance sheet is missing |
| Factors.Trailing12MonthEPSFormula | finb/analyzer/factor.py:137-140 | trailing EPS is own EPS plus the EPS of chain entries 0..2, NaN when the chain is shorter than three |
| Factors.DeltasSubtractPreviousQuarter | finb/analyzer/factor.py:260-273 | every delta factor is own value minus the previous quarter's, NaN on an empty chain |
| Factors.RatiosOverEV | finb/analyzer/factor.py:113-116 | every ratio over EV is NaN for a zero EV; CFO/EV and sales/EV are the quotients otherwise |
| Factors.RatiosOverNOA | finb/analyzer/factor.py:213-229 | every ratio over NOA is NaN for a zero NOA; RNOA is net income over NOA otherwise |
| Factors.RatiosOverRevenue | finb/analyzer/factor.py:381-397 | every ratio over revenue is NaN for zero revenue; ROS is EBIT over revenue otherwise |
| Factors.EarningsFormula | finb/analyzer/factor.py:118-129 | EBIT is pre-tax profit plus interest expense; EBITDA adds depreciation |
| Factors.FinancingFormula | finb/analyzer/factor.py:147-162 | net buyback is −dividends − buyback − share issues; net external financing further subtracts repayments and borrowings |
| Factors.CapexAndWorkingCapital | finb/analyzer/factor.py:346-350 | CAPEX is minus the sum of the listed purchase and disposal rows |
| Factors.EmptyChainTrailingNaN | finb/analyzer/factor.py:137-145 | without a chain the trailing EPS and PE are NaN |
| Factors.EmptyChainRatiosNaN | finb/analyzer/factor.py:275-311 | without a chain the profitability, scalability, growth, RIC and FCFF factors are NaN |
| Factors.MissingBalanceSheetGivesNaN | finb/analyzer/factor.py:10-16 | a missing balance sheet makes the balance-sheet factors NaN rather than raising |
| Factors.MissingIncomeStatementGivesNaN | finb/analyzer/factor.py:10-16 | a missing income statement makes the income factors NaN rather than raising |
| Factors.MissingCashflowGivesNaN | finb/analyzer/factor.py:10-16 | a missing cash-flow statement makes the cash-flow factors NaN rather than raising |
| Factors.PriceWindow | finb/analyzer/factor.py:35-46 | the window's bounds are first days of months |
| Factors.PriceWindowIsQuarter | finb/analyzer/factor.py:35-46 | for Q1..Q4 the window runs from the quarter's first day to its end date; any other quarter gets the Q4 window |
| Factors.PriceWindowsTile | finb/analyzer/factor.py:35-46 | each quarter's window ends where the next quarter's begins |
| Factors.InWindowKeeps | finb/analyzer/factor.py:48-49 | the filter keeps exactly the rows with sd ≤ date < ed |
| Factors.InWindowAppend | finb/analyzer/factor.py:48-49 | the filter keeps the input order: clipping a concatenation concatenates the clipped parts |
| Factors.InWindowCounts | finb/analyzer/factor.py:48-49 | each row inside the window is kept as many times as it occurs in the input, and a row outside it never |
| Factors.InWindowLast | finb/analyzer/factor.py:48-49 | when some row is inside the window, the last kept row is the last input row inside it |
| Factors.ClippedLastClose | finb/analyzer/factor.py:48-49 | the last close of a clipped snapshot is the close of the last input row inside the window |
| Factors.LoadQuarter | finb/analyzer/factor.py:20-49 | a loaded snapshot has an empty chain and the given symbol, year and quarter |
| Factors.DefaultPathRaises | finb/analyzer/factor.py:20-46 | a snapshot whose year is left to default always raises |
| Factors.DefaultQuarterPathRaises | finb/analyzer/factor.py:20-30 | a snapshot given a year but no quarter raises whenever the current calendar year is outside 1..4 |
| Factors.LoadedSnapshot | finb/analyzer/factor.py:20-49 | a loaded snapshot holds what the three readers returned for its quarter, and its prices are the current prices, or exactly the rows in the quarter's window |
| Factors.Build | finb/analyzer/factor.py:20-61 | construction succeeds exactly when the quarter loads and, unless the chain is suppressed, all four prior quarters load; the result is the loaded snapshot with either an empty chain or four entries, entry k being quarter k+1 back loaded without current prices |
| Factors.LoadChain | finb/analyzer/factor.py:51-61 | the loop over four prior quarters succeeds exactly when each loads, and entry k is the snapshot of `prev_quarter` applied k+1 times |
| Technical.BuildAnalysis | finb/analyzer/factor.py:400-406 | raises when the holders cannot be read; otherwise succeeds exactly when the fundamental snapshot and its chain load, and holds the prices, the holders and that snapshot |
| Technical.WindowVolumeExact | finb/analyzer/factor.py:408-411 | when days+shift ≤ n both the slice as written and the corrected window sum exactly the rows n−shift−days..n−shift |
| Technical.WindowVolumeOfNoDays | finb/analyzer/factor.py:408-411 | zero days gives zero volume, as written and corrected |
| Technical.SliceVolumeWraps | finb/analyzer/factor.py:408-411 | as written, with no shift and n < days < 2n, only the last days−n rows are summed |
| Technical.SliceVolumeAllRows | finb/analyzer/factor.py:408-411 | as written, with no shift and days ≥ 2n, every row is summed |
| Technical.SliceVolumeMissesRows | finb/analyzer/factor.py:408-411 | as written, with positive volumes, no shift and n < days < 2n, the slice sums strictly less than all the rows, which the corrected window sums |
| Technical.WindowVolumeOfShortHistory | finb/analyzer/factor.py:408-411 | the corrected window sums every row before the shift when fewer than days+shift rows exist |
| Technical.WindowVolumeNonNegative | finb/analyzer/factor.py:408-411 | non-negative volumes give a non-negative window volume |
| Technical.FreeFloatFormula | finb/analyzer/factor.py:416-420 | the free float is shares − major holders' shares; its share raises for zero shares, and is otherwise float/shares, which multiplies back to the share count |
| Technical.FreeFloatOfUnknownShares | finb/analyzer/factor.py:416-423 | a NaN share count makes the float and both ratios NaN |
| Technical.TotalVol2FreeFloatingFormula | finb/analyzer/factor.py:408-423 | the volume ratio raises on missing prices or a zero float, and is otherwise the volume over the float: the slice as written for the ratio as written, the window for the corrected ratio |
| Technical.TotalVol2FreeFloatingAsWrittenUndercounts | finb/analyzer/factor.py:408-423 | as written, with positive volumes, a positive float, no shift and n < days < 2n, the ratio is strictly below the corrected ratio, which is the volume of every row over the float |
| Technical.FloatAtMostShares | finb/analyzer/factor.py:413-417 | with non-negative holdings the free float never exceeds the share count |

## Left out

- File reading, crawling, caching and the freshness checks of the readers: the `Store` value stands for the files, and a missing key stands for a read that failed and was caught.
- `read_major_holders` is likewise a lookup in the store: a missing entry raises.
- The wall clock: `now` is part of the `Store`, and `latest_working_day` takes today as a parameter.
- numpy floating point: division by zero raises, and `nanc` turns it into NaN. numpy would give inf or NaN without raising, and rounding is not modelled.
- `compute_returns` is the exception to this: its division by a zero price is kept as ±inf, or 0 for 0/0 after `fillna(0)`.
- Slug.Lower: lowers ASCII letters only. Its input is the ASCII text `unidecode` makes of the company name (finb/utils/common.py:12), and `unidecode` itself is not part of this model.
- pandas indexing with duplicate labels: `df.loc[label]` reads the first row holding the label.
- The revenue repair is chained assignment, which pandas may not write back. The model writes it, as the code evidently intends.
- The in-place `df.loc[...]` repairs are modelled as functions that return the repaired table. Aliasing of the frame is not modelled.
- The "both" format of the year-range readers is not modelled separately: it returns the raw and the percent frame, each modelled on its own.
- Bars.DropDuplicates: compares open, high, low, close and volume only. Other columns of the price file are not part of the model.
- scipy-based `compute_beta`, `specific_risk`, `normal_return_test` and `time_bar`; the UI, the crawlers, `holders_graph.py` and `risk_adjusted_ic.py`: they are outside the core.
- The `year` and `quarter` fields of `TechnicalFactors` are stored but read by no method.
- Bars.BarCountBound: states count × threshold ≤ total weight as `Copies(count, threshold)`. `Bars.CopiesIsProduct` equates that with the product.
- Factors.NOAFormula: is stated over the OPA and OPL values; their row sums are given by `Factors.OPAFormula` and `Factors.OPLFormula`.
- Factors.CapexAndWorkingCapital: states the working-capital factor as current assets minus liabilities, the two rows the code reads.
- Factors: factors whose formula is a direct composition of others (for example `CFO2EV`, `EBITDA2EV`, `S2EV`, `DPO`, `PE`) are modelled as functions; their NaN behaviour is proved by the ratio and missing-statement lemmas, not by one formula lemma each.
- The constants `PAR_VALUE` and `TAX_RATE` come from `finb/utils/constant.py`, which is not part of this model: they are the fields of `Factors.Config`.

## Findings

| source | as written | input that shows it | evidently intended | confidence | as-written member | corrected member |
|---|---|---|---|---|---|---|
| finb/utils/datahub.py:278-286 | `concat_percent_df` of the income-statement range loops over `list_raw_df`, which the "percent" format never fills | `read_income_statement_with_year_range(s, 2020, 2020, "percent")` gives a frame with only the `fields` column | loop over `list_percent_df`, as the balance-sheet range reader does at datahub.py:186 | not executed | YearRange.IncomeStatementPercentRangeAsWritten, YearRange.IncomePercentRangeHasNoColumns | YearRange.IncomeStatementRange |
| finb/utils/datahub.py:273 | `ret_raw_df[q] = df["values"]` assigns a Series indexed by the statement's labels to a frame indexed 0..n−1, so pandas aligns it and every read quarter's column is NaN, without raising | `read_income_statement_with_year_range(s, 2020, 2020, "raw")` for a symbol with a stored Q1 statement gives an all-NaN "2020-Q1" column | `df["values"].tolist()`, as the balance-sheet range reader does at datahub.py:177 | not executed | YearRange.IncomeStatementRawRangeAsWritten, YearRange.IncomeRawRangeLosesValues | YearRange.IncomeStatementRange |
| finb/analyzer/factor.py:408-411 | `iloc[s:e]` with s = n−shift−days: when fewer than days+shift rows exist, s is negative and counts from the end, so fewer rows are summed than exist, and `TotalVol2FreeFloating` (factor.py:422-423) divides that smaller sum | `TotalVol(days=20, shift=0)` over 15 rows with positive volumes sums only the last 5 | clamp s at 0 and sum every available row before the shift | not executed | Technical.TotalVolAsWritten, Technical.SliceVolumeWraps, Technical.SliceVolumeMissesRows, Technical.TotalVol2FreeFloatingAsWritten, Technical.TotalVol2FreeFloatingAsWrittenUndercounts | Technical.TotalVol, Technical.WindowVolume, Technical.WindowVolumeOfShortHistory, Technical.TotalVol2FreeFloating |
