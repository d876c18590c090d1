/** Quarter and day arithmetic of finb/utils/date.py.

    Days are proleptic Gregorian ordinals, as Python's `date.toordinal()`
    numbers them (0001-01-01 is day 1, a Monday). Calendar dates are triples
    compared lexicographically, which is chronological order for valid dates. */
module Calendar {
  import opened Values

  datatype Date = Date(year: int, month: int, day: int)

  type Month = m: int | 1 <= m <= 12 witness 1

  /** A `datetime` instant: a calendar date and the microseconds since its midnight. */
  datatype Instant = Instant(year: int, month: Month, day: int, micros: nat)

  /** Python's `datetime` accepts years MINYEAR..MAXYEAR only. */
  const MinYear: int := 1
  const MaxYear: int := 9999

  predicate DateBefore(a: Date, b: Date) {
    a.year < b.year
    || (a.year == b.year && a.month < b.month)
    || (a.year == b.year && a.month == b.month && a.day < b.day)
  }

  function DateOf(now: Instant): Date {
    Date(now.year, now.month, now.day)
  }

  /** `datetime(year, month, 1) >= now`, a midnight compared with an instant. */
  predicate NotBefore(d: Date, now: Instant) {
    DateBefore(DateOf(now), d) || (d == DateOf(now) && now.micros == 0)
  }

  /** `datetime(year=year, month=month, day=1)`: a ValueError outside the year range. */
  function FirstOfMonth(year: int, month: Month): (r: Outcome<Date>)
    ensures r.Ok? <==> MinYear <= year <= MaxYear
    ensures r.Ok? ==> r.value == Date(year, month, 1)
  {
    if MinYear <= year <= MaxYear then Ok(Date(year, month, 1)) else Raised(InvalidDate)
  }

  // ---------------------------------------------------------------- quarters

  /** `prev_quarter` (date.py:41-44). */
  function PrevQuarter(year: int, quarter: int): (int, int) {
    if quarter == 1 then (year - 1, 4) else (year, quarter - 1)
  }

  /** Quarters of all years laid out on one line: consecutive quarters are consecutive integers. */
  function QuarterIndex(year: int, quarter: int): int {
    4 * year + quarter
  }

  predicate ValidQuarter(quarter: int) {
    1 <= quarter <= 4
  }

  /** Two quarters in 1..4 with the same index are the same (year, quarter). */
  lemma QuarterIndexInjective(y1: int, q1: int, y2: int, q2: int)
    requires ValidQuarter(q1) && ValidQuarter(q2)
    requires QuarterIndex(y1, q1) == QuarterIndex(y2, q2)
    ensures y1 == y2 && q1 == q2
  {
  }

  /** The previous quarter stays in 1..4 and is exactly one step back on the quarter line. */
  lemma PrevQuarterStepsBack(year: int, quarter: int)
    requires ValidQuarter(quarter)
    ensures ValidQuarter(PrevQuarter(year, quarter).1)
    ensures QuarterIndex(PrevQuarter(year, quarter).0, PrevQuarter(year, quarter).1)
            == QuarterIndex(year, quarter) - 1
    ensures quarter == 1 ==> PrevQuarter(year, quarter) == (year - 1, 4)
    ensures quarter != 1 ==> PrevQuarter(year, quarter) == (year, quarter - 1)
  {
  }

  /** `prev_quarter` applied k times, as the loop of factor.py:54-57 applies it. */
  function PrevQuarterN(year: int, quarter: int, k: nat): (int, int)
    decreases k
  {
    if k == 0 then (year, quarter)
    else
      var p := PrevQuarterN(year, quarter, k - 1);
      PrevQuarter(p.0, p.1)
  }

  lemma {:induction false} PrevQuarterNStepsBack(year: int, quarter: int, k: nat)
    requires ValidQuarter(quarter)
    ensures ValidQuarter(PrevQuarterN(year, quarter, k).1)
    ensures QuarterIndex(PrevQuarterN(year, quarter, k).0, PrevQuarterN(year, quarter, k).1)
            == QuarterIndex(year, quarter) - k
    decreases k
  {
    if k > 0 {
      PrevQuarterNStepsBack(year, quarter, k - 1);
      var p := PrevQuarterN(year, quarter, k - 1);
      PrevQuarterStepsBack(p.0, p.1);
    }
  }

  /** Four steps back is the same quarter of the previous year. */
  lemma FourQuartersBackIsPreviousYear(year: int, quarter: int)
    requires ValidQuarter(quarter)
    ensures PrevQuarterN(year, quarter, 4) == (year - 1, quarter)
  {
    PrevQuarterNStepsBack(year, quarter, 4);
    var p := PrevQuarterN(year, quarter, 4);
    QuarterIndexInjective(p.0, p.1, year - 1, quarter);
  }

  /** `convert_quarter_to_end_date` (date.py:47-58): the first day after the quarter.
      A quarter outside 1..4 leaves `month` unbound (UnboundLocalError). */
  function QuarterEndDate(year: int, quarter: int): (r: Outcome<Date>)
    ensures r.Ok? ==> ValidQuarter(quarter)
  {
    if quarter == 1 then FirstOfMonth(year, 4)
    else if quarter == 2 then FirstOfMonth(year, 7)
    else if quarter == 3 then FirstOfMonth(year, 10)
    else if quarter == 4 then FirstOfMonth(year + 1, 1)
    else Raised(InvalidDate)
  }

  /** The end dates of the four quarters, and the failures. */
  lemma QuarterEndDates(year: int, quarter: int)
    requires MinYear <= year < MaxYear
    ensures quarter == 1 ==> QuarterEndDate(year, quarter) == Ok(Date(year, 4, 1))
    ensures quarter == 2 ==> QuarterEndDate(year, quarter) == Ok(Date(year, 7, 1))
    ensures quarter == 3 ==> QuarterEndDate(year, quarter) == Ok(Date(year, 10, 1))
    ensures quarter == 4 ==> QuarterEndDate(year, quarter) == Ok(Date(year + 1, 1, 1))
    ensures !ValidQuarter(quarter) ==> QuarterEndDate(year, quarter) == Raised(InvalidDate)
  {
  }

  /** The first day of a quarter: the month that `(m - 1) // 3 + 1` sends to it, day 1. */
  function QuarterStartDate(year: int, quarter: int): Date
    requires ValidQuarter(quarter)
  {
    Date(year, 3 * (quarter - 1) + 1, 1)
  }

  /** Consecutive quarters tile the calendar: the previous quarter ends exactly where this one starts. */
  lemma PrevQuarterEndsAtQuarterStart(year: int, quarter: int)
    requires ValidQuarter(quarter)
    requires MinYear <= year <= MaxYear
    ensures QuarterEndDate(PrevQuarter(year, quarter).0, PrevQuarter(year, quarter).1)
            == Ok(QuarterStartDate(year, quarter))
  {
  }

  /** The quarter formula of `current_quarter_and_year` (date.py:24). */
  function QuarterOfMonth(month: Month): int {
    (month - 1) / 3 + 1
  }

  /** Every month maps to a quarter in 1..4, and every day of that month lies in
      [start of that quarter, end date of that quarter). */
  lemma QuarterOfMonthContainsMonth(year: int, month: Month, day: int)
    requires MinYear <= year < MaxYear
    requires day >= 1
    ensures ValidQuarter(QuarterOfMonth(month))
    ensures var q := QuarterOfMonth(month);
            var end := QuarterEndDate(year, q);
            && end.Ok?
            && DateBefore(Date(year, month, day), end.value)
            && !DateBefore(Date(year, month, day), QuarterStartDate(year, q))
  {
  }

  /** `current_quarter_and_year` (date.py:22-26) with the clock as a parameter:
      note the order, (quarter, year). */
  function CurrentQuarterAndYear(now: Instant): (int, int) {
    (QuarterOfMonth(now.month), now.year)
  }

  // ---------------------------------------------------------------- days

  predicate IsLeap(year: int) {
    year % 4 == 0 && (year % 100 != 0 || year % 400 == 0)
  }

  function DaysBeforeYear(year: int): int {
    var y := year - 1;
    y * 365 + y / 4 - y / 100 + y / 400
  }

  function DaysBeforeMonth(year: int, month: Month): int {
    var table := [0, 0, 31, 59, 90, 120, 151, 181, 212, 243, 273, 304, 334];
    table[month] + (if month > 2 && IsLeap(year) then 1 else 0)
  }

  /** Python's `date(year, month, day).toordinal()`. */
  function DayNumber(year: int, month: Month, day: int): int {
    DaysBeforeYear(year) + DaysBeforeMonth(year, month) + day
  }

  /** Python's `weekday()` and pandas' `dayofweek`: Monday is 0, Sunday is 6. */
  function Weekday(d: int): int {
    (d + 6) % 7
  }

  lemma WeekdayOfPreviousDay(d: int)
    requires Weekday(d) >= 1
    ensures Weekday(d - 1) == Weekday(d) - 1
  {
    var q := (d + 6) / 7;
    assert d + 5 == 7 * q + (Weekday(d) - 1);
  }

  /** `latest_working_day` (date.py:34-39) with `current_day()` given as `today`. */
  method LatestWorkingDay(today: int) returns (d: int)
    ensures Weekday(d) < 5
    ensures today - 2 <= d <= today
    ensures forall k :: d < k <= today ==> Weekday(k) >= 5
  {
    d := today;
    while Weekday(d) >= 5
      invariant d <= today
      invariant today - d == Weekday(today) - Weekday(d)
      invariant d < today ==> Weekday(d) >= 4
      invariant forall k :: d < k <= today ==> Weekday(k) >= 5
      decreases Weekday(d)
    {
      WeekdayOfPreviousDay(d);
      d := d - 1;
    }
  }
}
