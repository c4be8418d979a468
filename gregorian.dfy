/**
 * Proleptic Gregorian dates as the `time` crate computes them: a date is a
 * year, a month and a day, and every date has a day number counting days
 * from 0000-01-01. Years are limited to -9999..=9999, the crate's default
 * range.
 */
module Gregorian {
  import opened Wrappers

  const MIN_YEAR: int := -9999
  const MAX_YEAR: int := 9999

  /** Day number of 1970-01-01, the Unix epoch. */
  const UNIX_EPOCH_DAY: int := 719528

  predicate IsLeap(y: int) {
    y % 4 == 0 && (y % 100 != 0 || y % 400 == 0)
  }

  function YearLength(y: int): nat {
    if IsLeap(y) then 366 else 365
  }

  function DaysInMonth(y: int, m: nat): (n: nat)
    requires 1 <= m <= 12
    ensures 28 <= n <= 31
  {
    if m == 2 then (if IsLeap(y) then 29 else 28)
    else if m == 4 || m == 6 || m == 9 || m == 11 then 30
    else 31
  }

  datatype Date = Date(year: int, month: nat, day: nat)

  /** A month and day that exist, in any year. */
  predicate WellFormed(d: Date) {
    1 <= d.month <= 12 && 1 <= d.day <= DaysInMonth(d.year, d.month)
  }

  /** A date the `time` crate can represent. */
  predicate Valid(d: Date) {
    WellFormed(d) && MIN_YEAR <= d.year <= MAX_YEAR
  }

  /**
   * Days from 0000-01-01 to the first of January of `y`, counted year by
   * year; `DaysBeforeYearIs` gives the closed form.
   */
  function DaysBeforeYear(y: int): int
    decreases if y < 0 then -y else y
  {
    if y == 0 then 0
    else if y > 0 then DaysBeforeYear(y - 1) + YearLength(y - 1)
    else DaysBeforeYear(y + 1) - YearLength(y)
  }

  /** 365 days a year plus one for each leap year before `y` (after it, for negative years). */
  function YearStartFormula(y: int): int {
    365 * y + (y + 3) / 4 - (y + 99) / 100 + (y + 399) / 400
  }

  lemma FormulaStep(y: int)
    ensures YearStartFormula(y + 1) == YearStartFormula(y) + YearLength(y)
  {
    CountStep4(y);
    CountStep100(y);
    CountStep400(y);
  }

  /** Each count of multiples grows by one exactly at a multiple. */
  lemma CountStep4(y: int)
    ensures (y + 4) / 4 == (y + 3) / 4 + (if y % 4 == 0 then 1 else 0)
  {
  }

  lemma CountStep100(y: int)
    ensures (y + 100) / 100 == (y + 99) / 100 + (if y % 100 == 0 then 1 else 0)
  {
  }

  lemma CountStep400(y: int)
    ensures (y + 400) / 400 == (y + 399) / 400 + (if y % 400 == 0 then 1 else 0)
  {
  }

  lemma {:induction false} DaysBeforeYearIs(y: int)
    ensures DaysBeforeYear(y) == YearStartFormula(y)
    decreases if y < 0 then -y else y
  {
    if y > 0 {
      DaysBeforeYearIs(y - 1);
      FormulaStep(y - 1);
    } else if y < 0 {
      DaysBeforeYearIs(y + 1);
      FormulaStep(y);
    }
  }

  /** Days from the first of January to the first of month `m`. */
  function DaysBeforeMonth(y: int, m: nat): nat
    requires 1 <= m <= 13
  {
    if m == 1 then 0 else DaysBeforeMonth(y, m - 1) + DaysInMonth(y, m - 1)
  }

  function DayNumber(d: Date): int
    requires WellFormed(d)
  {
    DaysBeforeYear(d.year) + DaysBeforeMonth(d.year, d.month) + d.day - 1
  }

  lemma YearStep(y: int)
    ensures DaysBeforeYear(y + 1) == DaysBeforeYear(y) + YearLength(y)
  {
  }

  lemma MonthsFillYear(y: int)
    ensures DaysBeforeMonth(y, 13) == YearLength(y)
  {
    assert DaysBeforeMonth(y, 2) == 31;
    assert DaysBeforeMonth(y, 3) == 31 + DaysInMonth(y, 2);
    assert DaysBeforeMonth(y, 4) == DaysBeforeMonth(y, 3) + 31;
    assert DaysBeforeMonth(y, 5) == DaysBeforeMonth(y, 4) + 30;
    assert DaysBeforeMonth(y, 6) == DaysBeforeMonth(y, 5) + 31;
    assert DaysBeforeMonth(y, 7) == DaysBeforeMonth(y, 6) + 30;
    assert DaysBeforeMonth(y, 8) == DaysBeforeMonth(y, 7) + 31;
    assert DaysBeforeMonth(y, 9) == DaysBeforeMonth(y, 8) + 31;
    assert DaysBeforeMonth(y, 10) == DaysBeforeMonth(y, 9) + 30;
    assert DaysBeforeMonth(y, 11) == DaysBeforeMonth(y, 10) + 31;
    assert DaysBeforeMonth(y, 12) == DaysBeforeMonth(y, 11) + 30;
    assert DaysBeforeMonth(y, 13) == DaysBeforeMonth(y, 12) + 31;
  }

  lemma {:induction false} DaysBeforeMonthGrows(y: int, a: nat, b: nat)
    requires 1 <= a <= b <= 13
    ensures DaysBeforeMonth(y, a) <= DaysBeforeMonth(y, b)
    ensures a < b ==> DaysBeforeMonth(y, a) + DaysInMonth(y, a) <= DaysBeforeMonth(y, b)
    decreases b - a
  {
    if a < b {
      DaysBeforeMonthGrows(y, a, b - 1);
    }
  }

  /** The day number of a date lies within its year. */
  lemma DayNumberInYear(d: Date)
    requires WellFormed(d)
    ensures DaysBeforeYear(d.year) <= DayNumber(d) < DaysBeforeYear(d.year + 1)
  {
    DaysBeforeMonthGrows(d.year, d.month, 13);
    MonthsFillYear(d.year);
    YearStep(d.year);
  }

  lemma {:induction false} YearsGrow(a: int, b: int)
    requires a < b
    ensures DaysBeforeYear(a + 1) <= DaysBeforeYear(b)
    decreases b - a
  {
    YearStep(a);
    if a + 1 < b {
      YearsGrow(a + 1, b);
      YearStep(a + 1);
    }
  }

  /** A year to start the search for the year holding day `n` from. */
  function YearBelow(n: int): (y: int)
    ensures DaysBeforeYear(y) <= n
  {
    if n >= 0 then
      var y := n / 366;
      DaysBeforeYearIs(y);
      assert (y + 399) / 400 <= (y + 99) / 100;
      assert (y + 3) / 4 <= y;
      y
    else
      var y := n / 365;
      DaysBeforeYearIs(y);
      assert (y + 3) / 4 <= (y + 99) / 100 - (y + 399) / 400;
      y
  }

  /** The year holding day `n`, searching upwards from `y`. */
  function YearUp(n: int, y: int): (r: int)
    requires DaysBeforeYear(y) <= n
    ensures DaysBeforeYear(r) <= n < DaysBeforeYear(r + 1)
    decreases n - DaysBeforeYear(y)
  {
    YearStep(y);
    if DaysBeforeYear(y + 1) <= n then YearUp(n, y + 1) else y
  }

  /** The month and day of day `rem` (counted from 0) of year `y`, searching from month `m`. */
  function MonthDay(y: int, rem: nat, m: nat): (r: Date)
    requires 1 <= m <= 12 && DaysBeforeMonth(y, m) + rem < YearLength(y)
    ensures WellFormed(r) && r.year == y && m <= r.month
    ensures DaysBeforeMonth(y, r.month) + r.day - 1 == DaysBeforeMonth(y, m) + rem
    decreases 12 - m
  {
    MonthsFillYear(y);
    if m == 12 || rem < DaysInMonth(y, m) then Date(y, m, rem + 1)
    else MonthDay(y, rem - DaysInMonth(y, m), m + 1)
  }

  /** The date of day number `n`. */
  function FromDayNumber(n: int): (d: Date)
    ensures WellFormed(d) && DayNumber(d) == n
  {
    var y := YearUp(n, YearBelow(n));
    YearStep(y);
    MonthDay(y, n - DaysBeforeYear(y), 1)
  }

  /** Round trip: each well-formed date is the date of its day number. */
  lemma FromDayNumberOfDate(d: Date)
    requires WellFormed(d)
    ensures FromDayNumber(DayNumber(d)) == d
  {
    var n := DayNumber(d);
    var e := FromDayNumber(n);
    DayNumberInYear(d);
    DayNumberInYear(e);
    if e.year < d.year {
      YearsGrow(e.year, d.year);
    } else if d.year < e.year {
      YearsGrow(d.year, e.year);
    }
    assert e.year == d.year;
    if e.month < d.month {
      DaysBeforeMonthGrows(d.year, e.month, d.month);
    } else if d.month < e.month {
      DaysBeforeMonthGrows(d.year, d.month, e.month);
    }
  }

  /** Day numbers of well-formed dates are distinct: the numbering is one-to-one. */
  lemma DayNumberInjective(d: Date, e: Date)
    requires WellFormed(d) && WellFormed(e) && DayNumber(d) == DayNumber(e)
    ensures d == e
  {
    FromDayNumberOfDate(d);
    FromDayNumberOfDate(e);
  }

  /** `weekday().number_days_from_sunday()`: 0000-01-01 was a Saturday. */
  function DaysFromSunday(d: Date): (w: nat)
    requires WellFormed(d)
    ensures w < 7
  {
    (DayNumber(d) + 6) % 7
  }

  /** The next day falls on the next weekday. */
  lemma WeekdayAdvances(d: Date)
    requires WellFormed(d)
    ensures DaysFromSunday(FromDayNumber(DayNumber(d) + 1)) == (DaysFromSunday(d) + 1) % 7
  {
    WeekdayOfNumber(DayNumber(d) + 1);
    Mod7Step(DayNumber(d) + 6);
  }

  /** The weekday of the date of day number `n`. */
  lemma WeekdayOfNumber(n: int)
    ensures DaysFromSunday(FromDayNumber(n)) == (n + 6) % 7
  {
  }

  lemma Mod7Step(k: int)
    ensures (k + 1) % 7 == (k % 7 + 1) % 7
  {
  }

  lemma EpochIsThursday()
    ensures DayNumber(Date(1970, 1, 1)) == UNIX_EPOCH_DAY
    ensures DaysFromSunday(Date(1970, 1, 1)) == 4
  {
    DaysBeforeYearIs(1970);
  }

  // ---------------------------------------------------------------------------
  // The `time` crate's Date operations, None where they fail

  /** `Date::from_calendar_date` */
  function FromCalendarDate(year: int, month: nat, day: nat): (r: Option<Date>)
    requires 1 <= month <= 12
    ensures r.Some? <==> Valid(Date(year, month, day))
    ensures r.Some? ==> r.value == Date(year, month, day)
  {
    if Valid(Date(year, month, day)) then Some(Date(year, month, day)) else None
  }

  /** `date + Duration::days(k)`, which panics outside the range. */
  function AddDays(d: Date, k: int): (r: Option<Date>)
    requires WellFormed(d)
    ensures r.Some? ==> Valid(r.value) && DayNumber(r.value) == DayNumber(d) + k
    ensures r.None? ==> !Valid(FromDayNumber(DayNumber(d) + k))
  {
    var e := FromDayNumber(DayNumber(d) + k);
    if Valid(e) then Some(e) else None
  }

  /** `Date::replace_day` */
  function ReplaceDay(d: Date, day: nat): (r: Option<Date>)
    requires 1 <= d.month <= 12
    ensures r.Some? <==> 1 <= day <= DaysInMonth(d.year, d.month)
    ensures r.Some? ==> r.value == d.(day := day)
  {
    if 1 <= day <= DaysInMonth(d.year, d.month) then Some(d.(day := day)) else None
  }

  /** `Date::previous_day`: None before the first representable day. */
  function PreviousDay(d: Date): (r: Option<Date>)
    requires WellFormed(d)
    ensures r.Some? ==> Valid(r.value) && DayNumber(r.value) == DayNumber(d) - 1
  {
    AddDays(d, -1)
  }

  /**
   * The month end as the widgets compute it, `None` where an `unwrap` or
   * the addition panics: the first of the month plus 31 days, moved back to
   * the first of that month, then one day earlier.
   */
  function MonthLastDay(year: int, month: nat): Option<Date>
    requires 1 <= month <= 12
  {
    match FromCalendarDate(year, month, 1)
    case None => None
    case Some(first) =>
      match AddDays(first, 31)
      case None => None
      case Some(later) =>
        match ReplaceDay(later, 1)
        case None => None
        case Some(start) => PreviousDay(start)
  }

  /** The first of the month after `month`. */
  function NextMonthStart(year: int, month: nat): (d: Date)
    requires 1 <= month <= 12
    ensures WellFormed(d)
  {
    if month == 12 then Date(year + 1, 1, 1) else Date(year, month + 1, 1)
  }

  lemma NextMonthStartNumber(year: int, month: nat)
    requires 1 <= month <= 12
    ensures DayNumber(NextMonthStart(year, month)) == DayNumber(Date(year, month, 1)) + DaysInMonth(year, month)
  {
    if month == 12 {
      MonthsFillYear(year);
      YearStep(year);
    }
  }

  /** `date + Duration::days(k)` where the result is a known representable date. */
  lemma AddDaysTo(d: Date, k: int, e: Date)
    requires WellFormed(d) && Valid(e) && DayNumber(e) == DayNumber(d) + k
    ensures AddDays(d, k) == Some(e)
  {
    DateOfNumber(DayNumber(d) + k, e);
  }

  /** The round trip read the other way: a date is the date of any number equal to its day number. */
  lemma DateOfNumber(n: int, e: Date)
    requires WellFormed(e) && DayNumber(e) == n
    ensures FromDayNumber(n) == e
  {
    FromDayNumberOfDate(e);
  }

  /** Day numbers within one month differ by the difference of the days. */
  lemma SameMonthNumber(d: Date, day: nat)
    requires WellFormed(d) && WellFormed(d.(day := day))
    ensures DayNumber(d.(day := day)) == DayNumber(d) + day - d.day
  {
  }

  /** The steps of `MonthLastDay` for a month whose next month is representable. */
  lemma MonthLastDaySteps(year: int, month: nat)
    requires 1 <= month <= 12 && MIN_YEAR <= year <= MAX_YEAR && !(year == MAX_YEAR && month == 12)
    ensures AddDays(Date(year, month, 1), 31) == Some(NextMonthStart(year, month).(day := 32 - DaysInMonth(year, month)))
    ensures PreviousDay(NextMonthStart(year, month)) == Some(Date(year, month, DaysInMonth(year, month)))
  {
    var first := Date(year, month, 1);
    var next := NextMonthStart(year, month);
    var len := DaysInMonth(year, month);
    NextMonthStartNumber(year, month);
    SameMonthNumber(next, 32 - len);
    AddDaysTo(first, 31, next.(day := 32 - len));
    SameMonthNumber(first, len);
    AddDaysTo(next, -1, first.(day := len));
  }

  /**
   * The computation yields the last day of the month for every month the
   * crate can represent, except December of the last year, where adding 31
   * days leaves the range and panics.
   */
  lemma MonthLastDayIsMonthEnd(year: int, month: nat)
    requires 1 <= month <= 12
    ensures MonthLastDay(year, month).Some? <==> MIN_YEAR <= year <= MAX_YEAR && !(year == MAX_YEAR && month == 12)
    ensures MonthLastDay(year, month).Some? ==> MonthLastDay(year, month).value == Date(year, month, DaysInMonth(year, month))
  {
    if !(MIN_YEAR <= year <= MAX_YEAR) {
      assert FromCalendarDate(year, month, 1) == None;
    } else if year == MAX_YEAR && month == 12 {
      LastMonthEndPanics(year);
    } else {
      MonthLastDayInRange(year, month);
    }
  }

  lemma MonthLastDayInRange(year: int, month: nat)
    requires 1 <= month <= 12 && MIN_YEAR <= year <= MAX_YEAR && !(year == MAX_YEAR && month == 12)
    ensures MonthLastDay(year, month) == Some(Date(year, month, DaysInMonth(year, month)))
  {
    var first := Date(year, month, 1);
    var next := NextMonthStart(year, month);
    var later := next.(day := 32 - DaysInMonth(year, month));
    assert FromCalendarDate(year, month, 1) == Some(first);
    MonthLastDaySteps(year, month);
    assert AddDays(first, 31) == Some(later);
    assert ReplaceDay(later, 1) == Some(next);
    assert PreviousDay(next) == Some(Date(year, month, DaysInMonth(year, month)));
  }

  lemma LastMonthEndPanics(year: int)
    requires year == MAX_YEAR
    ensures MonthLastDay(year, 12) == None
  {
    DecemberPlus31(year);
  }

  /** The first of December plus 31 days is the first of January of the next year, if that is representable. */
  lemma DecemberPlus31(y: int)
    ensures AddDays(Date(y, 12, 1), 31) == if y + 1 <= MAX_YEAR && MIN_YEAR <= y + 1 then Some(Date(y + 1, 1, 1)) else None
  {
    var later := Date(y + 1, 1, 1);
    NextMonthStartNumber(y, 12);
    assert NextMonthStart(y, 12) == later;
    DateOfNumber(DayNumber(Date(y, 12, 1)) + 31, later);
  }

  /** The months whose end `MonthLastDay` computes without panicking. */
  predicate MonthEndComputable(year: int, month: nat) {
    1 <= month <= 12 && MIN_YEAR <= year <= MAX_YEAR && !(year == MAX_YEAR && month == 12)
  }

  /**
   * The month-end computation of the widgets' constructors, for a month
   * where none of its `unwrap`s panics: it yields the last day of the month.
   */
  method MonthEnd(year: int, month: nat) returns (last: Date)
    requires MonthEndComputable(year, month)
    ensures last == Date(year, month, DaysInMonth(year, month))
  {
    MonthLastDayInRange(year, month);
    last := MonthLastDay(year, month).value;
  }

  /** Day `day` of a month falls `day - 1` weekdays after the first of the month. */
  lemma WeekdayInMonth(year: int, month: nat, day: nat)
    requires WellFormed(Date(year, month, day))
    ensures DaysFromSunday(Date(year, month, day)) == (DaysFromSunday(Date(year, month, 1)) + day - 1) % 7
  {
    var n := DayNumber(Date(year, month, 1));
    SameMonthNumber(Date(year, month, 1), day);
    assert DayNumber(Date(year, month, day)) + 6 == (n + 6) + (day - 1);
    ModAdd7(n + 6, day - 1);
  }

  lemma ModAdd7(a: int, b: int)
    ensures (a + b) % 7 == (a % 7 + b) % 7
  {
    var q := a / 7;
    assert a == 7 * q + a % 7;
    assert a + b == 7 * q + (a % 7 + b);
  }
}
