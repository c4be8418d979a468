/**
 * The compact month calendar widget (`Calender`): the same month layout as
 * `Calendar` at a fixed 16 by 12 pixel grid anchored at the screen origin,
 * with today's number outlined by a box instead of inverted. Colours and
 * fonts are not modelled.
 */
module Calender {
  import opened Wrappers
  import opened Geometry
  import opened Gregorian
  import opened RustStr

  const CELL_WIDTH: nat := 16
  const CELL_HEIGHT: nat := 12
  const WEEKDAY_HEADERS: seq<string> := ["日", "一", "二", "三", "四", "五", "六"]

  /** A text drawn with its top-left corner at `at`. */
  datatype TextAt = TextAt(text: string, at: Point)

  /** An outlined rectangle. */
  datatype Box = Box(at: Point, size: Size)

  /** Everything `draw` puts on the display. */
  datatype Drawing = Drawing(title: TextAt, headers: seq<TextAt>, days: seq<TextAt>, boxes: seq<Box>)

  function Title(first: Date): TextAt {
    TextAt(IntToString(first.year) + "-" + NatToString(first.month), Point(0, 0))
  }

  function Headers(): (hs: seq<TextAt>)
    ensures |hs| == 7
    ensures forall i :: 0 <= i < 7 ==> hs[i] == TextAt(WEEKDAY_HEADERS[i], Point(i * CELL_WIDTH, CELL_HEIGHT))
  {
    seq(7, i requires 0 <= i < 7 => TextAt(WEEKDAY_HEADERS[i], Point(i * CELL_WIDTH, CELL_HEIGHT)))
  }

  /** The number of day `i + 1` of a month starting in column `w`. */
  function DayText(w: nat, i: nat): TextAt {
    TextAt(NatToString(i + 1), WeekGridCell(w, i, CELL_WIDTH, CELL_HEIGHT))
  }

  /** The numbers of `n` days from column `w` on. */
  function DayTexts(w: nat, n: nat): (ts: seq<TextAt>)
    ensures |ts| == n
  {
    seq(n, i requires 0 <= i < n => DayText(w, i))
  }

  /** The day of the month shown that is today, if today lies in that month. */
  function TodayIn(first: Date, today: Date): Option<nat> {
    if first.year == today.year && first.month == today.month then Some(today.day) else None
  }

  /** The box around day `day`'s number, three pixels left and down of it. */
  function BoxAround(w: nat, day: nat): Box
    requires day >= 1
  {
    Box(Translate(DayText(w, day - 1).at, -3, 3), Size(CELL_WIDTH, CELL_HEIGHT))
  }

  /** The outline drawn around today, if today is among the first `n` days. */
  function BoxesUpTo(w: nat, today: Option<nat>, n: nat): (bs: seq<Box>)
    ensures |bs| <= 1
  {
    if today.Some? && 1 <= today.value <= n then [BoxAround(w, today.value)] else []
  }

  function Draw(first: Date, today: Date): Drawing
    requires WellFormed(first)
  {
    var w, n := DaysFromSunday(first), DaysInMonth(first.year, first.month);
    Drawing(Title(first), Headers(), DayTexts(w, n), BoxesUpTo(w, TodayIn(first, today), n))
  }

  /** The numbers 1 to the month's length, in order, each in its weekday's column. */
  lemma DaysInWeekdayColumns(first: Date, today: Date, i: nat)
    requires first.day == 1 && WellFormed(first) && i < DaysInMonth(first.year, first.month)
    ensures Draw(first, today).days[i].text == NatToString(i + 1)
    ensures Draw(first, today).days[i].at.x == DaysFromSunday(Date(first.year, first.month, i + 1)) * CELL_WIDTH
    ensures 2 * CELL_HEIGHT <= Draw(first, today).days[i].at.y <= 7 * CELL_HEIGHT
  {
    assert first == Date(first.year, first.month, 1);
    WeekdayInMonth(first.year, first.month, i + 1);
    TextsInColumns(DaysFromSunday(first), DaysInMonth(first.year, first.month), i);
  }

  /** Day `i + 1` of up to 31 days from column `w` on: its number, its column and a row below the headers. */
  lemma TextsInColumns(w: nat, n: nat, i: nat)
    requires w < 7 && i < n <= 31
    ensures DayTexts(w, n)[i].text == NatToString(i + 1)
    ensures DayTexts(w, n)[i].at.x == (w + i) % 7 * CELL_WIDTH
    ensures 2 * CELL_HEIGHT <= DayTexts(w, n)[i].at.y <= 7 * CELL_HEIGHT
  {
    assert DayTexts(w, n)[i] == DayText(w, i);
    assert (w + i) / 7 <= 5;
  }

  /** A box is drawn exactly when the month shown is today's, and then around today's number only. */
  lemma BoxOnlyAroundToday(first: Date, today: Date)
    requires WellFormed(first) && WellFormed(today)
    ensures |Draw(first, today).boxes| == 1 <==> first.year == today.year && first.month == today.month
    ensures forall b :: b in Draw(first, today).boxes ==>
      exists i :: 0 <= i < |Draw(first, today).days| && Draw(first, today).days[i].text == NatToString(today.day) &&
        b.at == Translate(Draw(first, today).days[i].at, -3, 3)
  {
    var d := Draw(first, today);
    if first.year == today.year && first.month == today.month {
      var w, i := DaysFromSunday(first), today.day - 1;
      assert d.days[i] == DayText(w, i);
      assert d.boxes == [BoxAround(w, today.day)];
    }
  }

  class Calender {
    var monthFirstDay: Date
    var monthLastDay: Date
    var today: Date

    predicate Valid()
      reads this
    {
      monthFirstDay.day == 1 && MonthEndComputable(monthFirstDay.year, monthFirstDay.month) &&
      monthLastDay == Date(monthFirstDay.year, monthFirstDay.month, DaysInMonth(monthFirstDay.year, monthFirstDay.month))
    }

    /** `Calender::new`; the `unwrap`s panic outside the computable months. */
    constructor (year: int, month: nat, today: Date)
      requires MonthEndComputable(year, month)
      ensures Valid()
      ensures monthFirstDay == Date(year, month, 1) && monthLastDay == Date(year, month, DaysInMonth(year, month)) && this.today == today
    {
      var last := MonthEnd(year, month);
      this.monthFirstDay := Date(year, month, 1);
      this.monthLastDay := last;
      this.today := today;
    }

    /** `set_date_of_month`: shows another month; today is kept. */
    method SetDateOfMonth(year: int, month: nat)
      requires MonthEndComputable(year, month)
      modifies this
      ensures Valid()
      ensures monthFirstDay == Date(year, month, 1) && monthLastDay == Date(year, month, DaysInMonth(year, month)) && today == old(today)
    {
      monthFirstDay := Date(year, month, 1);
      monthLastDay := MonthEnd(year, month);
    }

    /** `draw` */
    method Render() returns (d: Drawing)
      requires Valid()
      ensures d == Draw(monthFirstDay, today)
    {
      var year, month := monthFirstDay.year, monthFirstDay.month;
      var title := TextAt(IntToString(year) + "-" + NatToString(month), Point(0, 0));
      var headers := DrawHeaders();
      var last := MonthEnd(year, month);
      var sameMonth := year == today.year && month == today.month;
      var days, boxes := DrawDays(DaysFromSunday(monthFirstDay), last.day, if sameMonth then Some(today.day) else None);
      d := Drawing(title, headers, days, boxes);
    }
  }

  lemma BoxesStep(w: nat, today: Option<nat>, day: nat)
    requires day >= 1
    ensures BoxesUpTo(w, today, day) == BoxesUpTo(w, today, day - 1) + (if today == Some(day) then [BoxAround(w, day)] else [])
  {
  }

  /** The header loop of `draw`. */
  method DrawHeaders() returns (headers: seq<TextAt>)
    ensures headers == Headers()
  {
    headers := [];
    for i := 0 to 7
      invariant |headers| == i
      invariant forall j :: 0 <= j < i ==> headers[j] == TextAt(WEEKDAY_HEADERS[j], Point(j * CELL_WIDTH, CELL_HEIGHT))
    {
      headers := headers + [TextAt(WEEKDAY_HEADERS[i], Point(i * 16, 12))];
    }
  }

  /** The day loop of `draw`; `today` is today's day if the month shown is today's month. */
  method DrawDays(w: nat, last: nat, today: Option<nat>) returns (days: seq<TextAt>, boxes: seq<Box>)
    requires w < 7
    ensures days == DayTexts(w, last)
    ensures boxes == BoxesUpTo(w, today, last)
  {
    var x: int := w * 16;
    var y: int := 24;
    days, boxes := [], [];
    for day := 1 to last + 1
      invariant |days| == day - 1
      invariant forall j :: 0 <= j < day - 1 ==> days[j] == DayText(w, j)
      invariant boxes == BoxesUpTo(w, today, day - 1)
      invariant Point(x, y) == WeekGridCell(w, day - 1, CELL_WIDTH, CELL_HEIGHT)
    {
      assert TextAt(NatToString(day), Point(x, y)) == DayText(w, day - 1);
      days := days + [TextAt(NatToString(day), Point(x, y))];
      BoxesStep(w, today, day);
      if today == Some(day) {
        assert Box(Point(x - 3, y + 3), Size(16, 12)) == BoxAround(w, day);
        boxes := boxes + [Box(Point(x - 3, y + 3), Size(16, 12))];
      }
      x, y := NextCell(x, y);
      WalkReachesNextCell(w, day - 1, CELL_WIDTH, CELL_HEIGHT);
    }
  }

  /** One cell to the right, or the start of the next row after the seventh column. */
  method NextCell(x: int, y: int) returns (x': int, y': int)
    ensures Point(x', y') == WalkStep(Point(x, y), CELL_WIDTH, CELL_HEIGHT)
  {
    x', y' := x + 16, y;
    if x' >= 16 * 7 {
      x', y' := 0, y + 12;
    }
  }
}
