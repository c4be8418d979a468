/**
 * The month calendar widget (`Calendar`): a title "year-month", a row of
 * weekday headers and one framed cell per day of the month, laid out on a
 * seven-column grid that starts on Sunday. Today's cell is drawn inverted.
 * Drawing is modelled as the list of cells it draws; colours and fonts are
 * not modelled.
 */
module Calendar {
  import opened Wrappers
  import opened Geometry
  import opened Gregorian
  import opened RustStr

  const TITLE_HEIGHT: nat := 12
  const WEEKDAY_HEADERS: seq<string> := ["日", "一", "二", "三", "四", "五", "六"]

  /** A header: its text and the top-left corner of the grid cell it is centred in. */
  datatype Header = Header(text: string, at: Point)

  /**
   * A drawn day: the cell's top-left corner `at`, the frame drawn two pixels
   * higher and one pixel larger than the cell, the anchor of the day's
   * number, and whether the cell is filled for today.
   */
  datatype DayCell = DayCell(day: nat, text: string, at: Point, frameAt: Point, frameSize: Size, textAt: Point, highlighted: bool)

  function GridWidth(size: Size): nat {
    size.width / 7
  }

  /** Seven rows (headers and six weeks) below the title. */
  function GridHeight(size: Size): nat
    requires size.height >= TITLE_HEIGHT
  {
    (size.height - TITLE_HEIGHT) / 7
  }

  /** `format!("{}-{}", year, month as u8)` */
  function Title(first: Date): string {
    IntToString(first.year) + "-" + NatToString(first.month)
  }

  /** The title splits at '-' into the year and the month, for years from 0 on. */
  lemma TitleRoundTrip(first: Date)
    requires first.year >= 0
    ensures Split(Title(first), "-") == [NatToString(first.year), NatToString(first.month)]
    ensures DigitsValue(NatToString(first.year)) == first.year
    ensures DigitsValue(NatToString(first.month)) == first.month
  {
    var ps := [NatToString(first.year), NatToString(first.month)];
    assert Join(ps, "-") == Title(first) by {
      assert Join(ps[1..], "-") == NatToString(first.month) by {
        assert ps[1..][1..] == [];
      }
    }
    forall i | 0 <= i < |ps| ensures SeparatorFree(ps[i], "-") && !Contains(ps[i], "-") {
      NoLeadSeparatorFree(ps[i], "-");
      NoCharNotContains(ps[i], '-');
    }
    SplitJoin(ps, "-");
    DigitsValueOfNatToString(first.year);
    DigitsValueOfNatToString(first.month);
  }

  /** The headers, one grid cell apart, in the row below the title. */
  function Headers(position: Point, size: Size): (hs: seq<Header>)
    requires size.height >= TITLE_HEIGHT
    ensures |hs| == 7
    ensures forall i :: 0 <= i < 7 ==> hs[i].text == WEEKDAY_HEADERS[i]
    ensures forall i :: 0 <= i < 7 ==> hs[i].at == Translate(position, i * GridWidth(size), GridHeight(size))
  {
    seq(7, i requires 0 <= i < 7 => Header(WEEKDAY_HEADERS[i], Translate(position, i * GridWidth(size), GridHeight(size))))
  }

  /**
   * The cell of the day with index `i` (day `i + 1`) in a month whose first
   * day falls on weekday `w`; `today` is the day to highlight, if the month
   * shown is today's month.
   */
  function Cell(position: Point, size: Size, w: nat, today: Option<nat>, i: nat): DayCell
    requires size.height >= TITLE_HEIGHT
  {
    var gw, gh := GridWidth(size), GridHeight(size);
    var off := WeekGridCell(w, i, gw, gh);
    var at := Translate(position, off.x, off.y);
    DayCell(i + 1, NatToString(i + 1), at, Translate(at, 0, -2), Size(gw + 1, gh + 1), Translate(at, 8, gh / 2),
            today == Some(i + 1))
  }

  /** The cells of `n` days from weekday `w` on. */
  function Cells(position: Point, size: Size, w: nat, today: Option<nat>, n: nat): (cs: seq<DayCell>)
    requires size.height >= TITLE_HEIGHT
    ensures |cs| == n
  {
    seq(n, i requires 0 <= i < n => Cell(position, size, w, today, i))
  }

  /** The day of the month shown that is today, if today lies in that month. */
  function TodayIn(first: Date, today: Date): Option<nat> {
    if first.year == today.year && first.month == today.month then Some(today.day) else None
  }

  /** Every day of the month of `first`, in order. */
  function DayCells(position: Point, size: Size, first: Date, today: Date): (cs: seq<DayCell>)
    requires WellFormed(first) && size.height >= TITLE_HEIGHT
    ensures |cs| == DaysInMonth(first.year, first.month)
  {
    Cells(position, size, DaysFromSunday(first), TodayIn(first, today), DaysInMonth(first.year, first.month))
  }

  /** Each day of the month is drawn exactly once, in order, labelled with its number. */
  lemma EveryDayOnce(position: Point, size: Size, first: Date, today: Date)
    requires WellFormed(first) && size.height >= TITLE_HEIGHT
    ensures forall i :: 0 <= i < |DayCells(position, size, first, today)| ==>
      DayCells(position, size, first, today)[i].day == i + 1 &&
      DayCells(position, size, first, today)[i].text == NatToString(i + 1)
    ensures forall c :: c in DayCells(position, size, first, today) ==> 1 <= c.day <= DaysInMonth(first.year, first.month)
  {
  }

  /** A cell is highlighted exactly when the month shown is today's month and the cell is today. */
  lemma HighlightIffToday(position: Point, size: Size, first: Date, today: Date, i: nat)
    requires WellFormed(first) && size.height >= TITLE_HEIGHT && i < DaysInMonth(first.year, first.month)
    ensures DayCells(position, size, first, today)[i].highlighted <==>
      first.year == today.year && first.month == today.month && i + 1 == today.day
  {
  }

  /** With a grid of positive width, each day's column is its weekday. */
  lemma ColumnIsWeekday(position: Point, size: Size, first: Date, today: Date, i: nat)
    requires first.day == 1 && WellFormed(first) && size.height >= TITLE_HEIGHT
    requires i < DaysInMonth(first.year, first.month) && GridWidth(size) > 0
    ensures DayCells(position, size, first, today)[i].at.x - position.x ==
      DaysFromSunday(Date(first.year, first.month, i + 1)) * GridWidth(size)
  {
    var w := DaysFromSunday(first);
    assert first == Date(first.year, first.month, 1);
    WeekdayInMonth(first.year, first.month, i + 1);
    assert DayCells(position, size, first, today)[i] == Cell(position, size, w, TodayIn(first, today), i);
    assert Cell(position, size, w, TodayIn(first, today), i).at.x - position.x == ((w + i) % 7) * GridWidth(size);
  }

  /** A month needs at most six week rows, the ones left below the header. */
  lemma AtMostSixWeeks(position: Point, size: Size, first: Date, today: Date, i: nat)
    requires WellFormed(first) && size.height >= TITLE_HEIGHT
    requires i < DaysInMonth(first.year, first.month) && GridWidth(size) > 0
    ensures position.y + 2 * GridHeight(size) <= DayCells(position, size, first, today)[i].at.y <= position.y + 7 * GridHeight(size)
  {
    RowsWithin(position, size, DaysFromSunday(first), TodayIn(first, today), DaysInMonth(first.year, first.month), i);
  }

  /** Up to 31 days from any weekday on fill at most six rows. */
  lemma RowsWithin(position: Point, size: Size, w: nat, today: Option<nat>, n: nat, i: nat)
    requires size.height >= TITLE_HEIGHT && w < 7 && i < n <= 31 && GridWidth(size) > 0
    ensures position.y + 2 * GridHeight(size) <= Cells(position, size, w, today, n)[i].at.y <= position.y + 7 * GridHeight(size)
  {
    var gh := GridHeight(size);
    var row := (w + i) / 7;
    assert Cells(position, size, w, today, n)[i].at.y == position.y + (2 + row) * gh;
    MulMono(2, 2 + row, gh);
    MulMono(2 + row, 7, gh);
  }

  /** With a grid of positive size, no two days share a cell. */
  lemma CellsDistinct(position: Point, size: Size, first: Date, today: Date, i: nat, j: nat)
    requires WellFormed(first) && size.height >= TITLE_HEIGHT
    requires i < j < DaysInMonth(first.year, first.month) && GridWidth(size) > 0 && GridHeight(size) > 0
    ensures DayCells(position, size, first, today)[i].at != DayCells(position, size, first, today)[j].at
  {
    CellsApart(position, size, DaysFromSunday(first), TodayIn(first, today), DaysInMonth(first.year, first.month), i, j);
  }

  /** Distinct days from any weekday on lie in distinct grid cells. */
  lemma CellsApart(position: Point, size: Size, w: nat, today: Option<nat>, n: nat, i: nat, j: nat)
    requires size.height >= TITLE_HEIGHT && i < j < n && GridWidth(size) > 0 && GridHeight(size) > 0
    ensures Cells(position, size, w, today, n)[i].at != Cells(position, size, w, today, n)[j].at
  {
    var gw, gh := GridWidth(size), GridHeight(size);
    var ci, cj := Cells(position, size, w, today, n)[i], Cells(position, size, w, today, n)[j];
    if ci.at == cj.at {
      MulCancel((w + i) % 7, (w + j) % 7, gw);
      MulCancel(2 + (w + i) / 7, 2 + (w + j) / 7, gh);
    }
  }

  lemma MulCancel(a: nat, b: nat, m: nat)
    requires m > 0 && a * m == b * m
    ensures a == b
  {
    if a < b {
      MulStrict(a, b, m);
    } else if b < a {
      MulStrict(b, a, m);
    }
  }

  class Calendar {
    var position: Point
    var size: Size
    var monthFirstDay: Date
    var monthLastDay: Date
    var today: Date

    /** The month shown is a whole month whose end the `time` crate computes. */
    predicate Valid()
      reads this
    {
      monthFirstDay.day == 1 && MonthEndComputable(monthFirstDay.year, monthFirstDay.month) &&
      monthLastDay == Date(monthFirstDay.year, monthFirstDay.month, DaysInMonth(monthFirstDay.year, monthFirstDay.month))
    }

    /** `Calendar::new`; the `unwrap`s panic outside the computable months. */
    constructor (position: Point, size: Size, year: int, month: nat, today: Date)
      requires MonthEndComputable(year, month)
      ensures Valid()
      ensures this.position == position && this.size == size && this.today == today
      ensures monthFirstDay == Date(year, month, 1) && monthLastDay == Date(year, month, DaysInMonth(year, month))
    {
      var last := MonthEnd(year, month);
      this.position := position;
      this.size := size;
      this.monthFirstDay := Date(year, month, 1);
      this.monthLastDay := last;
      this.today := today;
    }

    /** `set_date_of_month`: shows another month; nothing else changes. */
    method SetDateOfMonth(year: int, month: nat)
      requires MonthEndComputable(year, month)
      modifies this
      ensures Valid()
      ensures monthFirstDay == Date(year, month, 1) && monthLastDay == Date(year, month, DaysInMonth(year, month))
      ensures position == old(position) && size == old(size) && today == old(today)
    {
      monthFirstDay := Date(year, month, 1);
      monthLastDay := MonthEnd(year, month);
    }

    /**
     * `draw`: the title, the headers and the day cells. The grid height
     * subtracts the title height from an unsigned height.
     */
    method Draw() returns (title: string, headers: seq<Header>, cells: seq<DayCell>)
      requires Valid() && size.height >= TITLE_HEIGHT
      ensures title == Title(monthFirstDay)
      ensures headers == Headers(position, size)
      ensures cells == DayCells(position, size, monthFirstDay, today)
    {
      var year, month := monthFirstDay.year, monthFirstDay.month;
      title := IntToString(year) + "-" + NatToString(month);
      headers := DrawHeaders(position, size);
      var last := MonthEnd(year, month);
      var sameMonth := year == today.year && month == today.month;
      cells := DrawDays(position, size, DaysFromSunday(monthFirstDay), if sameMonth then Some(today.day) else None, last.day);
    }
  }

  /** The header loop of `draw`. */
  method DrawHeaders(position: Point, size: Size) returns (headers: seq<Header>)
    requires size.height >= TITLE_HEIGHT
    ensures headers == Headers(position, size)
  {
    var gw := size.width / 7;
    var gh := (size.height - TITLE_HEIGHT) / 7;
    headers := [];
    for i := 0 to 7
      invariant |headers| == i
      invariant forall j :: 0 <= j < i ==> headers[j] == Header(WEEKDAY_HEADERS[j], Translate(position, j * gw, gh))
    {
      headers := headers + [Header(WEEKDAY_HEADERS[i], Translate(position, i * gw, gh))];
    }
  }

  /**
   * The day loop of `draw`: one cell per day, walking the grid one cell to
   * the right per day and wrapping at the seventh column.
   */
  method DrawDays(position: Point, size: Size, w: nat, today: Option<nat>, last: nat) returns (cells: seq<DayCell>)
    requires size.height >= TITLE_HEIGHT && w < 7
    ensures cells == Cells(position, size, w, today, last)
  {
    var gw := size.width / 7;
    var gh := (size.height - TITLE_HEIGHT) / 7;
    var x: int := w * gw;
    var y: int := gh + gh;
    cells := [];
    for day := 1 to last + 1
      invariant |cells| == day - 1
      invariant forall j :: 0 <= j < day - 1 ==> cells[j] == Cell(position, size, w, today, j)
      invariant Point(x, y) == WeekGridCell(w, day - 1, gw, gh)
    {
      var at := Translate(position, x, y);
      var cell := DayCell(day, NatToString(day), at, Translate(at, 0, -2), Size(gw + 1, gh + 1), Translate(at, 8, gh / 2),
                          today == Some(day));
      assert cell == Cell(position, size, w, today, day - 1);
      cells := cells + [cell];
      WalkReachesNextCell(w, day - 1, gw, gh);
      x := x + gw;
      if x >= gw * 7 {
        x := 0;
        y := y + gh;
      }
    }
  }
}
