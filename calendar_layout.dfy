/**
 * The integer arithmetic of the calendar views (CalendarView.swift): the
 * day and week ranges, the hour labels of the day grid, the minutes into
 * the day, and the cell layout of the month grid.
 */
module CalendarLayout {
  import opened Dates
  import opened Text
  import opened SwiftInt
  import opened Items
  import opened CalendarModel

  // ---- ranges ----

  /** `dayInterval`: from the anchor's midnight to the next midnight. */
  function DayInterval(anchor: Instant): (r: Interval)
    ensures r.start == StartOfDay(anchor) && r.end - r.start == MinutesPerDay
    ensures r.start <= anchor < r.end
  {
    var start := StartOfDay(anchor);
    Interval(start, AddDays(start, 1))
  }

  /** A midnight `n` days after day 0 is day `n`. */
  lemma DayNumberOfMidnight(n: int)
    ensures DayNumber(n * MinutesPerDay) == n
  {
    StartOfDayOfMidnight(n * MinutesPerDay, n * MinutesPerDay);
  }

  /**
   * `weekInterval`: seven days from the start of the anchor's week, where
   * weeks begin on the locale's `firstWeekday` (1 is Sunday).
   */
  function WeekInterval(anchor: Instant, firstWeekday: int): (r: Interval)
    requires 1 <= firstWeekday <= 7
    ensures r.start % MinutesPerDay == 0 && r.end - r.start == 7 * MinutesPerDay
    ensures r.start <= anchor < r.start + 7 * MinutesPerDay
    ensures WeekdayNumber(r.start) == firstWeekday
  {
    var day := DayNumber(anchor);
    var back := (WeekdayNumber(anchor) - firstWeekday + 7) % 7;
    var start := (day - back) * MinutesPerDay;
    assert WeekdayNumber(start) == firstWeekday by {
      DayNumberOfMidnight(day - back);
      var q := (day + 4) / 7;
      assert day + 4 == 7 * q + (WeekdayNumber(anchor) - 1);
      if WeekdayNumber(anchor) >= firstWeekday {
        assert day - back + 4 == 7 * q + (firstWeekday - 1);
      } else {
        assert day - back + 4 == 7 * (q - 1) + (firstWeekday - 1);
      }
    }
    Interval(start, AddDays(start, 7))
  }

  /**
   * Because a `DateInterval` contains its end, the day view's range holds
   * the next midnight: with every toggle on, the sample interview dated the
   * day after the anchor shows in the anchor's day view, while the coffee
   * chat three days later does not.
   */
  lemma DayViewShowsNextDay(anchor: Instant)
    ensures var f := Filters(true, true, true, true, true, true);
      var events := EventSampleData(anchor);
      var shown := VisibleEventsOf(f, anchor, DayInterval(anchor));
      && events[2].date == AddDays(StartOfDay(anchor), 1)
      && events[2] in shown && events[3] !in shown
  {
    var start := StartOfDay(anchor);
    var events := EventSampleData(anchor);
    StartOfDayOfMidnight(AddDays(start, 1), events[2].date);
    StartOfDayOfMidnight(AddDays(start, 3), events[3].date);
  }

  // ---- the day grid ----

  /** `hourLabel(_:)`: a 12-hour clock label for an hour of the grid. */
  function HourLabel(hour: int): (r: string)
    ensures 0 <= hour ==>
      var h := hour % 24;
      && (h == 0 ==> r == "12 AM")
      && (1 <= h < 12 ==> r == NatString(h) + " AM")
      && (h == 12 ==> r == "12 PM")
      && (12 < h ==> r == NatString(h - 12) + " PM")
  {
    var h := SwiftRemainder(hour, 24);
    var ampm := if h < 12 then "AM" else "PM";
    var h12 := SwiftRemainder(h, 12);
    var shown := if h12 == 0 then 12 else h12;
    IntString(shown) + " " + ampm
  }

  /** The clock face hour of a grid row, 1 to 12. */
  function ClockHour(h: int): nat
  {
    if h % 12 == 0 then 12 else h % 12
  }

  lemma HourLabelOfRow(h: int)
    requires 0 <= h < 24
    ensures HourLabel(h) == NatString(ClockHour(h)) + (if h < 12 then " AM" else " PM")
  {
  }

  /** A number followed by a three-letter suffix can be read back. */
  lemma NumberWithSuffix(x: nat, y: nat, sx: string, sy: string)
    requires |sx| == 3 && |sy| == 3
    requires NatString(x) + sx == NatString(y) + sy
    ensures x == y && sx == sy
  {
    var lx, ly := NatString(x) + sx, NatString(y) + sy;
    assert lx[..|lx| - 3] == NatString(x);
    assert ly[..|ly| - 3] == NatString(y);
    assert lx[|lx| - 3..] == sx;
    assert ly[|ly| - 3..] == sy;
    NatStringRoundTrip(x);
    NatStringRoundTrip(y);
  }

  /** The 24 rows of the day grid carry 24 different labels. */
  lemma HourLabelsDistinct(a: int, b: int)
    requires 0 <= a < b < 24
    ensures HourLabel(a) != HourLabel(b)
  {
    var suffixA := if a < 12 then " AM" else " PM";
    var suffixB := if b < 12 then " AM" else " PM";
    HourLabelOfRow(a);
    HourLabelOfRow(b);
    if suffixA == suffixB {
      ClockHoursDiffer(a, b);
    }
    if HourLabel(a) == HourLabel(b) {
      NumberWithSuffix(ClockHour(a), ClockHour(b), suffixA, suffixB);
    }
  }

  /** Two rows in the same half of the day show different clock hours. */
  lemma ClockHoursDiffer(a: int, b: int)
    requires 0 <= a < b < 24 && (a < 12 <==> b < 12)
    ensures ClockHour(a) != ClockHour(b)
  {
  }

  /** The hour and minute components of an instant, as `dateComponents` may report them. */
  datatype HourMinute = HourMinute(hour: Option<int>, minute: Option<int>)

  function Components(now: Instant): HourMinute
  {
    HourMinute(Some(MinuteOfDay(now) / 60), Some(MinuteOfDay(now) % 60))
  }

  /** `minutesIntoDay()`: a missing component counts as 0. */
  function MinutesIntoDay(c: HourMinute): (r: int)
    ensures c.hour.Some? && c.minute.Some? && 0 <= c.hour.value < 24 && 0 <= c.minute.value < 60 ==>
      0 <= r < MinutesPerDay
    ensures c.hour.None? && c.minute.None? ==> r == 0
  {
    var hour := if c.hour.Some? then c.hour.value else 0;
    var minute := if c.minute.Some? then c.minute.value else 0;
    hour * 60 + minute
  }

  /** The minutes into the day are the minutes since the instant's midnight. */
  lemma MinutesIntoDayOfNow(now: Instant)
    ensures MinutesIntoDay(Components(now)) == MinuteOfDay(now) == now - StartOfDay(now)
  {
  }

  // ---- the month grid ----

  /** The Foundation weekday (1 is Sunday) of day `d` of a month whose day 1 falls on `firstWeekday`. */
  function MonthDayWeekday(firstWeekday: int, d: int): (r: int)
    requires 1 <= firstWeekday <= 7 && 1 <= d
    ensures 1 <= r <= 7
  {
    (firstWeekday - 1 + d - 1) % 7 + 1
  }

  /** The weekday of day `d` counts on from the weekday of the month's first day. */
  lemma MonthDayWeekdayIsWeekday(monthStart: Instant, d: int)
    requires 1 <= d
    ensures WeekdayNumber(AddDays(monthStart, d - 1)) == MonthDayWeekday(WeekdayNumber(monthStart), d)
  {
    StartOfDayAddDays(monthStart, d - 1);
    var day := DayNumber(monthStart);
    assert DayNumber(AddDays(monthStart, d - 1)) == day + d - 1 by {
      DayNumberOfMidnight(day + d - 1);
      assert StartOfDay(AddDays(monthStart, d - 1)) == (day + d - 1) * MinutesPerDay;
    }
    var q := (day + 4) / 7;
    assert day + 4 + d - 1 == 7 * q + (WeekdayNumber(monthStart) - 1 + d - 1);
  }

  /** The Foundation weekday that the header `M T W T F S S` puts over column `c`. */
  function HeaderWeekday(c: int): (r: int)
    requires 0 <= c < 7
    ensures 1 <= r <= 7
  {
    (c + 1) % 7 + 1
  }

  /** A month laid out in rows of seven cells after `leading` blank cells. */
  datatype MonthGrid = MonthGrid(leading: int, daysCount: int, rows: int)

  /** `Int(ceil(Double(total) / 7.0))` for a non-negative count. */
  function RowsFor(total: nat): (r: nat)
    ensures (r - 1) * 7 < total <= r * 7 || (total == 0 && r == 0)
  {
    (total + 6) / 7
  }

  /** The day number a cell shows when it lies in `1...daysCount`. */
  function CellDay(g: MonthGrid, r: int, c: int): int
  {
    r * 7 + c - g.leading + 1
  }

  predicate CellShowsDay(g: MonthGrid, r: int, c: int)
  {
    0 <= r < g.rows && 0 <= c < 7 && 1 <= CellDay(g, r, c) <= g.daysCount
  }

  /** `monthGrid` as written: `leading = (firstWeekday + 6) % 7`. */
  function MonthGridAsWritten(firstWeekday: int, daysCount: nat): (g: MonthGrid)
    requires 1 <= firstWeekday <= 7
    ensures 0 <= g.leading < 7 && g.leading == firstWeekday - 1
    ensures g.daysCount == daysCount
    ensures g.rows * 7 >= g.leading + daysCount
  {
    var leading := (firstWeekday + 6) % 7;
    MonthGrid(leading, daysCount, RowsFor(leading + daysCount))
  }

  /** The Monday-first layout the header calls for: `leading = (firstWeekday + 5) % 7`. */
  function MonthGridMondayFirst(firstWeekday: int, daysCount: nat): (g: MonthGrid)
    requires 1 <= firstWeekday <= 7
    ensures 0 <= g.leading < 7
    ensures g.leading == HeaderColumn(firstWeekday)
    ensures g.daysCount == daysCount
    ensures g.rows * 7 >= g.leading + daysCount
  {
    var leading := (firstWeekday + 5) % 7;
    MonthGrid(leading, daysCount, RowsFor(leading + daysCount))
  }

  /** The column the header puts a weekday in. */
  function HeaderColumn(weekday: int): (c: int)
    requires 1 <= weekday <= 7
    ensures 0 <= c < 7 && HeaderWeekday(c) == weekday
  {
    (weekday + 5) % 7
  }

  /**
   * With any number of leading blanks below seven and enough rows, every day
   * of the month shows in exactly one cell.
   */
  lemma EveryDayInOneCell(g: MonthGrid, d: int)
    requires 0 <= g.leading < 7 && g.rows * 7 >= g.leading + g.daysCount
    requires 1 <= d <= g.daysCount
    ensures var r := (d - 1 + g.leading) / 7;
      var c := (d - 1 + g.leading) % 7;
      && CellShowsDay(g, r, c) && CellDay(g, r, c) == d
      && (forall r', c' :: CellShowsDay(g, r', c') && CellDay(g, r', c') == d ==> r' == r && c' == c)
  {
    var r := (d - 1 + g.leading) / 7;
    var c := (d - 1 + g.leading) % 7;
    assert r * 7 + c == d - 1 + g.leading;
    forall r', c' | CellShowsDay(g, r', c') && CellDay(g, r', c') == d
      ensures r' == r && c' == c
    {
      assert r' * 7 + c' == r * 7 + c;
    }
  }

  /**
   * As written, the header is one weekday ahead of every day shown: the
   * column of each day is labelled with the weekday after the day's own.
   * For a month starting on a Sunday, day 1 sits under "M".
   */
  lemma MonthGridHeaderMismatch(firstWeekday: int, daysCount: nat, r: int, c: int)
    requires 1 <= firstWeekday <= 7
    requires CellShowsDay(MonthGridAsWritten(firstWeekday, daysCount), r, c)
    ensures var d := CellDay(MonthGridAsWritten(firstWeekday, daysCount), r, c);
      HeaderWeekday(c) == MonthDayWeekday(firstWeekday, d) % 7 + 1
      && HeaderWeekday(c) != MonthDayWeekday(firstWeekday, d)
  {
    var d := CellDay(MonthGridAsWritten(firstWeekday, daysCount), r, c);
    assert firstWeekday - 1 + d - 1 == r * 7 + c;
  }

  /** With the Monday-first offset every day sits under its own weekday. */
  lemma MonthGridHeaderAgrees(firstWeekday: int, daysCount: nat, r: int, c: int)
    requires 1 <= firstWeekday <= 7
    requires CellShowsDay(MonthGridMondayFirst(firstWeekday, daysCount), r, c)
    ensures HeaderWeekday(c) == MonthDayWeekday(firstWeekday, CellDay(MonthGridMondayFirst(firstWeekday, daysCount), r, c))
  {
    var g := MonthGridMondayFirst(firstWeekday, daysCount);
    var d := CellDay(g, r, c);
    assert d - 1 == r * 7 + c - g.leading;
  }
}
