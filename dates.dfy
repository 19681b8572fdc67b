/**
 * Local wall-clock time as the planner uses it.  Foundation's `Date` is
 * modelled as an integer number of minutes since 1970-01-01 00:00 local
 * time (a Thursday); there are no time zones and no daylight-saving jumps,
 * so every day is exactly 1440 minutes long.
 */
module Dates {

  datatype Option<+T> = None | Some(value: T)

  type Instant = int

  const MinutesPerDay: int := 1440

  /** `Calendar.startOfDay(for:)`: the midnight that begins the day holding `t`. */
  function StartOfDay(t: Instant): (r: Instant)
    ensures r <= t < r + MinutesPerDay
    ensures r % MinutesPerDay == 0
  {
    t - t % MinutesPerDay
  }

  /** The day number of `t` (day 0 is 1970-01-01). */
  function DayNumber(t: Instant): (r: int)
    ensures StartOfDay(t) == r * MinutesPerDay
  {
    t / MinutesPerDay
  }

  /** `Calendar.date(byAdding: .day, value: n, to: t)`. */
  function AddDays(t: Instant, n: int): Instant
  {
    t + n * MinutesPerDay
  }

  /** `Calendar.date(bySettingHour: hour, minute: minute, second: 0, of: t)`. */
  function SettingTime(t: Instant, hour: int, minute: int): (r: Instant)
    requires 0 <= hour < 24 && 0 <= minute < 60
    ensures StartOfDay(r) == StartOfDay(t)
    ensures r - StartOfDay(t) == hour * 60 + minute
  {
    StartOfDayOfMidnight(StartOfDay(t), StartOfDay(t) + hour * 60 + minute);
    StartOfDay(t) + hour * 60 + minute
  }

  /** `Calendar.isDate(_:inSameDayAs:)`. */
  predicate SameDay(a: Instant, b: Instant)
  {
    StartOfDay(a) == StartOfDay(b)
  }

  /** The minutes elapsed since the start of the day holding `t`. */
  function MinuteOfDay(t: Instant): (r: int)
    ensures 0 <= r < MinutesPerDay
    ensures StartOfDay(t) + r == t
  {
    t % MinutesPerDay
  }

  /** `Calendar.component(.weekday, from:)`: 1 is Sunday, ..., 7 is Saturday. */
  function WeekdayNumber(t: Instant): (r: int)
    ensures 1 <= r <= 7
  {
    (DayNumber(t) + 4) % 7 + 1
  }

  const WeekdayAbbreviations: seq<string> := ["Sun", "Mon", "Tue", "Wed", "Thu", "Fri", "Sat"]

  /** The "EEE" rendering of `t` in an English locale. */
  function WeekdayAbbreviation(t: Instant): string
  {
    WeekdayAbbreviations[WeekdayNumber(t) - 1]
  }

  /** A midnight is the start of its own day, and of every instant in that day. */
  lemma StartOfDayOfMidnight(m: Instant, t: Instant)
    requires m % MinutesPerDay == 0
    requires m <= t < m + MinutesPerDay
    ensures StartOfDay(t) == m
  {
    var k := m / MinutesPerDay;
    assert m == k * MinutesPerDay;
    assert t - k * MinutesPerDay < MinutesPerDay;
    assert t / MinutesPerDay == k;
  }

  /** The start of the day of `t` is `m` exactly when `m` is a midnight at most a day before `t`. */
  lemma StartOfDayIff(t: Instant, m: Instant)
    ensures StartOfDay(t) == m <==> m % MinutesPerDay == 0 && m <= t < m + MinutesPerDay
  {
    if m % MinutesPerDay == 0 && m <= t < m + MinutesPerDay {
      StartOfDayOfMidnight(m, t);
    }
  }

  /** Shifting by whole days commutes with taking the start of the day. */
  lemma StartOfDayAddDays(t: Instant, n: int)
    ensures StartOfDay(AddDays(t, n)) == AddDays(StartOfDay(t), n)
  {
    var m := AddDays(StartOfDay(t), n);
    assert m % MinutesPerDay == 0 by {
      assert m == (DayNumber(t) + n) * MinutesPerDay;
    }
    StartOfDayOfMidnight(m, AddDays(t, n));
  }

  /** Day numbers order instants at day granularity. */
  lemma DayNumberMonotone(a: Instant, b: Instant)
    requires StartOfDay(a) <= StartOfDay(b)
    ensures DayNumber(a) <= DayNumber(b)
  {
  }
}
