/**
 * The streak screen (StreakView.swift): the current streak of consecutive
 * active days, whether today is active, the recent-activity list and the
 * activity labels.
 *
 * Days are day numbers (`DayNumber`); the start of a day and its number
 * determine each other, so comparing start-of-day dates with
 * `isDate(_:inSameDayAs:)` is comparing day numbers.
 */
module Streak {
  import opened Dates
  import opened Sequences
  import opened Records
  import Context

  /** The day of one record. */
  function DayOf(r: StreakRecord): int
  {
    DayNumber(r.date)
  }

  /** The distinct days that hold at least one record. */
  function ActiveDays(records: seq<StreakRecord>): (days: set<int>)
    ensures forall r :: r in records ==> DayOf(r) in days
    ensures forall d :: d in days ==> exists r :: r in records && DayOf(r) == d
  {
    set r | r in records :: DayOf(r)
  }

  predicate StrictlyDescending(xs: seq<int>)
  {
    forall i, j :: 0 <= i < j < |xs| ==> xs[i] > xs[j]
  }

  /** Adds `x` to a strictly descending list unless it is already there. */
  function InsertDescending(x: int, xs: seq<int>): (r: seq<int>)
    requires StrictlyDescending(xs)
    ensures StrictlyDescending(r)
    ensures forall d :: d in r <==> d == x || d in xs
    ensures 1 <= |r| <= |xs| + 1
    ensures xs != [] ==> r[0] == if x > xs[0] then x else xs[0]
  {
    if xs == [] then [x]
    else if x > xs[0] then [x] + xs
    else if x == xs[0] then xs
    else
      var t := InsertDescending(x, xs[1..]);
      assert forall d :: d in xs <==> d == xs[0] || d in xs[1..] by {
        assert xs == [xs[0]] + xs[1..];
      }
      [xs[0]] + t
  }

  /** `Set(days).sorted(by: >)`. */
  function DescendingDistinct(days: seq<int>): (r: seq<int>)
    ensures StrictlyDescending(r)
    ensures forall d :: d in r <==> d in days
    ensures |r| <= |days|
  {
    if days == [] then []
    else
      var r := InsertDescending(days[|days| - 1], DescendingDistinct(days[..|days| - 1]));
      assert forall d :: d in days <==> d == days[|days| - 1] || d in days[..|days| - 1] by {
        assert days == days[..|days| - 1] + [days[|days| - 1]];
      }
      r
  }

  /** `uniqueDates` of `currentStreak`: the active days, latest first. */
  function UniqueDates(records: seq<StreakRecord>): (r: seq<int>)
    ensures StrictlyDescending(r)
    ensures forall d :: d in r <==> d in ActiveDays(records)
  {
    var days := Map(records, DayOf);
    assert forall d :: d in days <==> d in ActiveDays(records) by {
      forall d | d in ActiveDays(records) ensures d in days {
        var r :| r in records && DayOf(r) == d;
        var k :| 0 <= k < |records| && records[k] == r;
        assert days[k] == d;
      }
    }
    DescendingDistinct(days)
  }

  /** The day `k` days before `today`. */
  function DaysBack(today: int, k: int): int
  {
    today - k
  }

  /**
   * What `currentStreak` means: 0 when some active day lies after today;
   * otherwise the `n` days ending today are all active and the day before
   * them is not.
   */
  ghost predicate IsStreakOf(active: set<int>, today: int, n: nat)
    ensures IsStreakOf(active, today, n) && n > 0 ==>
      today in active && forall d :: d in active ==> d <= today
  {
    if exists d :: d in active && d > today then n == 0
    else
      var run := forall k :: 0 <= k < n ==> DaysBack(today, k) in active;
      assert run && n > 0 ==> DaysBack(today, 0) in active;
      run && DaysBack(today, n) !in active
  }

  /** `currentStreak`: walks the active days latest first while they are consecutive from today. */
  method CurrentStreak(ctx: Context.ModelContext, now: Instant) returns (streak: nat)
    ensures IsStreakOf(ActiveDays(ctx.streaks), DayNumber(now), streak)
  {
    var today := DayNumber(now);
    streak := 0;
    var currentDate := today;
    var uniqueDates := UniqueDates(ctx.streaks);
    ghost var active := ActiveDays(ctx.streaks);
    var i := 0;
    while i < |uniqueDates|
      invariant 0 <= i <= |uniqueDates|
      invariant streak == i && currentDate == DaysBack(today, i)
      invariant forall k :: 0 <= k < i ==> uniqueDates[k] == DaysBack(today, k)
    {
      if uniqueDates[i] == currentDate {
        streak := streak + 1;
        currentDate := currentDate - 1;
        i := i + 1;
      } else {
        break;
      }
    }
    StreakScan(uniqueDates, active, today, i);
  }

  /** Where the backward scan stops is the streak of the scanned days. */
  lemma StreakScan(uniqueDates: seq<int>, active: set<int>, today: int, i: nat)
    requires StrictlyDescending(uniqueDates)
    requires forall d :: d in uniqueDates <==> d in active
    requires i <= |uniqueDates|
    requires forall k :: 0 <= k < i ==> uniqueDates[k] == DaysBack(today, k)
    requires i == |uniqueDates| || uniqueDates[i] != DaysBack(today, i)
    ensures IsStreakOf(active, today, i)
  {
    if exists d :: d in active && d > today {
      var d :| d in active && d > today;
      var j :| 0 <= j < |uniqueDates| && uniqueDates[j] == d;
      assert uniqueDates[0] >= d;
    } else {
      forall j | i <= j < |uniqueDates|
        ensures uniqueDates[j] < DaysBack(today, i)
      {
        if i == 0 {
          assert uniqueDates[0] in active;
        } else {
          assert uniqueDates[i - 1] == DaysBack(today, i - 1);
        }
        assert uniqueDates[i] < DaysBack(today, i);
        assert uniqueDates[j] <= uniqueDates[i];
      }
      forall k | 0 <= k < i
        ensures DaysBack(today, k) in active
      {
        assert uniqueDates[k] in uniqueDates;
      }
    }
  }

  /** A set of active days determines the streak. */
  lemma StreakUnique(active: set<int>, today: int, n: nat, m: nat)
    requires IsStreakOf(active, today, n) && IsStreakOf(active, today, m)
    ensures n == m
  {
  }

  /** The `n` consecutive days ending at `today`. */
  function RunDays(today: int, n: nat): (r: set<int>)
    ensures |r| == n
    ensures forall d :: d in r <==> today - n < d <= today
  {
    if n == 0 then {}
    else
      var s := RunDays(today, n - 1);
      assert DaysBack(today, n - 1) !in s;
      s + {DaysBack(today, n - 1)}
  }

  /** A streak never exceeds the number of distinct active days. */
  lemma StreakBounded(active: set<int>, today: int, n: nat)
    requires IsStreakOf(active, today, n)
    ensures n <= |active|
  {
    if n > 0 {
      var run := RunDays(today, n);
      assert forall d :: d in run ==> d in active by {
        forall d | d in run ensures d in active {
          assert d == DaysBack(today, today - d);
        }
      }
      assert run <= active;
      assert |run| <= |active| by {
        assert active == run + (active - run);
      }
    }
  }

  /** A record on a day that already holds one does not change the active days. */
  lemma SameDayRecordKeepsActiveDays(records: seq<StreakRecord>, extra: StreakRecord)
    requires exists r :: r in records && SameDay(r.date, extra.date)
    ensures ActiveDays(records + [extra]) == ActiveDays(records)
  {
    var r :| r in records && SameDay(r.date, extra.date);
    assert DayOf(r) == DayOf(extra) by {
      assert StartOfDay(r.date) == DayOf(r) * MinutesPerDay;
      assert StartOfDay(extra.date) == DayOf(extra) * MinutesPerDay;
    }
  }

  /** `hasActivityToday`. */
  function HasActivityToday(records: seq<StreakRecord>, now: Instant): (r: bool)
    ensures r <==> DayNumber(now) in ActiveDays(records)
  {
    var today := StartOfDay(now);
    var found := exists k :: 0 <= k < |records| && SameDay(records[k].date, today);
    assert found <==> DayNumber(now) in ActiveDays(records) by {
      StartOfDayOfMidnight(today, today);
      if found {
        var k :| 0 <= k < |records| && SameDay(records[k].date, today);
        assert DayOf(records[k]) in ActiveDays(records);
        DayNumberMonotone(records[k].date, now);
        DayNumberMonotone(now, records[k].date);
      } else {
        forall r | r in records ensures DayOf(r) != DayNumber(now) {
          var k :| 0 <= k < |records| && records[k] == r;
          assert !SameDay(r.date, today);
        }
      }
    }
    found
  }

  /**
   * With no record dated after today, the streak is positive exactly when
   * today is active; any later record makes it 0.
   */
  lemma StreakPositiveIffActiveToday(records: seq<StreakRecord>, now: Instant, n: nat)
    requires IsStreakOf(ActiveDays(records), DayNumber(now), n)
    ensures (forall r :: r in records ==> DayOf(r) <= DayNumber(now)) ==>
      (n > 0 <==> HasActivityToday(records, now))
    ensures (exists r :: r in records && DayOf(r) > DayNumber(now)) ==> n == 0
  {
    var active := ActiveDays(records);
    var today := DayNumber(now);
    if forall r :: r in records ==> DayOf(r) <= today {
      assert !(exists d :: d in active && d > today);
      assert DaysBack(today, 0) == today;
    }
    if exists r :: r in records && DayOf(r) > today {
      var r :| r in records && DayOf(r) > today;
      assert DayOf(r) in active;
    }
  }

  /** One more active day right before a streak's run extends it by one. */
  lemma StreakExtends(active: set<int>, today: int, n: nat)
    requires IsStreakOf(active, today, n)
    requires forall d :: d in active ==> d <= today
    ensures IsStreakOf(active + {DaysBack(today, n)}, today, n + 1) || DaysBack(today, n + 1) in active
  {
  }

  // ---- recent activity ----

  function OnOrAfter(cutoff: Instant): StreakRecord -> bool
  {
    (r: StreakRecord) => r.date >= cutoff
  }

  function NegCompletedAt(r: StreakRecord): int
  {
    -r.completedAt
  }

  /** `recentActivities`: records dated from 14 days before today's start, latest completion first. */
  function RecentActivities(records: seq<StreakRecord>, now: Instant): (r: seq<StreakRecord>)
    ensures multiset(r) == multiset(Filter(records, OnOrAfter(AddDays(StartOfDay(now), -14))))
    ensures SortedBy(r, NegCompletedAt)
  {
    SortBy(Filter(records, OnOrAfter(AddDays(StartOfDay(now), -14))), NegCompletedAt)
  }

  /** The recent list is exactly the records from the cutoff on, latest completion first. */
  lemma RecentActivitiesExact(records: seq<StreakRecord>, now: Instant)
    ensures var r := RecentActivities(records, now);
      && (forall x :: x in r <==> x in records && x.date >= AddDays(StartOfDay(now), -14))
      && (forall i, j :: 0 <= i < j < |r| ==> r[i].completedAt >= r[j].completedAt)
  {
    var cutoff := AddDays(StartOfDay(now), -14);
    var kept := Filter(records, OnOrAfter(cutoff));
    var r := RecentActivities(records, now);
    forall x ensures x in r <==> x in records && x.date >= cutoff {
      assert x in r <==> x in multiset(r);
      assert x in kept <==> x in multiset(kept);
      if x in records && x.date >= cutoff {
        var k :| 0 <= k < |records| && records[k] == x;
      }
      if x in kept {
        var k :| 0 <= k < |kept| && kept[k] == x;
      }
    }
    forall i, j | 0 <= i < j < |r| ensures r[i].completedAt >= r[j].completedAt {
      assert NegCompletedAt(r[i]) <= NegCompletedAt(r[j]);
    }
  }

  /** `ActivityRow.activityTypeLabel`. */
  function ActivityTypeLabel(activityType: string): (r: string)
    ensures activityType == "task" <==> r == "Task"
    ensures activityType == "exam" <==> r == "Exam"
    ensures activityType == "pomodoro" <==> r == "Study"
    ensures r == "Activity" <==> activityType !in {"task", "exam", "pomodoro"}
  {
    match activityType
    case "task" => "Task"
    case "exam" => "Exam"
    case "pomodoro" => "Study"
    case _ => "Activity"
  }
}
