/**
 * The timer screen's task checklist and streak entry (TimerViews.swift):
 * the open tasks due in the next 14 days, the selection keys, toggling a
 * selection, and logging a finished focus session.
 */
module Checklist {
  import opened Dates
  import opened Text
  import opened Sequences
  import opened Records
  import opened Context
  import Timer

  // ---- the 14-day window ----

  /** The date a task is listed under, or `None` when it is not listed. */
  function ChecklistDate(t: TaskRecord, start: Instant, end: Instant): (r: Option<Instant>)
    ensures t.isCompleted ==> r.None?
    ensures r.Some? && t.occurs == "Repeating" ==> r.value == start
    ensures t.occurs != "Repeating" && r.Some? ==> r.value == StartOfDay(t.dueDate) && start <= r.value <= end
    ensures !t.isCompleted && t.occurs != "Repeating" ==> (r.Some? <==> start <= StartOfDay(t.dueDate) <= end)
  {
    if t.isCompleted then None
    else if t.occurs == "Repeating" then
      if t.startDate.Some? && t.endDate.Some? && t.startDate.value <= end && t.endDate.value >= start
      then Some(start) else None
    else
      var d := StartOfDay(t.dueDate);
      if d >= start && d <= end then Some(d) else None
  }

  datatype Keyed = Keyed(key: Instant, task: TaskRecord)

  function KeyOf(e: Keyed): int { e.key }
  function TaskOf(e: Keyed): TaskRecord { e.task }

  /** The `(key, task)` pairs the loop appends, in the order of `all`. */
  function Entries(all: seq<TaskRecord>, start: Instant, end: Instant): (r: seq<Keyed>)
    ensures |r| <= |all|
    ensures forall e :: e in r <==> e.task in all && ChecklistDate(e.task, start, end) == Some(e.key)
  {
    if all == [] then []
    else
      var init := all[..|all| - 1];
      var t := all[|all| - 1];
      var d := ChecklistDate(t, start, end);
      var prev := Entries(init, start, end);
      var r := prev + (if d.Some? then [Keyed(d.value, t)] else []);
      assert all == init + [t];
      assert forall x :: x in all <==> x in init || x == t;
      r
  }

  /** `upcomingTasks` as a value: the listed pairs sorted by key, then their tasks. */
  function UpcomingTasksOf(all: seq<TaskRecord>, now: Instant): (r: seq<TaskRecord>)
    ensures |r| == |Entries(all, StartOfDay(now), AddDays(StartOfDay(now), 14))| <= |all|
  {
    var start := StartOfDay(now);
    Map(SortBy(Entries(all, start, AddDays(start, 14)), KeyOf), TaskOf)
  }

  /** `TaskChecklist.upcomingTasks`: a loop over all tasks, then a sort on the key date. */
  method UpcomingTasks(ctx: ModelContext, now: Instant) returns (tasks: seq<TaskRecord>)
    ensures tasks == UpcomingTasksOf(ctx.tasks, now)
  {
    var all := ctx.tasks;
    var start := StartOfDay(now);
    var end := AddDays(start, 14);
    var result: seq<Keyed> := [];
    for i := 0 to |all|
      invariant result == Entries(all[..i], start, end)
    {
      var t := all[i];
      assert all[..i + 1][..i] == all[..i];
      if t.isCompleted {
        continue;
      }
      if t.occurs == "Repeating" {
        if t.startDate.Some? && t.endDate.Some? && t.startDate.value <= end && t.endDate.value >= start {
          result := result + [Keyed(start, t)];
        }
      } else {
        var d := StartOfDay(t.dueDate);
        if d >= start && d <= end {
          result := result + [Keyed(d, t)];
        }
      }
    }
    assert all[..|all|] == all;
    tasks := Map(SortBy(result, KeyOf), TaskOf);
  }

  /** Sorting and projecting keeps the listed tasks and orders them by key. */
  lemma SortedEntries(entries: seq<Keyed>)
    ensures var r := Map(SortBy(entries, KeyOf), TaskOf);
      && (forall t :: t in r <==> exists e :: e in entries && e.task == t)
      && (forall k :: 0 <= k < |r| ==> Keyed(SortBy(entries, KeyOf)[k].key, r[k]) in entries)
      && (forall i, j :: 0 <= i < j < |r| ==> SortBy(entries, KeyOf)[i].key <= SortBy(entries, KeyOf)[j].key)
  {
    var sorted := SortBy(entries, KeyOf);
    var r := Map(sorted, TaskOf);
    forall e | e in entries ensures e.task in r {
      assert e in multiset(sorted);
      var m :| 0 <= m < |sorted| && sorted[m] == e;
      assert r[m] == e.task;
    }
    forall k | 0 <= k < |r| ensures Keyed(sorted[k].key, r[k]) in entries {
      assert sorted[k] in multiset(entries);
    }
    forall i, j | 0 <= i < j < |r| ensures sorted[i].key <= sorted[j].key {
      assert KeyOf(sorted[i]) <= KeyOf(sorted[j]);
    }
  }

  /**
   * The checklist holds exactly the open tasks listed for the window
   * `[today, today + 14 days]` (repeating ones whose range meets it, one-time
   * ones whose due day lies in it, both ends included), and it is ordered by
   * the listing date, with repeating tasks listed at today.
   */
  lemma UpcomingTasksExact(all: seq<TaskRecord>, now: Instant)
    ensures var start := StartOfDay(now);
      var r := UpcomingTasksOf(all, now);
      && (forall k :: 0 <= k < |r| ==> !r[k].isCompleted && r[k] in all)
      && (forall t :: t in all ==> (t in r <==> ChecklistDate(t, start, AddDays(start, 14)).Some?))
      && (forall i, j :: 0 <= i < j < |r| ==>
            ChecklistDate(r[i], start, AddDays(start, 14)).value <= ChecklistDate(r[j], start, AddDays(start, 14)).value)
  {
    var start := StartOfDay(now);
    var end := AddDays(start, 14);
    var entries := Entries(all, start, end);
    var sorted := SortBy(entries, KeyOf);
    var r := UpcomingTasksOf(all, now);
    assert r == Map(sorted, TaskOf);
    SortedEntries(entries);
    forall k | 0 <= k < |r|
      ensures r[k] in all && ChecklistDate(r[k], start, end) == Some(sorted[k].key)
    {
      assert Keyed(sorted[k].key, r[k]) in entries;
    }
    forall t | t in all && ChecklistDate(t, start, end).Some?
      ensures t in r
    {
      var e := Keyed(ChecklistDate(t, start, end).value, t);
      assert e in entries && e.task == t;
    }
  }

  /** A completed task is never listed; a one-time task is listed by its due day, ends included. */
  lemma ChecklistWindow(t: TaskRecord, now: Instant)
    ensures var start := StartOfDay(now);
      && (t.isCompleted ==> ChecklistDate(t, start, AddDays(start, 14)).None?)
      && (!t.isCompleted && t.occurs != "Repeating" ==>
            (ChecklistDate(t, start, AddDays(start, 14)).Some? <==>
             DayNumber(now) <= DayNumber(t.dueDate) <= DayNumber(now) + 14))
  {
    var start := StartOfDay(now);
    var d := StartOfDay(t.dueDate);
    assert start == DayNumber(now) * MinutesPerDay;
    assert d == DayNumber(t.dueDate) * MinutesPerDay;
    assert AddDays(start, 14) == (DayNumber(now) + 14) * MinutesPerDay;
  }

  // ---- selection keys ----

  /** `"\(x)"` for a whole number of seconds held in a `Double`, such as "1728950400.0". */
  function SecondsString(t: Instant): (r: string)
    ensures forall k :: 0 <= k < |r| ==> r[k] != '|'
  {
    IntString(t * 60) + ".0"
  }

  /** `key(for:)`: title, due date and due time, separated by "|". */
  function Key(t: TaskRecord): (r: string)
    ensures |r| > |t.title| && r[..|t.title|] == t.title && r[|t.title|] == '|'
  {
    t.title + "|" + SecondsString(t.dueDate) + "|" + SecondsString(t.dueTime)
  }

  /** Two tasks share a selection key exactly when title, due date and due time agree. */
  lemma KeyIdentifies(a: TaskRecord, b: TaskRecord)
    ensures Key(a) == Key(b) <==>
      a.title == b.title && a.dueDate == b.dueDate && a.dueTime == b.dueTime
  {
    if Key(a) == Key(b) {
      var da, db := SecondsString(a.dueDate), SecondsString(b.dueDate);
      var ta, tb := SecondsString(a.dueTime), SecondsString(b.dueTime);
      assert (a.title + "|" + da) + "|" + ta == (b.title + "|" + db) + "|" + tb;
      SplitAtLastSeparator(a.title + "|" + da, ta, b.title + "|" + db, tb, '|');
      SplitAtLastSeparator(a.title, da, b.title, db, '|');
      assert IntString(a.dueDate * 60) == da[..|da| - 2];
      assert IntString(b.dueDate * 60) == db[..|db| - 2];
      IntStringInjective(a.dueDate * 60, b.dueDate * 60);
      assert IntString(a.dueTime * 60) == ta[..|ta| - 2];
      assert IntString(b.dueTime * 60) == tb[..|tb| - 2];
      IntStringInjective(a.dueTime * 60, b.dueTime * 60);
    }
  }

  /** The selection after `toggle`: the key is removed when present, added otherwise. */
  function Toggled(selected: set<string>, k: string): (r: set<string>)
    ensures k in r <==> k !in selected
    ensures forall other :: other != k ==> (other in r <==> other in selected)
  {
    if k in selected then selected - {k} else selected + {k}
  }

  /** Toggling the same task twice restores the selection. */
  lemma ToggleTwice(selected: set<string>, k: string)
    ensures Toggled(Toggled(selected, k), k) == selected
  {
  }

  /** `TaskChecklist.toggle(_:)` on the selection held by the timer's view model. */
  method ToggleSelection(vm: Timer.TimerViewModel, task: TaskRecord)
    modifies vm
    ensures vm.selectedTaskIds == Toggled(old(vm.selectedTaskIds), Key(task))
    ensures vm.State() == old(vm.State()) && vm.CurrentSettings() == old(vm.CurrentSettings())
    ensures vm.alertSoundEnabled == old(vm.alertSoundEnabled)
  {
    var k := Key(task);
    if k in vm.selectedTaskIds {
      vm.selectedTaskIds := vm.selectedTaskIds - {k};
    } else {
      vm.selectedTaskIds := vm.selectedTaskIds + {k};
    }
  }

  // ---- logging a focus session ----

  /** The record `addPomodoroToStreak` inserts. */
  function PomodoroRecord(focusMinutes: int, now: Instant): (r: StreakRecord)
    ensures r.date % MinutesPerDay == 0 && r.date <= now < r.date + MinutesPerDay
    ensures r.activityType == "pomodoro" && r.completedAt == now
  {
    StreakRecord(StartOfDay(now), "pomodoro", "Pomodoro Session",
      IntString(focusMinutes) + " minute focus session", now)
  }

  /** `TimerView.addPomodoroToStreak`: always appends, with no duplicate check. */
  method AddPomodoroToStreak(ctx: ModelContext, vm: Timer.TimerViewModel, now: Instant)
    modifies ctx
    ensures ctx.streaks == old(ctx.streaks) + [PomodoroRecord(vm.focusMinutes, now)]
    ensures ctx.tasks == old(ctx.tasks) && ctx.classes == old(ctx.classes)
    ensures ctx.exams == old(ctx.exams) && ctx.otherEvents == old(ctx.otherEvents)
  {
    var today := StartOfDay(now);
    var streakRecord := StreakRecord(today, "pomodoro", "Pomodoro Session",
      IntString(vm.focusMinutes) + " minute focus session", now);
    ctx.streaks := ctx.streaks + [streakRecord];
  }

  /** Two sessions on one day leave two records of the same activity on that day. */
  lemma PomodoroNotDeduplicated(streaks: seq<StreakRecord>, focusMinutes: int, now: Instant, later: Instant)
    requires SameDay(now, later)
    ensures var after := streaks + [PomodoroRecord(focusMinutes, now)] + [PomodoroRecord(focusMinutes, later)];
      && |after| == |streaks| + 2
      && after[|after| - 2].date == after[|after| - 1].date
      && after[|after| - 2].activityType == after[|after| - 1].activityType == "pomodoro"
  {
  }
}
