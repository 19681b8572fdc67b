/**
 * The two seven-day list views: `EventListView.grouped` buckets events by
 * date and sorts each day on the start time, `TaskListView.grouped` buckets
 * tasks by due date and sorts each day on the due time.  Neither reads the
 * `repeating` field.
 */
module WeekLists {
  import opened Dates
  import opened Sequences
  import opened Items
  import opened Buckets

  function EventDate(e: EventItem): Instant { e.date }
  function EventStart(e: EventItem): int { e.startTime }
  function TaskDue(t: TaskItem): Instant { t.dueDate }
  function TaskDueTime(t: TaskItem): int { t.dueTime }

  /** `EventListView.grouped`. */
  function EventListGrouped(events: seq<EventItem>, now: Instant): (r: seq<Bucket<EventItem>>)
    ensures |r| == 7
    ensures forall k :: 0 <= k < 7 ==> r[k].date == AddDays(StartOfDay(now), k) && SortedBy(r[k].items, EventStart)
  {
    WeekBuckets(events, EventDate, EventStart, now)
  }

  /** `TaskListView.grouped`. */
  function TaskListGrouped(tasks: seq<TaskItem>, now: Instant): (r: seq<Bucket<TaskItem>>)
    ensures |r| == 7
    ensures forall k :: 0 <= k < 7 ==> r[k].date == AddDays(StartOfDay(now), k) && SortedBy(r[k].items, TaskDueTime)
  {
    WeekBuckets(tasks, TaskDue, TaskDueTime, now)
  }

  /**
   * Seven sections for today through today + 6, each sorted on the start
   * time; an event is in a section exactly when it falls on that day, so an
   * event outside `[today, today + 7 days)` is in none, and the sections
   * together hold each in-window event once.  A weekly event is shown on its
   * own date only.
   */
  lemma EventListExact(events: seq<EventItem>, now: Instant)
    ensures var r := EventListGrouped(events, now);
      var start := StartOfDay(now);
      && |r| == 7
      && (forall k :: 0 <= k < 7 ==> r[k].date == AddDays(start, k))
      && (forall k, i, j :: 0 <= k < 7 && 0 <= i < j < |r[k].items| ==>
            r[k].items[i].startTime <= r[k].items[j].startTime)
      && (forall k, e :: 0 <= k < 7 ==> (e in r[k].items <==> e in events && StartOfDay(e.date) == r[k].date))
      && (forall k, e :: 0 <= k < 7 && e in r[k].items && e.repeating == EveryWeek ==>
            StartOfDay(e.date) == AddDays(start, k))
      && SumSizes(r) == Count(events, InWindow(EventDate, start, AddDays(start, 7)))
  {
    var r := EventListGrouped(events, now);
    WeekBucketsPartition(events, EventDate, EventStart, now);
    forall k, i, j | 0 <= k < 7 && 0 <= i < j < |r[k].items|
      ensures r[k].items[i].startTime <= r[k].items[j].startTime
    {
      assert EventStart(r[k].items[i]) <= EventStart(r[k].items[j]);
    }
  }

  /**
   * Seven sections for today through today + 6, each sorted on the due
   * time; a task is in the section of its due day when that day lies in
   * `[today, today + 7 days)`, and in no other, weekly or not.
   */
  lemma TaskListExact(tasks: seq<TaskItem>, now: Instant)
    ensures var r := TaskListGrouped(tasks, now);
      var start := StartOfDay(now);
      && |r| == 7
      && (forall k :: 0 <= k < 7 ==> r[k].date == AddDays(start, k))
      && (forall k, i, j :: 0 <= k < 7 && 0 <= i < j < |r[k].items| ==>
            r[k].items[i].dueTime <= r[k].items[j].dueTime)
      && (forall k, t :: 0 <= k < 7 ==> (t in r[k].items <==> t in tasks && StartOfDay(t.dueDate) == r[k].date))
      && SumSizes(r) == Count(tasks, InWindow(TaskDue, start, AddDays(start, 7)))
  {
    var r := TaskListGrouped(tasks, now);
    WeekBucketsPartition(tasks, TaskDue, TaskDueTime, now);
    forall k, i, j | 0 <= k < 7 && 0 <= i < j < |r[k].items|
      ensures r[k].items[i].dueTime <= r[k].items[j].dueTime
    {
      assert TaskDueTime(r[k].items[i]) <= TaskDueTime(r[k].items[j]);
    }
  }

  /** A task due in the window shows in exactly one section; one due outside it shows in none. */
  lemma TaskInOneSection(tasks: seq<TaskItem>, now: Instant, t: TaskItem)
    requires t in tasks
    ensures var r := TaskListGrouped(tasks, now);
      var start := StartOfDay(now);
      && (start <= StartOfDay(t.dueDate) < AddDays(start, 7) ==>
            exists k :: 0 <= k < 7 && t in r[k].items && forall k' :: 0 <= k' < 7 && t in r[k'].items ==> k' == k)
      && (!(start <= StartOfDay(t.dueDate) < AddDays(start, 7)) ==> forall k :: 0 <= k < 7 ==> t !in r[k].items)
  {
    var r := TaskListGrouped(tasks, now);
    var start := StartOfDay(now);
    var d := StartOfDay(t.dueDate);
    if start <= d < AddDays(start, 7) {
      DayInWindow(start, d, 7);
      var k :| 0 <= k < 7 && d == AddDays(start, k);
      assert t in r[k].items;
    }
  }
}
