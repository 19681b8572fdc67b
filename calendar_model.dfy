/**
 * The calendar screen's state (CalendarViewModel.swift): the display mode,
 * the anchor date moved by `previous`, `next` and `goToday`, and the type
 * toggles that filter the sample events and tasks shown for a range.
 */
module CalendarModel {
  import opened Dates
  import opened Sequences
  import opened Items

  datatype CalendarMode = Day | Week | Month

  /** A `DateInterval`; `contains` holds at both ends. */
  datatype Interval = Interval(start: Instant, end: Instant)

  predicate InInterval(range: Interval, d: Instant)
  {
    range.start <= d <= range.end
  }

  /**
   * The anchor after one step forward or back. Days and weeks are whole
   * numbers of days; `addMonths` stands for `Calendar.date(byAdding: .month, …)`,
   * whose `nil` leaves the anchor where it was.
   */
  function Shifted(mode: CalendarMode, anchor: Instant, forward: bool,
                   addMonths: (Instant, int) -> Option<Instant>): (r: Instant)
    ensures mode == Day ==> r - anchor == (if forward then MinutesPerDay else -MinutesPerDay)
    ensures mode == Week ==> r - anchor == (if forward then 7 * MinutesPerDay else -7 * MinutesPerDay)
    ensures mode != Month ==> MinuteOfDay(r) == MinuteOfDay(anchor)
    ensures mode == Month ==> r == anchor || addMonths(anchor, if forward then 1 else -1) == Some(r)
  {
    var step := if forward then 1 else -1;
    var r := match mode
      case Day => AddDays(anchor, step)
      case Week => AddDays(anchor, 7 * step)
      case Month =>
        var m := addMonths(anchor, step);
        if m.Some? then m.value else anchor;
    assert mode != Month ==> MinuteOfDay(r) == MinuteOfDay(anchor) by {
      if mode != Month {
        StartOfDayAddDays(anchor, if mode == Day then step else 7 * step);
      }
    }
    r
  }

  /** In day and week mode a step back undoes a step forward, and the other way round. */
  lemma StepsUndo(mode: CalendarMode, anchor: Instant, addMonths: (Instant, int) -> Option<Instant>)
    requires mode != Month
    ensures Shifted(mode, Shifted(mode, anchor, true, addMonths), false, addMonths) == anchor
    ensures Shifted(mode, Shifted(mode, anchor, false, addMonths), true, addMonths) == anchor
  {
  }

  /** The six type toggles of the side menu. */
  datatype Filters = Filters(
    showTasks: bool,
    showClasses: bool,
    showExams: bool,
    showHolidays: bool,
    showInterviews: bool,
    showCoffeeChats: bool)

  /** Which toggle governs an event type; campus events follow the holiday toggle. */
  function TypeShown(f: Filters, t: EventType): (r: bool)
    ensures f.showClasses && f.showExams && f.showHolidays && f.showInterviews && f.showCoffeeChats ==> r
    ensures !f.showClasses && !f.showExams && !f.showHolidays && !f.showInterviews && !f.showCoffeeChats ==> !r
    ensures t == CampusEvent || t == Holiday ==> (r <==> f.showHolidays)
  {
    match t
    case ClassSession => f.showClasses
    case Interview => f.showInterviews
    case CoffeeChat => f.showCoffeeChats
    case CampusEvent => f.showHolidays
    case Exam => f.showExams
    case Holiday => f.showHolidays
  }

  function EventShown(f: Filters, range: Interval): EventItem -> bool
  {
    (e: EventItem) => TypeShown(f, e.eventType) && InInterval(range, StartOfDay(e.date))
  }

  function DueIn(range: Interval): TaskItem -> bool
  {
    (t: TaskItem) => InInterval(range, StartOfDay(t.dueDate))
  }

  /** `visibleEvents(in:)` over the sample events for the anchor. */
  function VisibleEventsOf(f: Filters, anchor: Instant, range: Interval): (r: seq<EventItem>)
    ensures |r| <= |EventSampleData(anchor)|
    ensures forall e :: e in r <==>
      e in EventSampleData(anchor) && TypeShown(f, e.eventType) && InInterval(range, StartOfDay(e.date))
    ensures exists idx :: InOrderAt(r, EventSampleData(anchor), idx)
  {
    var events := EventSampleData(anchor);
    var r := Filter(events, EventShown(f, range));
    assert forall e :: e in events ==> exists k :: 0 <= k < |events| && events[k] == e;
    assert InOrderAt(r, events, FilterIndices(events, EventShown(f, range)));
    r
  }

  /** `visibleTasks(in:)` over the sample tasks for the anchor. */
  function VisibleTasksOf(f: Filters, anchor: Instant, range: Interval): (r: seq<TaskItem>)
    ensures |r| <= |TaskSampleData(anchor)|
    ensures !f.showTasks ==> r == []
    ensures f.showTasks ==> forall t :: t in r <==>
      t in TaskSampleData(anchor) && InInterval(range, StartOfDay(t.dueDate))
    ensures exists idx :: InOrderAt(r, TaskSampleData(anchor), idx)
  {
    var tasks := TaskSampleData(anchor);
    if !f.showTasks then
      assert InOrderAt([], tasks, []);
      []
    else
      assert forall t :: t in tasks ==> exists k :: 0 <= k < |tasks| && tasks[k] == t;
      assert InOrderAt(Filter(tasks, DueIn(range)), tasks, FilterIndices(tasks, DueIn(range)));
      Filter(tasks, DueIn(range))
  }

  /** `CalendarViewModel`: the mode, the anchor and the toggles, all initially on. */
  class CalendarViewModel {
    var mode: CalendarMode
    var anchorDate: Instant
    var showMenu: bool
    var showTasks: bool
    var showClasses: bool
    var showExams: bool
    var showHolidays: bool
    var showInterviews: bool
    var showCoffeeChats: bool

    function CurrentFilters(): Filters
      reads this
    {
      Filters(showTasks, showClasses, showExams, showHolidays, showInterviews, showCoffeeChats)
    }

    /** Day mode, anchored at `now`, menu closed, every toggle on. */
    constructor (now: Instant)
      ensures mode == Day && anchorDate == now && !showMenu
      ensures CurrentFilters() == Filters(true, true, true, true, true, true)
    {
      mode := Day;
      anchorDate := now;
      showMenu := false;
      showTasks, showClasses, showExams := true, true, true;
      showHolidays, showInterviews, showCoffeeChats := true, true, true;
    }

    /** `goToday`: the anchor becomes the current instant. */
    method GoToday(now: Instant)
      modifies this
      ensures anchorDate == now
      ensures mode == old(mode) && showMenu == old(showMenu) && CurrentFilters() == old(CurrentFilters())
    {
      anchorDate := now;
    }

    /** `previous`: one day, one week or one month back, by mode. */
    method Previous(addMonths: (Instant, int) -> Option<Instant>)
      modifies this
      ensures anchorDate == Shifted(old(mode), old(anchorDate), false, addMonths)
      ensures mode == old(mode) && showMenu == old(showMenu) && CurrentFilters() == old(CurrentFilters())
    {
      match mode {
        case Day => anchorDate := AddDays(anchorDate, -1);
        case Week => anchorDate := AddDays(anchorDate, -7);
        case Month =>
          var m := addMonths(anchorDate, -1);
          anchorDate := if m.Some? then m.value else anchorDate;
      }
    }

    /** `next`: one day, one week or one month forward, by mode. */
    method Next(addMonths: (Instant, int) -> Option<Instant>)
      modifies this
      ensures anchorDate == Shifted(old(mode), old(anchorDate), true, addMonths)
      ensures mode == old(mode) && showMenu == old(showMenu) && CurrentFilters() == old(CurrentFilters())
    {
      match mode {
        case Day => anchorDate := AddDays(anchorDate, 1);
        case Week => anchorDate := AddDays(anchorDate, 7);
        case Month =>
          var m := addMonths(anchorDate, 1);
          anchorDate := if m.Some? then m.value else anchorDate;
      }
    }

    /** `visibleEvents(in:)` under the current toggles: the sample events shown, in their order. */
    function VisibleEvents(range: Interval): (r: seq<EventItem>)
      reads this
      ensures forall e :: e in r <==>
        e in EventSampleData(anchorDate) && TypeShown(CurrentFilters(), e.eventType) && InInterval(range, StartOfDay(e.date))
      ensures exists idx :: InOrderAt(r, EventSampleData(anchorDate), idx)
    {
      VisibleEventsOf(CurrentFilters(), anchorDate, range)
    }

    /** `visibleTasks(in:)`: nothing with tasks toggled off, otherwise the sample tasks due in range, in order. */
    function VisibleTasks(range: Interval): (r: seq<TaskItem>)
      reads this
      ensures !showTasks ==> r == []
      ensures showTasks ==> forall t :: t in r <==> t in TaskSampleData(anchorDate) && InInterval(range, StartOfDay(t.dueDate))
      ensures exists idx :: InOrderAt(r, TaskSampleData(anchorDate), idx)
    {
      VisibleTasksOf(CurrentFilters(), anchorDate, range)
    }
  }

  /** Turning a toggle off only removes items: the filters never add one. */
  lemma FewerTogglesFewerEvents(f: Filters, g: Filters, anchor: Instant, range: Interval)
    requires forall t :: TypeShown(g, t) ==> TypeShown(f, t)
    ensures forall e :: e in VisibleEventsOf(g, anchor, range) ==> e in VisibleEventsOf(f, anchor, range)
  {
  }
}
