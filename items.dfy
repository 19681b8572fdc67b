/**
 * The value types behind the calendar screens (TaskItem.swift and
 * EventItem.swift): task and event kinds with their raw strings, and the
 * sample collections the calendar view model shows around an anchor date.
 */
module Items {
  import opened Dates
  import opened Sequences

  datatype TaskType = Assignment | Reminder | Essay

  function TaskTypeRawValue(t: TaskType): string
  {
    match t
    case Assignment => "Assignment"
    case Reminder => "Reminder"
    case Essay => "Essay"
  }

  /** `TaskType(rawValue:)`. */
  function TaskTypeFromRawValue(s: string): (r: Option<TaskType>)
    ensures r.Some? ==> TaskTypeRawValue(r.value) == s
    ensures r.None? ==> forall t: TaskType :: TaskTypeRawValue(t) != s
  {
    if s == "Assignment" then Some(Assignment)
    else if s == "Reminder" then Some(Reminder)
    else if s == "Essay" then Some(Essay)
    else None
  }

  datatype TaskRepeat = Once | EveryWeek

  function TaskRepeatRawValue(r: TaskRepeat): string
  {
    match r
    case Once => "Once"
    case EveryWeek => "Every week"
  }

  /** `TaskRepeat(rawValue:)`. */
  function TaskRepeatFromRawValue(s: string): (r: Option<TaskRepeat>)
    ensures r.Some? ==> TaskRepeatRawValue(r.value) == s
    ensures r.None? ==> forall t: TaskRepeat :: TaskRepeatRawValue(t) != s
  {
    if s == "Once" then Some(Once)
    else if s == "Every week" then Some(EveryWeek)
    else None
  }

  datatype EventType = ClassSession | Interview | CoffeeChat | CampusEvent | Exam | Holiday

  function EventTypeRawValue(t: EventType): string
  {
    match t
    case ClassSession => "Class"
    case Interview => "Interview"
    case CoffeeChat => "Coffee chat"
    case CampusEvent => "Campus event"
    case Exam => "Exam"
    case Holiday => "Holiday"
  }

  /** `EventType(rawValue:)`. */
  function EventTypeFromRawValue(s: string): (r: Option<EventType>)
    ensures r.Some? ==> EventTypeRawValue(r.value) == s
    ensures r.None? ==> forall t: EventType :: EventTypeRawValue(t) != s
  {
    if s == "Class" then Some(ClassSession)
    else if s == "Interview" then Some(Interview)
    else if s == "Coffee chat" then Some(CoffeeChat)
    else if s == "Campus event" then Some(CampusEvent)
    else if s == "Exam" then Some(Exam)
    else if s == "Holiday" then Some(Holiday)
    else None
  }

  /** Every raw value names exactly one case: reading it back gives the case. */
  lemma RawValuesRoundTrip(t: TaskType, r: TaskRepeat, e: EventType)
    ensures TaskTypeFromRawValue(TaskTypeRawValue(t)) == Some(t)
    ensures TaskRepeatFromRawValue(TaskRepeatRawValue(r)) == Some(r)
    ensures EventTypeFromRawValue(EventTypeRawValue(e)) == Some(e)
  {
  }

  /** `id` stands for the item's UUID. */
  datatype TaskItem = TaskItem(
    id: nat,
    title: string,
    description: string,
    taskType: TaskType,
    repeating: TaskRepeat,
    dueDate: Instant,             // the calendar date matters
    dueTime: Instant)             // the time of day matters

  datatype EventItem = EventItem(
    id: nat,
    title: string,
    date: Instant,
    startTime: Instant,
    endTime: Instant,
    eventType: EventType,
    repeating: TaskRepeat)

  predicate IsWeekly(t: TaskItem)
  {
    t.repeating == EveryWeek
  }

  const TaskSampleOffsets: seq<int> := [0, 0, 1, 1, 2]

  /** `TaskItem.sampleData(reference:)`. */
  function TaskSampleData(reference: Instant): (r: seq<TaskItem>)
    ensures |r| == 5
    ensures forall k :: 0 <= k < 5 ==>
      r[k].dueDate == AddDays(StartOfDay(reference), TaskSampleOffsets[k])
    ensures forall k :: 0 <= k < 5 ==> SameDay(r[k].dueTime, reference)
    ensures Count(r, IsWeekly) == 2
  {
    var today := StartOfDay(reference);
    var day1 := today;
    var day2 := AddDays(today, 1);
    var day3 := AddDays(today, 2);
    var r := [
      TaskItem(0, "Math Problem Set 3", "Ch. 5 integrals 1-20", Assignment, Once, day1, SettingTime(today, 23, 59)),
      TaskItem(1, "CS Lecture Review", "Summarize notes and flashcards", Reminder, EveryWeek, day1, SettingTime(today, 18, 0)),
      TaskItem(2, "History Essay Draft", "500 words on sources", Essay, Once, day2, SettingTime(today, 17, 0)),
      TaskItem(3, "Chemistry Quiz Prep", "Ch. 3-4 practice", Reminder, Once, day2, SettingTime(today, 20, 0)),
      TaskItem(4, "Group Project Sync", "Update slides", Assignment, EveryWeek, day3, SettingTime(today, 16, 30))
    ];
    assert Count(r[..1], IsWeekly) == 0 by { assert r[..1][..0] == []; }
    assert Count(r[..2], IsWeekly) == 1 by { assert r[..2][..1] == r[..1]; }
    assert Count(r[..3], IsWeekly) == 1 by { assert r[..3][..2] == r[..2]; }
    assert Count(r[..4], IsWeekly) == 1 by { assert r[..4][..3] == r[..3]; }
    assert r[..5][..4] == r[..4];
    r
  }

  const EventSampleOffsets: seq<int> := [0, 0, 1, 3]

  /** The instant `hour:minute` on the day holding `day`. */
  function TimeOn(day: Instant, hour: int, minute: int): Instant
    requires 0 <= hour < 24 && 0 <= minute < 60
  {
    SettingTime(day, hour, minute)
  }

  /** `EventItem.sampleData(reference:)`. */
  function EventSampleData(reference: Instant): (r: seq<EventItem>)
    ensures |r| == 4
    ensures forall k :: 0 <= k < 4 ==>
      r[k].date == AddDays(StartOfDay(reference), EventSampleOffsets[k])
    ensures forall k :: 0 <= k < 4 ==>
      SameDay(r[k].startTime, r[k].date) && SameDay(r[k].endTime, r[k].date)
      && r[k].startTime < r[k].endTime
    ensures forall k :: 0 <= k < 4 ==>
      (r[k].repeating == EveryWeek <==> r[k].eventType == ClassSession)
  {
    var today := StartOfDay(reference);
    var day1 := today;
    var day2 := AddDays(today, 1);
    var day3 := AddDays(today, 3);
    [
      EventItem(0, "CIS 1951 Lecture", day1, TimeOn(day1, 10, 30), TimeOn(day1, 11, 45), ClassSession, EveryWeek),
      EventItem(1, "Algorithms Recitation", day1, TimeOn(day1, 13, 0), TimeOn(day1, 13, 50), ClassSession, EveryWeek),
      EventItem(2, "Internship Interview", day2, TimeOn(day2, 15, 0), TimeOn(day2, 15, 45), Interview, Once),
      EventItem(3, "Coffee chat with TA", day3, TimeOn(day3, 9, 30), TimeOn(day3, 10, 0), CoffeeChat, Once)
    ]
  }
}
