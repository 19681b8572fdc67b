/**
 * The persisted planner records, with the fields the scheduling code reads.
 * `id` stands for the identity of the persisted object: two records are the
 * same object exactly when their ids agree.
 */
module Records {
  import opened Dates

  datatype TaskRecord = TaskRecord(
    id: nat,
    title: string,
    details: string,
    occurs: string,               // "Once" or "Repeating"
    dueDate: Instant,
    dueTime: Instant,
    days: seq<string>,            // day names such as "Mon"
    startDate: Option<Instant>,
    endDate: Option<Instant>,
    isCompleted: bool,
    completionPercentage: int,
    colorHex: string)

  datatype ClassRecord = ClassRecord(
    id: nat,
    mode: string,
    className: string,
    room: string,
    building: string,
    teacher: string,
    days: seq<string>,
    startTime: Instant,
    endTime: Instant,
    startDate: Instant,
    endDate: Instant,
    colorHex: string)

  datatype ExamRecord = ExamRecord(
    id: nat,
    name: string,
    examType: string,             // "Other" selects `customType` as the label
    customType: string,
    mode: string,
    room: string,
    building: string,
    link: string,
    date: Instant,
    time: Instant,
    durationMinutes: int,
    isRepeating: bool,
    days: seq<string>,
    startDate: Option<Instant>,
    endDate: Option<Instant>,
    colorHex: string)

  datatype OtherEventRecord = OtherEventRecord(
    id: nat,
    title: string,
    details: string,
    eventType: string,            // "Other" selects `customType` as the label
    customType: string,
    mode: string,
    location: string,
    date: Instant,
    time: Instant,
    durationMinutes: int,
    colorHex: string)

  /** One completed activity; `completedAt` is the moment it was recorded. */
  datatype StreakRecord = StreakRecord(
    date: Instant,
    activityType: string,         // "task", "exam" or "pomodoro"
    activityTitle: string,
    activityDetails: string,
    completedAt: Instant)

  /** The label of an exam or other event type: `customType` when the type is "Other". */
  function TypeLabel(eventType: string, customType: string): (r: string)
    ensures eventType == "Other" ==> r == customType
    ensures eventType != "Other" ==> r == eventType
  {
    if eventType == "Other" then customType else eventType
  }
}
