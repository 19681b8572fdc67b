/**
 * The home screen (HomeView.swift): which classes, exams and tasks happen
 * today, the three counters, the merged list of today's entries ordered by
 * start time, the tab filter over that list, the greeting and the subject
 * glyphs.
 *
 * The membership test is written once, as `OccursOn` over a `Recurrence`;
 * every inline copy of it in the view (the counters and the three loops of
 * the list) is shown to agree with it.
 */
module Home {
  import opened Dates
  import opened Text
  import opened Sequences
  import opened Records
  import Items
  import Context

  // ---- day membership ----

  /** A stored day name matches today when its first three letters are today's. */
  predicate DayNameMatches(day: string, today: Instant): (r: bool)
    ensures r <==> |day| >= 3 && day[..3] == WeekdayAbbreviation(today)
  {
    Prefix(day, 3) == Prefix(WeekdayAbbreviation(today), 3)
  }

  /** `days.contains(where: { $0.prefix(3) == todayAbbr })`. */
  predicate ScheduledOn(days: seq<string>, today: Instant): (r: bool)
    ensures r <==> exists d :: d in days && |d| >= 3 && d[..3] == WeekdayAbbreviation(today)
  {
    exists k :: 0 <= k < |days| && DayNameMatches(days[k], today)
  }

  /** When an item happens: on one date, or weekly between two bounds. */
  datatype Recurrence =
    | OneTime(date: Instant)
    | Weekly(days: seq<string>, from: Option<Instant>, until: Option<Instant>)

  /**
   * The one membership test: a one-time item happens on the day that holds
   * its date; a weekly one only between both of its bounds.
   */
  predicate OccursOn(r: Recurrence, today: Instant)
    ensures r.OneTime? ==>
      (OccursOn(r, today) <==> today % MinutesPerDay == 0 && today <= r.date < today + MinutesPerDay)
    ensures r.Weekly? && OccursOn(r, today) ==>
      r.from.Some? && r.until.Some? && r.from.value <= today <= r.until.value
  {
    match r
    case OneTime(date) =>
      StartOfDayIff(date, today);
      StartOfDay(date) == today
    case Weekly(days, from, until) =>
      from.Some? && until.Some? && from.value <= today <= until.value && ScheduledOn(days, today)
  }

  function StartOfDayOpt(t: Option<Instant>): Option<Instant>
  {
    if t.Some? then Some(StartOfDay(t.value)) else None
  }

  /** A class is weekly between its raw start and end dates (they are not normalised). */
  function ClassRecurrence(c: ClassRecord): Recurrence
  {
    Weekly(c.days, Some(c.startDate), Some(c.endDate))
  }

  /** A repeating exam is weekly between the days of its bounds; otherwise it is on its date. */
  function ExamRecurrence(e: ExamRecord): Recurrence
  {
    if e.isRepeating then Weekly(e.days, StartOfDayOpt(e.startDate), StartOfDayOpt(e.endDate))
    else OneTime(e.date)
  }

  /** A task is weekly when `occurs` is exactly "Repeating"; otherwise it is on its due date. */
  function TaskRecurrence(t: TaskRecord): Recurrence
  {
    if t.occurs == "Repeating" then Weekly(t.days, StartOfDayOpt(t.startDate), StartOfDayOpt(t.endDate))
    else OneTime(t.dueDate)
  }

  function ClassToday(today: Instant): ClassRecord -> bool
  {
    c => OccursOn(ClassRecurrence(c), today)
  }

  function ExamToday(today: Instant): ExamRecord -> bool
  {
    e => OccursOn(ExamRecurrence(e), today)
  }

  function TaskToday(today: Instant): TaskRecord -> bool
  {
    t => OccursOn(TaskRecurrence(t), today)
  }

  /** A repeating exam or task whose bounds are not both set never happens. */
  lemma MissingBoundNeverOccurs(days: seq<string>, from: Option<Instant>, until: Option<Instant>, today: Instant)
    requires from.None? || until.None?
    ensures !OccursOn(Weekly(days, StartOfDayOpt(from), StartOfDayOpt(until)), today)
  {
  }

  /**
   * Class bounds are compared raw: a class whose start date is later on
   * today's date does not happen today, while an exam with the same bounds
   * and days does.
   */
  lemma ClassBoundsAreRaw(c: ClassRecord, e: ExamRecord, today: Instant)
    requires today % MinutesPerDay == 0
    requires today < c.startDate < today + MinutesPerDay && today <= c.endDate
    requires ScheduledOn(c.days, today)
    requires e.isRepeating && e.days == c.days
    requires e.startDate == Some(c.startDate) && e.endDate == Some(c.endDate)
    ensures !ClassToday(today)(c)
    ensures ExamToday(today)(e)
  {
    StartOfDayOfMidnight(today, c.startDate);
    DayNumberMonotone(today, c.endDate);
  }

  // ---- counters ----

  /** `classCount`: the view's inline filter, which agrees with `OccursOn`. */
  function ClassCount(classes: seq<ClassRecord>, now: Instant): (r: nat)
    ensures r == Count(classes, ClassToday(StartOfDay(now)))
  {
    var today := StartOfDay(now);
    var todayAbbr := Prefix(WeekdayAbbreviation(today), 3);
    var inline := (c: ClassRecord) =>
      c.startDate <= today && c.endDate >= today
      && exists k :: 0 <= k < |c.days| && Prefix(c.days[k], 3) == todayAbbr;
    FilterAgree(classes, inline, ClassToday(today));
    Count(classes, inline)
  }

  /** `examCount`: the view's inline filter, which agrees with `OccursOn`. */
  function ExamCount(exams: seq<ExamRecord>, now: Instant): (r: nat)
    ensures r == Count(exams, ExamToday(StartOfDay(now)))
  {
    var today := StartOfDay(now);
    var inline := (e: ExamRecord) =>
      if e.isRepeating then
        if e.startDate.Some? && e.endDate.Some? then
          today >= StartOfDay(e.startDate.value) && today <= StartOfDay(e.endDate.value)
          && exists k :: 0 <= k < |e.days| && Prefix(e.days[k], 3) == Prefix(WeekdayAbbreviation(today), 3)
        else false
      else StartOfDay(e.date) == today;
    FilterAgree(exams, inline, ExamToday(today));
    Count(exams, inline)
  }

  /** `taskCount`: the view's inline filter, which agrees with `OccursOn`. */
  function TaskCount(tasks: seq<TaskRecord>, now: Instant): (r: nat)
    ensures r == Count(tasks, TaskToday(StartOfDay(now)))
  {
    var today := StartOfDay(now);
    var inline := (t: TaskRecord) =>
      if t.occurs == "Repeating" then
        if t.startDate.Some? && t.endDate.Some? then
          today >= StartOfDay(t.startDate.value) && today <= StartOfDay(t.endDate.value)
          && exists k :: 0 <= k < |t.days| && Prefix(t.days[k], 3) == Prefix(WeekdayAbbreviation(today), 3)
        else false
      else StartOfDay(t.dueDate) == today;
    FilterAgree(tasks, inline, TaskToday(today));
    Count(tasks, inline)
  }

  // ---- subject glyphs ----

  /** The emoji shown behind an entry; `Memo` is the task emoji. */
  datatype Glyph = TestTube | Ruler | Columns | Atom | Dna | Laptop | Books | Memo

  /** Some subject keyword occurs; "chemistry" and "biology" are covered by "chem" and "bio". */
  predicate AnyKeyword(s: string)
  {
    || Contains(s, "chem") || Contains(s, "math") || Contains(s, "calculus")
    || Contains(s, "algebra") || Contains(s, "history") || Contains(s, "museum")
    || Contains(s, "physics") || Contains(s, "bio") || Contains(s, "computer")
    || Contains(s, "programming") || Contains(s, "cs")
  }

  /** `backgroundImageForSubject`: the first keyword group found in the lowercased subject. */
  function BackgroundImageForSubject(subject: string): (r: Glyph)
    ensures r != Memo
    ensures r == TestTube <==> Contains(Lowercased(subject), "chem")
    ensures r == Dna ==> Contains(Lowercased(subject), "bio")
    ensures r == Books <==> !AnyKeyword(Lowercased(subject))
  {
    var s := Lowercased(subject);
    if Contains(s, "chemistry") then
      ContainsPrefixOf(s, "chemistry", 4);
      assert "chemistry"[..4] == "chem";
      TestTube
    else if Contains(s, "chem") then TestTube
    else if Contains(s, "math") || Contains(s, "calculus") || Contains(s, "algebra") then Ruler
    else if Contains(s, "history") || Contains(s, "museum") then Columns
    else if Contains(s, "physics") then Atom
    else if Contains(s, "biology") then
      ContainsPrefixOf(s, "biology", 3);
      assert "biology"[..3] == "bio";
      Dna
    else if Contains(s, "bio") then Dna
    else if Contains(s, "computer") || Contains(s, "programming") || Contains(s, "cs") then Laptop
    else Books
  }

  // ---- today's list ----

  /** One card of today's list; `start` gives the time of day it is sorted by. */
  datatype TodayEvent = TodayEvent(
    id: string,
    title: string,
    subtitle: string,
    start: Instant,
    end: Option<Instant>,         // tasks show a single time
    kind: Items.EventType,
    colorHex: string,
    glyph: Glyph,
    isUpNext: bool)

  /** A class card: its own times, the class kind, never the memo, not yet up next. */
  function ClassEntry(c: ClassRecord): (r: TodayEvent)
    ensures r.kind == Items.ClassSession && r.glyph != Memo && !r.isUpNext
    ensures r.start == c.startTime && r.end == Some(c.endTime)
    ensures |r.title| == |c.className| && r.subtitle == c.teacher
  {
    TodayEvent("class-" + c.className, Uppercased(c.className), c.teacher,
      c.startTime, Some(c.endTime), Items.ClassSession, c.colorHex,
      BackgroundImageForSubject(c.className), false)
  }

  /**
   * An exam card: it ends `durationMinutes` after it starts, and its subtitle
   * is the custom type for "Other" and the exam type otherwise.
   */
  function ExamEntry(e: ExamRecord): (r: TodayEvent)
    ensures r.kind == Items.Exam && r.glyph != Memo && !r.isUpNext
    ensures r.start == e.time && r.end == Some(r.start + e.durationMinutes)
    ensures r.subtitle == if e.examType == "Other" then e.customType else e.examType
  {
    TodayEvent("exam-" + e.name, Uppercased(e.name), TypeLabel(e.examType, e.customType),
      e.time, Some(e.time + e.durationMinutes), Items.Exam, e.colorHex,
      BackgroundImageForSubject(e.name), false)
  }

  /** Tasks are tagged with the exam type and always carry the memo glyph; they show a single time. */
  function TaskEntry(t: TaskRecord): (r: TodayEvent)
    ensures r.kind == Items.Exam && r.glyph == Memo && !r.isUpNext
    ensures r.start == t.dueTime && r.end.None? && r.subtitle == t.details
  {
    TodayEvent("task-" + t.title, Uppercased(t.title), t.details,
      t.dueTime, None, Items.Exam, t.colorHex, Memo, false)
  }

  /** Only the first entry appended is flagged as up next. */
  function MarkFirst(xs: seq<TodayEvent>): (r: seq<TodayEvent>)
    ensures |r| == |xs|
    ensures forall k :: 0 <= k < |xs| ==> r[k] == xs[k].(isUpNext := k == 0)
  {
    seq(|xs|, k requires 0 <= k < |xs| => xs[k].(isUpNext := k == 0))
  }

  lemma MarkFirstSnoc(xs: seq<TodayEvent>, x: TodayEvent)
    ensures MarkFirst(xs + [x]) == MarkFirst(xs) + [x.(isUpNext := xs == [])]
  {
  }

  function ClassEntries(classes: seq<ClassRecord>, today: Instant): seq<TodayEvent>
  {
    Map(Filter(classes, ClassToday(today)), ClassEntry)
  }

  function ExamEntries(exams: seq<ExamRecord>, today: Instant): seq<TodayEvent>
  {
    Map(Filter(exams, ExamToday(today)), ExamEntry)
  }

  function TaskEntries(tasks: seq<TaskRecord>, today: Instant): seq<TodayEvent>
  {
    Map(Filter(tasks, TaskToday(today)), TaskEntry)
  }

  /** The list in the order the three loops append it, before sorting. */
  function Appended(classes: seq<ClassRecord>, exams: seq<ExamRecord>, tasks: seq<TaskRecord>, today: Instant): (r: seq<TodayEvent>)
    ensures |r| == Count(classes, ClassToday(today)) + Count(exams, ExamToday(today)) + Count(tasks, TaskToday(today))
    ensures forall k :: 0 <= k < |r| ==> (r[k].isUpNext <==> k == 0)
  {
    MarkFirst(ClassEntries(classes, today) + ExamEntries(exams, today) + TaskEntries(tasks, today))
  }

  /** The sort key: the minute of the day an entry starts. */
  function StartKey(e: TodayEvent): int
  {
    MinuteOfDay(e.start)
  }

  /** `todayEvents` as a value: the appended list sorted by start time of day. */
  function TodayEventsOf(classes: seq<ClassRecord>, exams: seq<ExamRecord>, tasks: seq<TaskRecord>, now: Instant): (r: seq<TodayEvent>)
    ensures SortedBy(r, StartKey)
    ensures multiset(r) == multiset(Appended(classes, exams, tasks, StartOfDay(now)))
  {
    SortBy(Appended(classes, exams, tasks, StartOfDay(now)), StartKey)
  }

  /** Appending one more record's card, if it passes, to a marked list. */
  lemma AppendStep<R>(prefix: seq<TodayEvent>, xs: seq<R>, i: nat, p: R -> bool, f: R -> TodayEvent)
    requires i < |xs|
    ensures var before := prefix + Map(Filter(xs[..i], p), f);
      MarkFirst(prefix + Map(Filter(xs[..i + 1], p), f)) ==
        if p(xs[i]) then MarkFirst(before) + [f(xs[i]).(isUpNext := before == [])]
        else MarkFirst(before)
  {
    assert xs[..i + 1] == xs[..i] + [xs[i]];
    FilterSnoc(xs[..i], xs[i], p);
    var before := prefix + Map(Filter(xs[..i], p), f);
    if p(xs[i]) {
      MapAppend(Filter(xs[..i], p), [xs[i]], f);
      assert prefix + Map(Filter(xs[..i + 1], p), f) == before + [f(xs[i])];
      MarkFirstSnoc(before, f(xs[i]));
    } else {
      assert Filter(xs[..i + 1], p) == Filter(xs[..i], p);
    }
  }

  /** The inline test of the class loop agrees with `OccursOn`. */
  lemma ClassTestAgrees(c: ClassRecord, today: Instant, todayAbbr: string)
    requires todayAbbr == Prefix(WeekdayAbbreviation(today), 3)
    ensures ClassToday(today)(c) <==>
      c.startDate <= today && c.endDate >= today
      && exists k :: 0 <= k < |c.days| && Prefix(c.days[k], 3) == todayAbbr
  {
  }

  /** The inline test of the exam loop agrees with `OccursOn`. */
  lemma ExamTestAgrees(e: ExamRecord, today: Instant, todayAbbr: string)
    requires todayAbbr == Prefix(WeekdayAbbreviation(today), 3)
    ensures ExamToday(today)(e) <==>
      if e.isRepeating then
        e.startDate.Some? && e.endDate.Some?
        && today >= StartOfDay(e.startDate.value) && today <= StartOfDay(e.endDate.value)
        && exists k :: 0 <= k < |e.days| && Prefix(e.days[k], 3) == todayAbbr
      else StartOfDay(e.date) == today
  {
  }

  /** The inline test of the task loop agrees with `OccursOn`. */
  lemma TaskTestAgrees(t: TaskRecord, today: Instant, todayAbbr: string)
    requires todayAbbr == Prefix(WeekdayAbbreviation(today), 3)
    ensures TaskToday(today)(t) <==>
      if t.occurs == "Repeating" then
        t.startDate.Some? && t.endDate.Some?
        && today >= StartOfDay(t.startDate.value) && today <= StartOfDay(t.endDate.value)
        && exists k :: 0 <= k < |t.days| && Prefix(t.days[k], 3) == todayAbbr
      else StartOfDay(t.dueDate) == today
  {
  }

  /** The class loop of `todayEvents`: appends a card per class happening today. */
  method AppendClasses(events: seq<TodayEvent>, ghost before: seq<TodayEvent>, classes: seq<ClassRecord>, today: Instant)
    returns (r: seq<TodayEvent>)
    requires events == MarkFirst(before)
    ensures r == MarkFirst(before + ClassEntries(classes, today))
  {
    var todayAbbr := Prefix(WeekdayAbbreviation(today), 3);
    r := events;
    assert before + Map(Filter(classes[..0], ClassToday(today)), ClassEntry) == before;
    for i := 0 to |classes|
      invariant r == MarkFirst(before + Map(Filter(classes[..i], ClassToday(today)), ClassEntry))
    {
      var c := classes[i];
      AppendStep(before, classes, i, ClassToday(today), ClassEntry);
      ClassTestAgrees(c, today, todayAbbr);
      if c.startDate <= today && c.endDate >= today {
        if exists k :: 0 <= k < |c.days| && Prefix(c.days[k], 3) == todayAbbr {
          r := r + [ClassEntry(c).(isUpNext := r == [])];
        }
      }
    }
    assert classes[..|classes|] == classes;
  }

  /** The exam loop of `todayEvents`: appends a card per exam happening today. */
  method AppendExams(events: seq<TodayEvent>, ghost before: seq<TodayEvent>, exams: seq<ExamRecord>, today: Instant)
    returns (r: seq<TodayEvent>)
    requires events == MarkFirst(before)
    ensures r == MarkFirst(before + ExamEntries(exams, today))
  {
    var todayAbbr := Prefix(WeekdayAbbreviation(today), 3);
    r := events;
    assert before + Map(Filter(exams[..0], ExamToday(today)), ExamEntry) == before;
    for j := 0 to |exams|
      invariant r == MarkFirst(before + Map(Filter(exams[..j], ExamToday(today)), ExamEntry))
    {
      var e := exams[j];
      AppendStep(before, exams, j, ExamToday(today), ExamEntry);
      ExamTestAgrees(e, today, todayAbbr);
      var isToday := false;
      if e.isRepeating {
        if e.startDate.Some? && e.endDate.Some? {
          var isInDateRange := today >= StartOfDay(e.startDate.value) && today <= StartOfDay(e.endDate.value);
          var isScheduledDay := exists k :: 0 <= k < |e.days| && Prefix(e.days[k], 3) == todayAbbr;
          isToday := isInDateRange && isScheduledDay;
        }
      } else {
        isToday := StartOfDay(e.date) == today;
      }
      if isToday {
        r := r + [ExamEntry(e).(isUpNext := r == [])];
      }
    }
    assert exams[..|exams|] == exams;
  }

  /** The task loop of `todayEvents`: appends a memo card per task happening today. */
  method AppendTasks(events: seq<TodayEvent>, ghost before: seq<TodayEvent>, tasks: seq<TaskRecord>, today: Instant)
    returns (r: seq<TodayEvent>)
    requires events == MarkFirst(before)
    ensures r == MarkFirst(before + TaskEntries(tasks, today))
  {
    var todayAbbr := Prefix(WeekdayAbbreviation(today), 3);
    r := events;
    assert before + Map(Filter(tasks[..0], TaskToday(today)), TaskEntry) == before;
    for j := 0 to |tasks|
      invariant r == MarkFirst(before + Map(Filter(tasks[..j], TaskToday(today)), TaskEntry))
    {
      var t := tasks[j];
      AppendStep(before, tasks, j, TaskToday(today), TaskEntry);
      TaskTestAgrees(t, today, todayAbbr);
      var isToday := false;
      if t.occurs == "Repeating" {
        if t.startDate.Some? && t.endDate.Some? {
          var isInDateRange := today >= StartOfDay(t.startDate.value) && today <= StartOfDay(t.endDate.value);
          var isScheduledDay := exists k :: 0 <= k < |t.days| && Prefix(t.days[k], 3) == todayAbbr;
          isToday := isInDateRange && isScheduledDay;
        }
      } else {
        isToday := StartOfDay(t.dueDate) == today;
      }
      if isToday {
        r := r + [TaskEntry(t).(isUpNext := r == [])];
      }
    }
    assert tasks[..|tasks|] == tasks;
  }

  /** `todayEvents`: classes, then exams, then tasks appended, then sorted by start time. */
  method TodayEvents(ctx: Context.ModelContext, now: Instant) returns (events: seq<TodayEvent>)
    ensures events == TodayEventsOf(ctx.classes, ctx.exams, ctx.tasks, now)
  {
    var today := StartOfDay(now);
    ghost var c := ClassEntries(ctx.classes, today);
    ghost var e := ExamEntries(ctx.exams, today);
    events := AppendClasses([], [], ctx.classes, today);
    assert [] + c == c;
    events := AppendExams(events, c, ctx.exams, today);
    events := AppendTasks(events, c + e, ctx.tasks, today);
    events := SortBy(events, StartKey);
  }

  // ---- properties of today's list ----

  predicate IsClassSession(e: TodayEvent) { e.kind == Items.ClassSession }
  predicate IsExamKind(e: TodayEvent) { e.kind == Items.Exam }
  predicate IsMemo(e: TodayEvent) { e.glyph == Memo }
  predicate IsUpNext(e: TodayEvent) { e.isUpNext }

  /** The kind and glyph of every entry, part by part. */
  lemma EntryParts(classes: seq<ClassRecord>, exams: seq<ExamRecord>, tasks: seq<TaskRecord>, today: Instant)
    ensures Count(ClassEntries(classes, today), IsClassSession) == Count(classes, ClassToday(today))
    ensures Count(ExamEntries(exams, today), IsClassSession) == 0
    ensures Count(TaskEntries(tasks, today), IsClassSession) == 0
    ensures Count(ClassEntries(classes, today), IsExamKind) == 0
    ensures Count(ExamEntries(exams, today), IsExamKind) == Count(exams, ExamToday(today))
    ensures Count(TaskEntries(tasks, today), IsExamKind) == Count(tasks, TaskToday(today))
    ensures Count(ClassEntries(classes, today), IsMemo) == 0
    ensures Count(ExamEntries(exams, today), IsMemo) == 0
    ensures Count(TaskEntries(tasks, today), IsMemo) == Count(tasks, TaskToday(today))
  {
    var c, e, t := ClassEntries(classes, today), ExamEntries(exams, today), TaskEntries(tasks, today);
    CountAll(c, IsClassSession);
    CountNone(e, IsClassSession);
    CountNone(t, IsClassSession);
    CountNone(c, IsExamKind);
    CountAll(e, IsExamKind);
    CountAll(t, IsExamKind);
    CountNone(c, IsMemo);
    CountNone(e, IsMemo);
    CountAll(t, IsMemo);
  }

  /** Sorting and marking keep the count of any test that ignores the up-next flag. */
  lemma CountThroughSortAndMark(c: seq<TodayEvent>, e: seq<TodayEvent>, t: seq<TodayEvent>, p: TodayEvent -> bool)
    requires forall k :: 0 <= k < |c + e + t| ==> p(MarkFirst(c + e + t)[k]) == p((c + e + t)[k])
    ensures Count(SortBy(MarkFirst(c + e + t), StartKey), p) == Count(c, p) + Count(e, p) + Count(t, p)
  {
    var marked := MarkFirst(c + e + t);
    CountMultiset(SortBy(marked, StartKey), marked, p);
    CountPointwise(marked, c + e + t, p);
    CountAppend(c + e, t, p);
    CountAppend(c, e, p);
  }

  /** A non-empty marked list, sorted, has exactly one up-next card. */
  lemma OneUpNext(raw: seq<TodayEvent>)
    requires raw != []
    ensures Count(SortBy(MarkFirst(raw), StartKey), IsUpNext) == 1
  {
    var marked := MarkFirst(raw);
    CountMultiset(SortBy(marked, StartKey), marked, IsUpNext);
    assert marked == [marked[0]] + marked[1..];
    CountAppend([marked[0]], marked[1..], IsUpNext);
    CountNone(marked[1..], IsUpNext);
    assert Count([marked[0]], IsUpNext) == 1 by { assert [marked[0]][..0] == []; }
  }

  /**
   * The list holds one class card per class counted today, one memo card per
   * task counted today, and exam-typed cards for the exams and the tasks;
   * a non-empty list has exactly one up-next card; it is ordered by start time.
   */
  lemma TodayEventsAgreeWithCounts(classes: seq<ClassRecord>, exams: seq<ExamRecord>, tasks: seq<TaskRecord>, now: Instant)
    ensures SortedBy(TodayEventsOf(classes, exams, tasks, now), StartKey)
    ensures Count(TodayEventsOf(classes, exams, tasks, now), IsClassSession) == ClassCount(classes, now)
    ensures Count(TodayEventsOf(classes, exams, tasks, now), IsMemo) == TaskCount(tasks, now)
    ensures Count(TodayEventsOf(classes, exams, tasks, now), IsExamKind) == ExamCount(exams, now) + TaskCount(tasks, now)
    ensures |TodayEventsOf(classes, exams, tasks, now)| ==
      ClassCount(classes, now) + ExamCount(exams, now) + TaskCount(tasks, now)
    ensures TodayEventsOf(classes, exams, tasks, now) != [] ==>
      Count(TodayEventsOf(classes, exams, tasks, now), IsUpNext) == 1
  {
    var today := StartOfDay(now);
    var c, e, t := ClassEntries(classes, today), ExamEntries(exams, today), TaskEntries(tasks, today);
    EntryParts(classes, exams, tasks, today);
    CountThroughSortAndMark(c, e, t, IsClassSession);
    CountThroughSortAndMark(c, e, t, IsMemo);
    CountThroughSortAndMark(c, e, t, IsExamKind);
    if c + e + t != [] {
      OneUpNext(c + e + t);
    }
  }

  /**
   * The up-next card is the first one appended, fixed before sorting: the
   * first class of today if there is one, else the first exam, else the
   * first task.
   */
  lemma UpNextIsFirstAppended(classes: seq<ClassRecord>, exams: seq<ExamRecord>, tasks: seq<TaskRecord>, now: Instant)
    ensures forall k :: 0 <= k < |TodayEventsOf(classes, exams, tasks, now)| ==>
      (TodayEventsOf(classes, exams, tasks, now)[k].isUpNext ==>
       TodayEventsOf(classes, exams, tasks, now)[k] == Appended(classes, exams, tasks, StartOfDay(now))[0])
    ensures var today := StartOfDay(now);
      var c, e, t := ClassEntries(classes, today), ExamEntries(exams, today), TaskEntries(tasks, today);
      c + e + t != [] ==>
        Appended(classes, exams, tasks, today)[0] ==
          (if c != [] then c[0] else if e != [] then e[0] else t[0]).(isUpNext := true)
  {
    var today := StartOfDay(now);
    var c, e, t := ClassEntries(classes, today), ExamEntries(exams, today), TaskEntries(tasks, today);
    var raw := c + e + t;
    var marked := MarkFirst(raw);
    var events := TodayEventsOf(classes, exams, tasks, now);
    assert marked == Appended(classes, exams, tasks, today);
    forall k | 0 <= k < |events| && events[k].isUpNext
      ensures events[k] == marked[0]
    {
      assert events[k] in multiset(marked);
      var m :| 0 <= m < |marked| && marked[m] == events[k];
      assert m == 0;
    }
    if raw != [] {
      if c != [] {
        assert raw[0] == c[0];
      } else if e != [] {
        assert raw[0] == e[0];
      } else {
        assert raw[0] == t[0];
      }
    }
  }

  /** A class happening today makes the up-next card a class. */
  lemma UpNextIsClassWhenAny(classes: seq<ClassRecord>, exams: seq<ExamRecord>, tasks: seq<TaskRecord>, now: Instant)
    requires Count(classes, ClassToday(StartOfDay(now))) > 0
    ensures forall k :: 0 <= k < |TodayEventsOf(classes, exams, tasks, now)| ==>
      (TodayEventsOf(classes, exams, tasks, now)[k].isUpNext ==>
       TodayEventsOf(classes, exams, tasks, now)[k].kind == Items.ClassSession)
  {
    var today := StartOfDay(now);
    UpNextIsFirstAppended(classes, exams, tasks, now);
    assert |ClassEntries(classes, today)| > 0;
  }

  /** The three tabs of the home screen. */
  datatype EventFilter = Classes | Exams | Tasks

  /** `filteredTodayEvents`. */
  function FilteredTodayEvents(events: seq<TodayEvent>, filter: EventFilter): (r: seq<TodayEvent>)
    ensures forall k :: 0 <= k < |r| ==> r[k] in events
    ensures filter == Classes ==> forall x :: x in r <==> x in events && x.kind == Items.ClassSession
    ensures filter == Exams ==> forall x :: x in r <==> x in events && x.kind == Items.Exam
    ensures filter == Tasks ==> forall x :: x in r <==> x in events && x.glyph == Memo
  {
    match filter
    case Classes => Filter(events, IsClassSession)
    case Exams => Filter(events, IsExamKind)
    case Tasks => Filter(events, IsMemo)
  }

  /**
   * The Classes tab holds the classes counted today, the Tasks tab exactly
   * the tasks counted today, and the Exams tab the exams together with the
   * tasks, because tasks carry the exam type.
   */
  lemma TabSizes(classes: seq<ClassRecord>, exams: seq<ExamRecord>, tasks: seq<TaskRecord>, now: Instant)
    ensures |FilteredTodayEvents(TodayEventsOf(classes, exams, tasks, now), Classes)| == ClassCount(classes, now)
    ensures |FilteredTodayEvents(TodayEventsOf(classes, exams, tasks, now), Tasks)| == TaskCount(tasks, now)
    ensures |FilteredTodayEvents(TodayEventsOf(classes, exams, tasks, now), Exams)| ==
      ExamCount(exams, now) + TaskCount(tasks, now)
  {
    TodayEventsAgreeWithCounts(classes, exams, tasks, now);
    TabSizesOfCounts(TodayEventsOf(classes, exams, tasks, now));
  }

  lemma TabSizesOfCounts(events: seq<TodayEvent>)
    ensures |FilteredTodayEvents(events, Classes)| == Count(events, IsClassSession)
    ensures |FilteredTodayEvents(events, Tasks)| == Count(events, IsMemo)
    ensures |FilteredTodayEvents(events, Exams)| == Count(events, IsExamKind)
  {
  }

  // ---- greeting ----

  /** `greeting`, from the hour of `now`. */
  function Greeting(now: Instant): (r: string)
    ensures var h := MinuteOfDay(now) / 60;
      && (r == "Good Morning!" <==> 5 <= h < 12)
      && (r == "Good Afternoon!" <==> 12 <= h < 17)
      && (r == "Good Evening!" <==> 17 <= h < 22)
      && (r == "Good Night!" <==> h < 5 || 22 <= h)
  {
    var hour := MinuteOfDay(now) / 60;
    if 5 <= hour < 12 then "Good Morning!"
    else if 12 <= hour < 17 then "Good Afternoon!"
    else if 17 <= hour < 22 then "Good Evening!"
    else "Good Night!"
  }
}
