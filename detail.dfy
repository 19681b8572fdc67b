/**
 * The task and exam detail screens (DetailViews.swift): completing a task,
 * the progress slider, recording a completion in the streak log, and
 * deleting one record or a whole repeating series.
 *
 * A stored record is identified by its value: records of different objects
 * differ at least in `id`, so deleting an object removes the records equal
 * to it.
 */
module Detail {
  import opened Dates
  import opened Sequences
  import opened Records
  import opened Context

  // ---- the streak log ----

  /** A streak record for this activity already exists on the day `today`. */
  predicate SameActivity(s: StreakRecord, today: Instant, activityType: string, title: string)
  {
    SameDay(s.date, today) && s.activityType == activityType && s.activityTitle == title
  }

  predicate HasActivity(streaks: seq<StreakRecord>, today: Instant, activityType: string, title: string)
  {
    exists k :: 0 <= k < |streaks| && SameActivity(streaks[k], today, activityType, title)
  }

  /** The log after `addToStreak`: unchanged when the activity is already logged today. */
  function WithStreak(streaks: seq<StreakRecord>, now: Instant, activityType: string, title: string, details: string): (r: seq<StreakRecord>)
    ensures HasActivity(streaks, StartOfDay(now), activityType, title) ==> r == streaks
    ensures !HasActivity(streaks, StartOfDay(now), activityType, title) ==>
      && |r| == |streaks| + 1 && r[..|streaks|] == streaks
      && SameActivity(r[|streaks|], StartOfDay(now), activityType, title) && r[|streaks|].completedAt == now
  {
    var today := StartOfDay(now);
    if HasActivity(streaks, today, activityType, title) then streaks
    else streaks + [StreakRecord(today, activityType, title, details, now)]
  }

  /** No two records log the same activity on the same day. */
  predicate NoDuplicateActivities(streaks: seq<StreakRecord>)
  {
    forall i, j :: 0 <= i < j < |streaks| ==>
      !SameActivity(streaks[i], streaks[j].date, streaks[j].activityType, streaks[j].activityTitle)
  }

  /** After `addToStreak` the activity is logged today, and calling it again changes nothing. */
  lemma WithStreakIdempotent(streaks: seq<StreakRecord>, now: Instant, activityType: string, title: string, details: string)
    ensures HasActivity(WithStreak(streaks, now, activityType, title, details), StartOfDay(now), activityType, title)
    ensures var once := WithStreak(streaks, now, activityType, title, details);
      WithStreak(once, now, activityType, title, details) == once
  {
    var today := StartOfDay(now);
    var once := WithStreak(streaks, now, activityType, title, details);
    if !HasActivity(streaks, today, activityType, title) {
      StartOfDayOfMidnight(today, today);
      assert SameActivity(once[|streaks|], today, activityType, title);
    }
  }

  /** `addToStreak` never logs an activity twice on one day. */
  lemma WithStreakKeepsNoDuplicates(streaks: seq<StreakRecord>, now: Instant, activityType: string, title: string, details: string)
    requires NoDuplicateActivities(streaks)
    ensures NoDuplicateActivities(WithStreak(streaks, now, activityType, title, details))
  {
    var today := StartOfDay(now);
    if !HasActivity(streaks, today, activityType, title) {
      var r := WithStreak(streaks, now, activityType, title, details);
      forall i, j | 0 <= i < j < |r|
        ensures !SameActivity(r[i], r[j].date, r[j].activityType, r[j].activityTitle)
      {
        if j == |streaks| {
          assert !SameActivity(streaks[i], today, activityType, title);
        }
      }
    }
  }

  /** `addToStreak(activityType:title:details:)`, dated at the start of today. */
  method AddToStreak(ctx: ModelContext, activityType: string, title: string, details: string, now: Instant)
    modifies ctx
    ensures ctx.streaks == WithStreak(old(ctx.streaks), now, activityType, title, details)
    ensures ctx.tasks == old(ctx.tasks) && ctx.classes == old(ctx.classes)
    ensures ctx.exams == old(ctx.exams) && ctx.otherEvents == old(ctx.otherEvents)
  {
    var today := StartOfDay(now);
    var existingStreaks := ctx.streaks;
    var alreadyExists :=
      exists k :: 0 <= k < |existingStreaks| && SameDay(existingStreaks[k].date, today)
        && existingStreaks[k].activityType == activityType && existingStreaks[k].activityTitle == title;
    if !alreadyExists {
      var streakRecord := StreakRecord(today, activityType, title, details, now);
      ctx.streaks := ctx.streaks + [streakRecord];
    }
  }

  // ---- completing a task ----

  /** A task marked complete by the checkmark. */
  function Completed(t: TaskRecord): (r: TaskRecord)
    ensures r.isCompleted && r.completionPercentage == 100
    ensures r.(isCompleted := t.isCompleted, completionPercentage := t.completionPercentage) == t
  {
    t.(isCompleted := true, completionPercentage := 100)
  }

  /** `toggleCompletion`: completes an open task and logs it; a completed task is left as it is. */
  method ToggleCompletion(ctx: ModelContext, i: nat, now: Instant)
    requires i < |ctx.tasks|
    modifies ctx
    ensures old(ctx.tasks[i]).isCompleted ==>
      ctx.tasks == old(ctx.tasks) && ctx.streaks == old(ctx.streaks)
    ensures !old(ctx.tasks[i]).isCompleted ==>
      && ctx.tasks == old(ctx.tasks)[i := Completed(old(ctx.tasks[i]))]
      && ctx.streaks == WithStreak(old(ctx.streaks), now, "task", old(ctx.tasks[i]).title, old(ctx.tasks[i]).details)
    ensures ctx.classes == old(ctx.classes) && ctx.exams == old(ctx.exams)
    ensures ctx.otherEvents == old(ctx.otherEvents)
  {
    var task := ctx.tasks[i];
    if !task.isCompleted {
      task := task.(isCompleted := true);
      task := task.(completionPercentage := 100);
      ctx.tasks := ctx.tasks[i := task];
      AddToStreak(ctx, "task", task.title, task.details, now);
    }
  }

  /**
   * The progress slider's setter: stores the value; at 100 the task is
   * completed and logged, below 100 it is reopened.
   */
  method SetProgress(ctx: ModelContext, i: nat, value: int, now: Instant)
    requires i < |ctx.tasks|
    modifies ctx
    ensures |ctx.tasks| == |old(ctx.tasks)|
    ensures forall k :: 0 <= k < |ctx.tasks| && k != i ==> ctx.tasks[k] == old(ctx.tasks[k])
    ensures ctx.tasks[i] == old(ctx.tasks[i]).(
      completionPercentage := value,
      isCompleted := if value == 100 then true else if value < 100 then false else old(ctx.tasks[i]).isCompleted)
    ensures ctx.streaks == if value == 100
      then WithStreak(old(ctx.streaks), now, "task", old(ctx.tasks[i]).title, old(ctx.tasks[i]).details)
      else old(ctx.streaks)
    ensures ctx.classes == old(ctx.classes) && ctx.exams == old(ctx.exams)
    ensures ctx.otherEvents == old(ctx.otherEvents)
  {
    var task := ctx.tasks[i].(completionPercentage := value);
    ctx.tasks := ctx.tasks[i := task];
    if task.completionPercentage == 100 {
      task := task.(isCompleted := true);
      ctx.tasks := ctx.tasks[i := task];
      AddToStreak(ctx, "task", task.title, task.details, now);
    } else if task.completionPercentage < 100 {
      task := task.(isCompleted := false);
      ctx.tasks := ctx.tasks[i := task];
    }
  }

  /** Completing by the checkmark and by sliding to 100 leave the same task and log. */
  lemma SliderAt100IsCompletion(t: TaskRecord)
    requires !t.isCompleted
    ensures t.(completionPercentage := 100, isCompleted := true) == Completed(t)
  {
  }

  // ---- deleting ----

  /** Every element not among `ms`. */
  function NotAmong<T(==)>(ms: seq<T>): T -> bool
  {
    x => x !in ms
  }

  /** `context.delete(x)` for each `x` of `matching`, one after another. */
  lemma DeleteStep<T>(store: seq<T>, matching: seq<T>, k: nat)
    requires k < |matching|
    ensures Filter(Filter(store, NotAmong(matching[..k])), NotAmong([matching[k]])) ==
      Filter(store, NotAmong(matching[..k + 1]))
  {
    assert matching[..k + 1] == matching[..k] + [matching[k]];
    FilterFilter(store, NotAmong(matching[..k]), NotAmong([matching[k]]), NotAmong(matching[..k + 1]));
  }

  /** Removing the elements a filter selected is filtering by the opposite test. */
  lemma RemoveSelected<T>(store: seq<T>, p: T -> bool, notP: T -> bool)
    requires forall x :: notP(x) == !p(x)
    ensures Filter(store, NotAmong(Filter(store, p))) == Filter(store, notP)
  {
    var matching := Filter(store, p);
    forall k | 0 <= k < |store| ensures NotAmong(matching)(store[k]) == notP(store[k]) {
      if p(store[k]) {
        assert store[k] in matching;
      }
    }
    FilterAgree(store, NotAmong(matching), notP);
  }

  /** A task of the same repeating series as `task`. */
  function SameTaskSeries(task: TaskRecord): (r: TaskRecord -> bool)
    ensures r(task) <==> task.occurs == "Repeating"
    ensures forall t :: r(t) ==> t.occurs == "Repeating"
    ensures forall t :: r(t) <==> !NotSameTaskSeries(task)(t)
  {
    (t: TaskRecord) => t.title == task.title && t.details == task.details && t.occurs == "Repeating"
  }

  function NotSameTaskSeries(task: TaskRecord): TaskRecord -> bool
  {
    (t: TaskRecord) => !(t.title == task.title && t.details == task.details && t.occurs == "Repeating")
  }

  /** The tasks left by `deleteTask(deleteAll:)`. */
  function TasksAfterDelete(tasks: seq<TaskRecord>, task: TaskRecord, deleteAll: bool): (r: seq<TaskRecord>)
    ensures task !in r && |r| <= |tasks|
    ensures forall k :: 0 <= k < |r| ==> r[k] in tasks
  {
    if deleteAll && task.occurs == "Repeating" then Filter(tasks, NotSameTaskSeries(task))
    else Filter(tasks, NotAmong([task]))
  }

  /** `deleteTask(deleteAll:)`. */
  method DeleteTask(ctx: ModelContext, task: TaskRecord, deleteAll: bool)
    modifies ctx
    ensures ctx.tasks == TasksAfterDelete(old(ctx.tasks), task, deleteAll)
    ensures ctx.classes == old(ctx.classes) && ctx.exams == old(ctx.exams)
    ensures ctx.otherEvents == old(ctx.otherEvents) && ctx.streaks == old(ctx.streaks)
  {
    if deleteAll && task.occurs == "Repeating" {
      var allTasks := ctx.tasks;
      var matchingTasks := Filter(allTasks, SameTaskSeries(task));
      assert Filter(allTasks, NotAmong(matchingTasks[..0])) == allTasks by {
        FilterKeepsAll(allTasks, NotAmong(matchingTasks[..0]));
      }
      for k := 0 to |matchingTasks|
        invariant ctx.tasks == Filter(allTasks, NotAmong(matchingTasks[..k]))
        invariant ctx.classes == old(ctx.classes) && ctx.exams == old(ctx.exams)
        invariant ctx.otherEvents == old(ctx.otherEvents) && ctx.streaks == old(ctx.streaks)
      {
        DeleteStep(allTasks, matchingTasks, k);
        ctx.tasks := Filter(ctx.tasks, NotAmong([matchingTasks[k]]));
      }
      assert matchingTasks[..|matchingTasks|] == matchingTasks;
      RemoveSelected(allTasks, SameTaskSeries(task), NotSameTaskSeries(task));
    } else {
      ctx.tasks := Filter(ctx.tasks, NotAmong([task]));
    }
  }

  /**
   * Deleting a repeating series removes every repeating task with the same
   * title and details, the task itself included, and keeps every other task;
   * deleting one task removes exactly the records of that task.
   */
  lemma TaskDeletionExact(tasks: seq<TaskRecord>, task: TaskRecord, deleteAll: bool)
    ensures deleteAll && task.occurs == "Repeating" ==>
      && task !in TasksAfterDelete(tasks, task, deleteAll)
      && forall t :: t in TasksAfterDelete(tasks, task, deleteAll) <==>
        t in tasks && !(t.title == task.title && t.details == task.details && t.occurs == "Repeating")
    ensures !(deleteAll && task.occurs == "Repeating") ==>
      forall t :: t in TasksAfterDelete(tasks, task, deleteAll) <==> t in tasks && t != task
  {
    var r := TasksAfterDelete(tasks, task, deleteAll);
    forall t | t in tasks ensures t in r <==> (if deleteAll && task.occurs == "Repeating" then NotSameTaskSeries(task)(t) else NotAmong([task])(t)) {
      var k :| 0 <= k < |tasks| && tasks[k] == t;
    }
  }

  /** An exam of the same repeating series as `exam`. */
  function SameExamSeries(exam: ExamRecord): (r: ExamRecord -> bool)
    ensures r(exam) <==> exam.isRepeating
    ensures forall e :: r(e) ==> e.isRepeating
    ensures forall e :: r(e) <==> !NotSameExamSeries(exam)(e)
  {
    (e: ExamRecord) => e.name == exam.name && e.examType == exam.examType && e.isRepeating
  }

  function NotSameExamSeries(exam: ExamRecord): ExamRecord -> bool
  {
    (e: ExamRecord) => !(e.name == exam.name && e.examType == exam.examType && e.isRepeating)
  }

  /** The exams left by `deleteExam(deleteAll:)`. */
  function ExamsAfterDelete(exams: seq<ExamRecord>, exam: ExamRecord, deleteAll: bool): (r: seq<ExamRecord>)
    ensures exam !in r && |r| <= |exams|
    ensures forall k :: 0 <= k < |r| ==> r[k] in exams
  {
    if deleteAll && exam.isRepeating then Filter(exams, NotSameExamSeries(exam))
    else Filter(exams, NotAmong([exam]))
  }

  /** `deleteExam(deleteAll:)`. */
  method DeleteExam(ctx: ModelContext, exam: ExamRecord, deleteAll: bool)
    modifies ctx
    ensures ctx.exams == ExamsAfterDelete(old(ctx.exams), exam, deleteAll)
    ensures ctx.classes == old(ctx.classes) && ctx.tasks == old(ctx.tasks)
    ensures ctx.otherEvents == old(ctx.otherEvents) && ctx.streaks == old(ctx.streaks)
  {
    if deleteAll && exam.isRepeating {
      var allExams := ctx.exams;
      var matchingExams := Filter(allExams, SameExamSeries(exam));
      assert Filter(allExams, NotAmong(matchingExams[..0])) == allExams by {
        FilterKeepsAll(allExams, NotAmong(matchingExams[..0]));
      }
      for k := 0 to |matchingExams|
        invariant ctx.exams == Filter(allExams, NotAmong(matchingExams[..k]))
        invariant ctx.classes == old(ctx.classes) && ctx.tasks == old(ctx.tasks)
        invariant ctx.otherEvents == old(ctx.otherEvents) && ctx.streaks == old(ctx.streaks)
      {
        DeleteStep(allExams, matchingExams, k);
        ctx.exams := Filter(ctx.exams, NotAmong([matchingExams[k]]));
      }
      assert matchingExams[..|matchingExams|] == matchingExams;
      RemoveSelected(allExams, SameExamSeries(exam), NotSameExamSeries(exam));
    } else {
      ctx.exams := Filter(ctx.exams, NotAmong([exam]));
    }
  }

  /**
   * Deleting a repeating exam series removes every repeating exam with the
   * same name and type, the exam included, and keeps the rest; otherwise
   * only the exam's own records go.
   */
  lemma ExamDeletionExact(exams: seq<ExamRecord>, exam: ExamRecord, deleteAll: bool)
    ensures deleteAll && exam.isRepeating ==>
      && exam !in ExamsAfterDelete(exams, exam, deleteAll)
      && forall e :: e in ExamsAfterDelete(exams, exam, deleteAll) <==>
        e in exams && !(e.name == exam.name && e.examType == exam.examType && e.isRepeating)
    ensures !(deleteAll && exam.isRepeating) ==>
      forall e :: e in ExamsAfterDelete(exams, exam, deleteAll) <==> e in exams && e != exam
  {
    var r := ExamsAfterDelete(exams, exam, deleteAll);
    forall e | e in exams ensures e in r <==> (if deleteAll && exam.isRepeating then NotSameExamSeries(exam)(e) else NotAmong([exam])(e)) {
      var k :| 0 <= k < |exams| && exams[k] == e;
    }
  }
}
