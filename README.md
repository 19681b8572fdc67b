# SmartPath scheduling core, in Dafny

SmartPath is an iOS student planner. Its screens hold classes, exams, tasks,
other events and a log of completed activities (the "streak"). The logic
behind those screens is mostly small computations over the stored records and
the current instant. This project models that logic and proves what the
screens promise:

- **Home screen** (`Home`). One predicate, `OccursOn`, decides whether a class,
  exam or task happens today. Each copy of that test inside the view agrees
  with it:
  - the three counters;
  - the three loops that build today's list;
  - the tab filter.

  The list is sorted by start time, and a non-empty list has exactly one "up next"
  card.
- **Streak** (`Streak`, `Detail`, `Checklist`):
  - the backward scan of `currentStreak`;
  - `hasActivityToday` and the recent-activity list;
  - the duplicate check of `addToStreak`;
  - the unconditional insert of `addPomodoroToStreak`.
- **Task and exam lifecycle** (`Detail`): marking a task complete, the
  progress slider, and deleting one record or a whole repeating series.
- **Pomodoro timer** (`Timer`): the `TimerViewModel` class and its phase
  machine.
- **Windowed lists**:
  - the 14-day task checklist (`Checklist`);
  - the Current and Past tabs of other events (`OtherEvents`, `Buckets`);
  - the 7-day event and task lists (`WeekLists`, `Buckets`);
  - the calendar's `CalendarViewModel` with its toggles and navigation
    (`CalendarModel`);
  - the calendar's integer helpers: hour labels, minutes into the day, the
    month grid, the day and week intervals (`CalendarLayout`).
- **Colours and onboarding** (`Theme`, `Onboarding`):
  - `Color(hex:)`, down to the scanner it relies on;
  - the onboarding form's validity test and the profile it stores.

Supporting modules:

- `Dates`: instants as whole minutes since 1970-01-01 00:00 in a fixed time
  zone. That day was a Thursday. Midnights, day numbers and weekdays are
  arithmetic on those minutes.
- `Text`: the string operations the views use, namely trimming, `prefix`,
  case mapping, `contains` and decimal rendering.
- `Sequences`: `filter`, `count`, `map` and a stable insertion sort standing
  for `sorted`.
- `SwiftInt`: Swift's truncating `/` and `%`.
- `Records`, `Items`, `Context`: the stored records, the sample-data items
  and the `ModelContext`, which is a class with one sequence field per record
  type.

"Now" is always a parameter. Records are values; their identity is an `id`
field.

State changes in place, as in the app:

- `TimerViewModel`, `CalendarViewModel`, the onboarding view and the
  `ModelContext` are classes.
- Their methods state the whole new state in terms of the old one.
- The app's loops are `for` and `while` loops with invariants, proved
  against a specification function:
  - the three append loops of `todayEvents`;
  - the `dateMap` fill;
  - the checklist loop;
  - the streak scan;
  - the hex scanner.

## Model

| member | source | states |
|---|---|---|
| Dates.StartOfDay | SmartPath/Views/HomeView.swift:149 | the midnight at or before `t` and less than a day before it |
| Dates.MinuteOfDay | SmartPath/Views/CalendarView.swift:194-197 | lies in [0, 1440) and adds back to `t` from its midnight |
| Dates.WeekdayNumber | SmartPath/Views/CalendarView.swift:263 | a Foundation weekday, 1 (Sunday) to 7 |
| Dates.SettingTime | SmartPath/Models/TaskItem.swift:51-53 | the same day, `hour*60 + minute` past its midnight |
| Dates.StartOfDayAddDays | SmartPath/Views/EventListView.swift:18 | adding whole days commutes with taking the start of the day |
| Text.TrimStart | SmartPath/Views/Theme.swift:18 | a suffix of the input; everything dropped is whitespace; the result starts with non-whitespace or is empty |
| Text.TrimEnd | SmartPath/Views/Theme.swift:18 | a prefix of the input; everything dropped is whitespace; the result ends with non-whitespace or is empty |
| Text.Trim | SmartPath/Views/Theme.swift:18 | a substring of the input with non-whitespace at both ends, or empty |
| Text.TrimDropsOnlyWhitespace | SmartPath/Views/Theme.swift:18 | the trimmed text sits in the input between a whitespace-only head and a whitespace-only tail: only outer whitespace is dropped |
| Text.TrimSkipsWhitespace | SmartPath/Views/Theme.swift:18 | a leading whitespace character makes no difference to the trimmed text |
| Text.TrimEmptyIffBlank | SmartPath/Views/OnboardingView.swift:98-100 | trimming yields "" exactly when every character is whitespace |
| Text.Prefix | SmartPath/Views/HomeView.swift:156-157 | the first `min(n, length)` characters |
| Text.Lowercased | SmartPath/Views/HomeView.swift:350 | same length, each letter lower-cased |
| Text.Uppercased | SmartPath/Views/HomeView.swift:232 | same length, each letter upper-cased |
| Text.ContainsPrefixOf | SmartPath/Views/HomeView.swift:351 | a string containing "chemistry" contains "chem" (any prefix of a contained word) |
| Text.NatStringRoundTrip | SmartPath/Views/CalendarView.swift:189 | reading a rendered number back gives the number |
| Text.IntStringSign | SmartPath/Views/TimerViews.swift:248 | a rendered integer starts with '-' exactly when it is negative |
| Text.IntStringInjective | SmartPath/Views/TimerViews.swift:246-248 | different integers render differently |
| Text.Pad2 | SmartPath/ViewModel/TimerViewModel.swift:121 | `%02d`: at least two digits, exactly two below 100, reading back as `n` |
| Text.LastIndexOfJoin | SmartPath/Views/TimerViews.swift:248 | in `x + "\|" + y` with no bar in `y`, the last bar is at `\|x\|` |
| Text.SplitAtLastSeparator | SmartPath/Views/TimerViews.swift:248 | `x + sep + y` splits back uniquely when `y` has no separator |
| SwiftInt.SwiftRemainder | SmartPath/Views/CalendarView.swift:185-187 | Swift `%`: Euclidean for non-negative dividends, sign of the dividend otherwise |
| SwiftInt.SwiftDivision | SmartPath/ViewModel/TimerViewModel.swift:119-120 | `a == (a / b) * b + a % b` with the remainder's magnitude below `b` and the dividend's sign |
| Sequences.Filter | SmartPath/ViewModel/CalendarViewModel.swift:56 | keeps only passing elements of the input, and every passing element |
| Sequences.FilterIndices | SmartPath/ViewModel/CalendarViewModel.swift:55-77 | the kept elements sit at strictly increasing positions of the input (order kept) |
| Sequences.Count | SmartPath/Views/HomeView.swift:151-159 | the length of the filtered sequence |
| Sequences.CountMultiset | SmartPath/Views/HomeView.swift:325-329 | a count depends only on the multiset of elements, so sorting keeps it |
| Sequences.FilterFilter | SmartPath/Views/EventListView.swift:19-25 | filtering twice is filtering once by both tests |
| Sequences.SortBy | SmartPath/Views/HomeView.swift:325-329 | the result is sorted on the key and is a permutation of the input |
| Sequences.Map | SmartPath/Views/TimerViews.swift:220 | same length, element `k` is `f` of input element `k` |
| Records.TypeLabel | SmartPath/Views/OtherEventViews.swift:203 | `customType` when the type is "Other", the type itself otherwise |
| Items.TaskTypeFromRawValue | SmartPath/Models/TaskItem.swift:10-15 | `TaskType(rawValue:)`: a case only for its own raw value, `nil` for a string no case has |
| Items.TaskRepeatFromRawValue | SmartPath/Models/TaskItem.swift:17-21 | `TaskRepeat(rawValue:)`: likewise |
| Items.EventTypeFromRawValue | SmartPath/Models/EventItem.swift:10-18 | `EventType(rawValue:)`: likewise |
| Items.RawValuesRoundTrip | SmartPath/Models/EventItem.swift:10-18 | every case is read back from its raw value |
| Items.TaskSampleData | SmartPath/Models/TaskItem.swift:44-62 | five tasks due today, tomorrow or the day after, due times on the reference day, two weekly |
| Items.EventSampleData | SmartPath/Models/EventItem.swift:41-62 | four events on days 0, 0, 1 and 3, each starting before it ends on its own day, weekly exactly for the class sessions |
| Home.MissingBoundNeverOccurs | SmartPath/Views/HomeView.swift:169-181 | a repeating exam or task without both bounds never happens |
| Home.OccursOn | SmartPath/Views/HomeView.swift:146-214 | a one-time item happens exactly on the midnight of the day holding its date; a weekly one only between both of its bounds |
| Home.DayNameMatches | SmartPath/Views/HomeView.swift:153-158 | a stored day name matches exactly when it has at least three characters and they are today's "EEE" abbreviation |
| Home.ScheduledOn | SmartPath/Views/HomeView.swift:153-158 | `days.contains(where:)`: some stored day name starts with today's three-letter abbreviation |
| Home.ClassBoundsAreRaw | SmartPath/Views/HomeView.swift:152 | class bounds are not normalised: a class starting later today is not counted, an exam with the same bounds is |
| Home.ClassCount | SmartPath/Views/HomeView.swift:146-160 | the inline filter counts exactly the classes `OccursOn` today |
| Home.ExamCount | SmartPath/Views/HomeView.swift:162-187 | the inline filter counts exactly the exams `OccursOn` today |
| Home.TaskCount | SmartPath/Views/HomeView.swift:189-214 | the inline filter counts exactly the tasks `OccursOn` today |
| Home.BackgroundImageForSubject | SmartPath/Views/HomeView.swift:349-366 | never the memo glyph; the test tube exactly when "chem" occurs; books exactly when no keyword occurs |
| Home.MarkFirst | SmartPath/Views/HomeView.swift:238 | only the first appended card is flagged up next, nothing else changes |
| Home.ClassEntry | SmartPath/Views/HomeView.swift:230-240 | a class card: the class kind, never the memo, the class's start and end, the teacher as subtitle, not yet up next |
| Home.ExamEntry | SmartPath/Views/HomeView.swift:270-280 | an exam card: the exam kind, it ends `durationMinutes` after it starts, its subtitle is the custom type for "Other" and the exam type otherwise |
| Home.TaskEntry | SmartPath/Views/HomeView.swift:309-319 | a task card: the exam kind, the memo glyph, a single time (the due time), the details as subtitle |
| Home.ClassTestAgrees | SmartPath/Views/HomeView.swift:224-229 | the class loop's test is `OccursOn` |
| Home.ExamTestAgrees | SmartPath/Views/HomeView.swift:249-267 | the exam loop's test is `OccursOn` |
| Home.TaskTestAgrees | SmartPath/Views/HomeView.swift:288-306 | the task loop's test is `OccursOn` |
| Home.AppendClasses | SmartPath/Views/HomeView.swift:222-244 | the loop appends a card per class happening today, up-next set on the first card overall |
| Home.AppendExams | SmartPath/Views/HomeView.swift:247-283 | likewise for exams |
| Home.AppendTasks | SmartPath/Views/HomeView.swift:286-322 | likewise for tasks, with the memo glyph |
| Home.TodayEvents | SmartPath/Views/HomeView.swift:216-330 | the three loops then the sort yield `TodayEventsOf` |
| Home.TodayEventsOf | SmartPath/Views/HomeView.swift:324-329 | sorted by start minute, and a permutation of the appended cards |
| Home.Appended | SmartPath/Views/HomeView.swift:216-322 | before sorting, one card per class, exam and task today (the three counts summed), and only the first card is up next |
| Home.EntryParts | SmartPath/Views/HomeView.swift:230-319 | class cards are the only class sessions; exam and task cards carry the exam type; only task cards carry the memo |
| Home.OneUpNext | SmartPath/Views/HomeView.swift:238-329 | a non-empty list has exactly one up-next card after sorting |
| Home.TodayEventsAgreeWithCounts | SmartPath/Views/HomeView.swift:146-330 | the list is sorted by start; its class cards number `classCount`, its memo cards `taskCount`, its exam-typed cards `examCount + taskCount` |
| Home.UpNextIsFirstAppended | SmartPath/Views/HomeView.swift:216-330 | the up-next card, after sorting, is the first card appended: today's first class, else its first exam, else its first task |
| Home.UpNextIsClassWhenAny | SmartPath/Views/HomeView.swift:230-240 | when some class happens today, the up-next card is a class |
| Home.TabSizes | SmartPath/Views/HomeView.swift:332-341 | the Classes tab has `classCount` cards, Tasks `taskCount`, Exams `examCount + taskCount` |
| Home.FilteredTodayEvents | SmartPath/Views/HomeView.swift:332-341 | each tab keeps exactly the cards of its kind: class sessions, exam-typed cards, memo cards |
| Home.Greeting | SmartPath/Views/HomeView.swift:130-138 | morning exactly for hours 5-11, afternoon 12-16, evening 17-21, night otherwise |
| Streak.DescendingDistinct | SmartPath/Views/StreakView.swift:154 | `Set(...).sorted(by: >)`: strictly descending, same elements |
| Streak.UniqueDates | SmartPath/Views/StreakView.swift:153-154 | the active days, latest first, each once |
| Streak.ActiveDays | SmartPath/Views/StreakView.swift:154 | every record's day is active, and every active day has a record |
| Streak.IsStreakOf | SmartPath/Views/StreakView.swift:146-167 | a positive streak means today is active and no active day lies after today |
| Streak.CurrentStreak | SmartPath/Views/StreakView.swift:146-167 | the scan returns the number of consecutive active days ending today |
| Streak.StreakScan | SmartPath/Views/StreakView.swift:157-164 | where the scan breaks is that streak |
| Streak.StreakUnique | SmartPath/Views/StreakView.swift:146-167 | the streak is determined by the set of active days, so duplicates on one day do not matter |
| Streak.StreakBounded | SmartPath/Views/StreakView.swift:149-166 | the streak never exceeds the number of distinct active days |
| Streak.SameDayRecordKeepsActiveDays | SmartPath/Views/StreakView.swift:154 | another record on an active day leaves the active days as they are |
| Streak.HasActivityToday | SmartPath/Views/StreakView.swift:169-174 | true exactly when today is an active day |
| Streak.StreakPositiveIffActiveToday | SmartPath/Views/StreakView.swift:157-174 | without future records the streak is positive exactly when today is active; a future record makes it 0 |
| Streak.StreakExtends | SmartPath/Views/StreakView.swift:157-164 | activity on the day before the run lengthens the streak by one (unless the run continues already) |
| Streak.RecentActivities | SmartPath/Views/StreakView.swift:176-184 | a permutation of the records from 14 days before today's midnight on, by `completedAt` descending |
| Streak.RecentActivitiesExact | SmartPath/Views/StreakView.swift:176-184 | a record is listed exactly when dated on or after the cutoff; completions descend |
| Streak.ActivityTypeLabel | SmartPath/Views/StreakView.swift:256-263 | "Task", "Exam", "Study" exactly for "task", "exam", "pomodoro"; "Activity" exactly otherwise |
| Detail.WithStreakIdempotent | SmartPath/Views/DetailViews.swift:234-257 | after `addToStreak` the activity is logged today, and a second call changes nothing |
| Detail.WithStreakKeepsNoDuplicates | SmartPath/Views/DetailViews.swift:240-246 | no same-day, same-type, same-title pair is ever created |
| Detail.WithStreak | SmartPath/Views/DetailViews.swift:234-257 | unchanged when the activity is already logged today; otherwise one record appended, for today, stamped now |
| Detail.AddToStreak | SmartPath/Views/DetailViews.swift:234-257 | the streak log becomes `WithStreak` of the old log; no other store changes |
| Detail.Completed | SmartPath/Views/DetailViews.swift:221-222 | completed at 100 per cent, every other field unchanged |
| Detail.ToggleCompletion | SmartPath/Views/DetailViews.swift:219-232 | an open task is completed and logged once; a completed task and the log stay as they are |
| Detail.SetProgress | SmartPath/Views/DetailViews.swift:143-160 | stores the value; at 100 completes and logs; below 100 reopens; other tasks untouched |
| Detail.SliderAt100IsCompletion | SmartPath/Views/DetailViews.swift:145-146 | sliding to 100 leaves the same task as the checkmark |
| Detail.DeleteStep | SmartPath/Views/DetailViews.swift:267-269 | deleting one more matching record is one more filter |
| Detail.RemoveSelected | SmartPath/Views/DetailViews.swift:264-269 | deleting what a filter selected keeps exactly what fails it |
| Detail.DeleteTask | SmartPath/Views/DetailViews.swift:259-277 | the tasks become `TasksAfterDelete`; other stores untouched |
| Detail.TasksAfterDelete | SmartPath/Views/DetailViews.swift:259-273 | the deleted task is gone, and only stored tasks remain |
| Detail.SameTaskSeries | SmartPath/Views/DetailViews.swift:264-266 | only repeating tasks match, the task itself matches exactly when it repeats, and it is the exact complement of the test the delete keeps; TaskDeletionExact gives its effect |
| Detail.TaskDeletionExact | SmartPath/Views/DetailViews.swift:259-273 | delete-all on a repeating task removes exactly the repeating tasks with its title and details; otherwise exactly that task |
| Detail.DeleteExam | SmartPath/Views/DetailViews.swift:518-535 | the exams become `ExamsAfterDelete`; other stores untouched |
| Detail.ExamsAfterDelete | SmartPath/Views/DetailViews.swift:518-532 | the deleted exam is gone, and only stored exams remain |
| Detail.SameExamSeries | SmartPath/Views/DetailViews.swift:523-525 | only repeating exams match, the exam itself matches exactly when it repeats, and it is the exact complement of the test the delete keeps; ExamDeletionExact gives its effect |
| Detail.ExamDeletionExact | SmartPath/Views/DetailViews.swift:518-532 | delete-all on a repeating exam removes exactly the repeating exams with its name and type; otherwise exactly that exam |
| Timer.OperationsKeepValid | SmartPath/ViewModel/TimerViewModel.swift:36-116 | every operation keeps the time left within the phase's full time; the focus count never drops |
| Timer.TotalSeconds | SmartPath/ViewModel/TimerViewModel.swift:100-116 | a whole number of minutes: the phase's setting times 60 |
| Timer.Transitioned | SmartPath/ViewModel/TimerViewModel.swift:94-98 | the new phase, running, its full time, the count kept; keeps a valid state valid |
| Timer.Completed | SmartPath/ViewModel/TimerViewModel.swift:75-92 | the phase changes (focus to a break, a break to focus), running, with the new phase's full time; only focus adds to the count |
| Timer.BreakAfter | SmartPath/ViewModel/TimerViewModel.swift:81-88 | never focus; for a non-negative count, the long break exactly when the count is a multiple of `max(1, longBreakInterval)` (FocusCompletion ties it to completion) |
| Timer.Ticked | SmartPath/ViewModel/TimerViewModel.swift:67-73 | above zero only the time left drops by one; at zero the phase changes, running, with its full time |
| Timer.ResetState | SmartPath/ViewModel/TimerViewModel.swift:57-60 | same phase and count, stopped, with the phase's full time |
| Timer.FocusCompletion | SmartPath/ViewModel/TimerViewModel.swift:81-88 | completing focus counts it and picks the long break exactly on multiples of `max(1, interval)`, with its full time, running |
| Timer.BreakCompletion | SmartPath/ViewModel/TimerViewModel.swift:89-90 | completing a break returns to focus with its full time, running, count unchanged |
| Timer.TicksCountDown | SmartPath/ViewModel/TimerViewModel.swift:67-73 | `n` ticks take `n` seconds off, never below 0; the next completes the phase |
| Timer.FormatClock | SmartPath/ViewModel/TimerViewModel.swift:118-122 | "MM:SS" whose minutes * 60 + seconds read back as the time left, seconds below 60 |
| Timer.Format02 | SmartPath/ViewModel/TimerViewModel.swift:121 | `%02d`: a non-negative value as at least two digits reading back as the value, exactly two below 100; a negative one with a leading minus |
| Timer.TimerViewModel.constructor | SmartPath/ViewModel/TimerViewModel.swift:18-34 | default settings, focus with its full time, stopped, no selection |
| Timer.TimerViewModel.ResetTimer | SmartPath/ViewModel/TimerViewModel.swift:100-108 | only the time left changes, to the given phase's full time; for the current phase that is `totalSecondsForPhase` |
| Timer.TimerViewModel.Start | SmartPath/ViewModel/TimerViewModel.swift:41-50 | running, nothing else changes |
| Timer.TimerViewModel.Pause | SmartPath/ViewModel/TimerViewModel.swift:52-55 | stopped, nothing else changes |
| Timer.TimerViewModel.Toggle | SmartPath/ViewModel/TimerViewModel.swift:36-39 | flips running, nothing else changes |
| Timer.TimerViewModel.Reset | SmartPath/ViewModel/TimerViewModel.swift:57-60 | stopped, phase unchanged, time left equal to `totalSecondsForPhase` |
| Timer.TimerViewModel.OpenSettingsApplied | SmartPath/ViewModel/TimerViewModel.swift:62-65 | the time left becomes `totalSecondsForPhase` under the current settings; nothing else changes |
| Timer.TimerViewModel.Transition | SmartPath/ViewModel/TimerViewModel.swift:94-98 | the new phase, running, time left equal to `totalSecondsForPhase` |
| Timer.TimerViewModel.HandlePhaseCompletion | SmartPath/ViewModel/TimerViewModel.swift:75-92 | the state becomes `Completed` of the old state, with the time left at `totalSecondsForPhase` |
| Timer.TimerViewModel.Tick | SmartPath/ViewModel/TimerViewModel.swift:67-73 | one second off while time is left, otherwise the phase completes |
| Timer.TimerViewModel.TotalSecondsForPhase | SmartPath/ViewModel/TimerViewModel.swift:110-116 | the time `reset` restores for the current phase; in a valid state the time left lies within it |
| Timer.TimerViewModel.FormattedTime | SmartPath/ViewModel/TimerViewModel.swift:118-122 | for a non-negative time left, "MM:SS" whose minutes * 60 + seconds read back as the time left, seconds below 60 |
| Checklist.Entries | SmartPath/Views/TimerViews.swift:203-218 | the pairs are exactly the tasks with a listing date, each keyed by that date |
| Checklist.ChecklistDate | SmartPath/Views/TimerViews.swift:206-217 | completed tasks are not listed; repeating ones are listed at the window start; one-time ones at their due day, exactly when it is in the window |
| Checklist.UpcomingTasksOf | SmartPath/Views/TimerViews.swift:197-221 | one task per listed entry, never more tasks than stored |
| Checklist.UpcomingTasks | SmartPath/Views/TimerViews.swift:197-221 | the loop and sort yield `UpcomingTasksOf` |
| Checklist.SortedEntries | SmartPath/Views/TimerViews.swift:220 | sorting by key and projecting keeps the listed tasks, ordered by key |
| Checklist.UpcomingTasksExact | SmartPath/Views/TimerViews.swift:197-221 | exactly the open tasks listed for `[today, today+14]`, ordered by listing date, repeating ones keyed at today |
| Checklist.ChecklistWindow | SmartPath/Views/TimerViews.swift:206-217 | a completed task is never listed; a one-time task is listed exactly when its due day is in `[today, today+14]` |
| Checklist.KeyIdentifies | SmartPath/Views/TimerViews.swift:245-249 | two tasks share a key exactly when title, due date and due time agree |
| Checklist.Key | SmartPath/Views/TimerViews.swift:245-249 | the title, then a bar, then the rest of the key |
| Checklist.Toggled | SmartPath/Views/TimerViews.swift:239-243 | the key flips membership, every other key keeps it |
| Checklist.ToggleTwice | SmartPath/Views/TimerViews.swift:239-243 | toggling twice restores the selection |
| Checklist.ToggleSelection | SmartPath/Views/TimerViews.swift:239-243 | the view model's selection becomes `Toggled`; the timer state is untouched |
| Checklist.AddPomodoroToStreak | SmartPath/Views/TimerViews.swift:121-134 | always appends one "pomodoro" record dated at today's midnight |
| Checklist.PomodoroRecord | SmartPath/Views/TimerViews.swift:121-134 | a "pomodoro" record dated at the midnight that begins the day of `now`, completed at `now` |
| Checklist.PomodoroNotDeduplicated | SmartPath/Views/TimerViews.swift:121-134 | two sessions on one day leave two same-day "pomodoro" records |
| CalendarModel.Shifted | SmartPath/ViewModel/CalendarViewModel.swift:35-48 | ±1 day in day mode, ±7 days in week mode, same time of day; ±1 month or unchanged in month mode |
| CalendarModel.TypeShown | SmartPath/ViewModel/CalendarViewModel.swift:58-67 | every type is shown with all event toggles on and none with all off; campus events and holidays follow the holiday toggle |
| CalendarModel.StepsUndo | SmartPath/ViewModel/CalendarViewModel.swift:35-48 | in day and week mode a step back undoes a step forward and vice versa |
| CalendarModel.VisibleEventsOf | SmartPath/ViewModel/CalendarViewModel.swift:55-70 | an event is kept exactly when its type's toggle is on (campus events follow holidays) and its day is in the closed range; the sample events' order is kept |
| CalendarModel.VisibleTasksOf | SmartPath/ViewModel/CalendarViewModel.swift:72-77 | empty with tasks off; otherwise exactly the tasks whose due day is in the closed range; the sample tasks' order is kept |
| CalendarModel.CalendarViewModel.VisibleEvents | SmartPath/ViewModel/CalendarViewModel.swift:55-70 | under the current toggles, exactly the sample events shown, in the sample data's order |
| CalendarModel.CalendarViewModel.VisibleTasks | SmartPath/ViewModel/CalendarViewModel.swift:72-77 | nothing with tasks off; otherwise exactly the sample tasks due in range, in their order |
| CalendarModel.CalendarViewModel.constructor | SmartPath/ViewModel/CalendarViewModel.swift:20-30 | day mode, anchored now, menu closed, every toggle on |
| CalendarModel.CalendarViewModel.GoToday | SmartPath/ViewModel/CalendarViewModel.swift:34 | only the anchor changes, to now |
| CalendarModel.CalendarViewModel.Previous | SmartPath/ViewModel/CalendarViewModel.swift:35-41 | the anchor becomes `Shifted` backward; nothing else changes |
| CalendarModel.CalendarViewModel.Next | SmartPath/ViewModel/CalendarViewModel.swift:42-48 | the anchor becomes `Shifted` forward; nothing else changes |
| CalendarModel.FewerTogglesFewerEvents | SmartPath/ViewModel/CalendarViewModel.swift:55-70 | turning toggles off never adds an event |
| CalendarLayout.DayInterval | SmartPath/Views/CalendarView.swift:41-45 | from the anchor's midnight, one day long, holding the anchor |
| CalendarLayout.WeekInterval | SmartPath/Views/CalendarView.swift:47-52 | seven days from a midnight on the first weekday, holding the anchor |
| CalendarLayout.DayViewShowsNextDay | SmartPath/ViewModel/CalendarViewModel.swift:68 | the closed range makes the day view show an event at the next midnight |
| CalendarLayout.HourLabel | SmartPath/Views/CalendarView.swift:184-190 | "12 AM" for 0, "h AM" for 1-11, "12 PM" for 12, "(h-12) PM" for 13-23, after reducing mod 24 |
| CalendarLayout.HourLabelsDistinct | SmartPath/Views/CalendarView.swift:184-190 | the 24 grid rows carry 24 different labels |
| CalendarLayout.MinutesIntoDay | SmartPath/Views/CalendarView.swift:192-198 | in [0, 1440) for valid components; 0 when both are missing |
| CalendarLayout.MinutesIntoDayOfNow | SmartPath/Views/CalendarView.swift:192-198 | the minutes since the instant's midnight |
| CalendarLayout.MonthDayWeekdayIsWeekday | SmartPath/Views/CalendarView.swift:263-266 | the weekday of day `d` counts on from the first day's weekday |
| CalendarLayout.RowsFor | SmartPath/Views/CalendarView.swift:268 | `ceil(total / 7)`: `(rows-1)*7 < total <= rows*7` |
| CalendarLayout.MonthGridAsWritten | SmartPath/Views/CalendarView.swift:263-268 | `leading` lies in [0, 6] and equals `firstWeekday - 1`; the rows hold every day |
| CalendarLayout.EveryDayInOneCell | SmartPath/Views/CalendarView.swift:277-294 | every day of the month shows in exactly one cell |
| CalendarLayout.MonthGridHeaderMismatch | SmartPath/Views/CalendarView.swift:266-273 | as written, every day sits under the header letter of the weekday after its own |
| CalendarLayout.MonthGridMondayFirst | SmartPath/Views/CalendarView.swift:266 | the Monday-first offset: `leading` is the header column of the first day's weekday |
| CalendarLayout.MonthGridHeaderAgrees | SmartPath/Views/CalendarView.swift:266-273 | with that offset every day sits under its own weekday |
| Buckets.DayGroup | SmartPath/Views/EventListView.swift:19-27 | one section: sorted on time, holding exactly the items on that day |
| Buckets.WeekBuckets | SmartPath/Views/EventListView.swift:13-30 | seven sections for today to today+6, each sorted, each holding exactly the items on its day |
| Buckets.WeekBucketsPartition | SmartPath/Views/EventListView.swift:19-29 | the section sizes add up to the number of items in the window |
| Buckets.Sections | SmartPath/Views/OtherEventViews.swift:54-55 | every section is a listed day with an entry, holding that day's entries sorted on time |
| Buckets.SectionsCover | SmartPath/Views/OtherEventViews.swift:54 | every listed day with an entry gets a section |
| Buckets.SectionsAscending | SmartPath/Views/OtherEventViews.swift:55 | ascending days give ascending sections |
| Buckets.SectionsDescending | SmartPath/Views/OtherEventViews.swift:132 | descending days give descending sections |
| WeekLists.EventListExact | SmartPath/Views/EventListView.swift:13-30 | seven sections, sorted by start; an event is in a section exactly when on its day; weekly events only on their own date; sizes add up to the in-window count |
| WeekLists.TaskListExact | SmartPath/Views/TaskListView.swift:13-35 | seven sections, sorted by due time; a task is in a section exactly when due that day; sizes add up to the in-window count |
| WeekLists.TaskInOneSection | SmartPath/Views/TaskListView.swift:22-33 | a task due in the window is in exactly one section; one due outside in none |
| WeekLists.EventListGrouped | SmartPath/Views/EventListView.swift:13-30 | seven sections, one per day from today, each sorted by start time |
| WeekLists.TaskListGrouped | SmartPath/Views/TaskListView.swift:13-35 | seven sections, one per day from today, each sorted by due time |
| OtherEvents.DateMapIsGrouping | SmartPath/Views/OtherEventViews.swift:44-52 | a day has an entry exactly when it is in the window and some event falls on it; the entry is that day's events in order |
| OtherEvents.DateMapOf | SmartPath/Views/OtherEventViews.swift:44-52 | every key is a day of the window and holds at least one event |
| OtherEvents.WindowDays | SmartPath/Views/OtherEventViews.swift:41-42 | `n` midnights one step apart |
| OtherEvents.FillDateMap | SmartPath/Views/OtherEventViews.swift:44-52 | the loop builds `DateMapOf` |
| OtherEvents.CurrentGrouped | SmartPath/Views/OtherEventViews.swift:38-56 | the Current tab's sections are `CurrentGroupedOf` |
| OtherEvents.PastGrouped | SmartPath/Views/OtherEventViews.swift:115-133 | the Past tab's sections are `PastGroupedOf` |
| OtherEvents.CurrentGroupedOf | SmartPath/Views/OtherEventViews.swift:38-56 | at most seven sections, each a day in `[today, today+7)` with at least one event |
| OtherEvents.PastGroupedOf | SmartPath/Views/OtherEventViews.swift:115-133 | at most fourteen sections, each a day in `[today-14, today)` with at least one event |
| OtherEvents.SectionsExact | SmartPath/Views/OtherEventViews.swift:44-55 | sections are window days, never empty, sorted by time; an event shows exactly when its day is in the window |
| OtherEvents.CurrentGroupedExact | SmartPath/Views/OtherEventViews.swift:36-56 | days ascending, no empty section, each sorted; an event shows exactly when its day is in `[today, today+7)` |
| OtherEvents.PastGroupedExact | SmartPath/Views/OtherEventViews.swift:113-133 | days descending, no empty section, each sorted; an event shows exactly when its day is in `[today-14, today)` |
| OtherEvents.TabsDisjoint | SmartPath/Views/OtherEventViews.swift:36-129 | no event shows on both tabs; today's events show on Current |
| OtherEvents.DeleteOtherEvent | SmartPath/Views/OtherEventViews.swift:325 | the event leaves the store; every other event stays, in order |
| Theme.HexRunLength | SmartPath/Views/Theme.swift:22 | the longest run of hex digits at the front |
| Theme.HexRunUnique | SmartPath/Views/Theme.swift:22 | that run is the only digit prefix ending at a non-digit or the end |
| Theme.HexValueAppend | SmartPath/Views/Theme.swift:22 | reading `a + b` is reading `a`, shifted by `b`'s width, plus `b` |
| Theme.SkipWhitespace | SmartPath/Views/Theme.swift:22 | the scanner skips exactly the leading whitespace |
| Theme.ScanDigits | SmartPath/Views/Theme.swift:22 | the digit loop yields the run's value, saturated at `UInt64.max` |
| Theme.ScanHexInt64 | SmartPath/Views/Theme.swift:21-22 | the scanner yields `ScannedValue` |
| Theme.ScannedValue | SmartPath/Views/Theme.swift:21-22 | at most `UInt64.max`, and 0 when no hex digit follows the optional prefix |
| Theme.ByteAt | SmartPath/Views/Theme.swift:25-33 | `(v >> 8k) & 0xFF` is a byte |
| Theme.Components | SmartPath/Views/Theme.swift:23-36 | every component is a byte |
| Theme.HexColor | SmartPath/Views/Theme.swift:15-38 | every component is a byte; white unless the stripped text has 6 or 8 characters |
| Theme.Stripped | SmartPath/Views/Theme.swift:18-19 | the trimmed text with at most one leading character dropped, and that one only when it is `#` |
| Theme.ParseHexColor | SmartPath/Views/Theme.swift:15-38 | trimming, one `#` dropped, scanning and the length switch yield `HexColor` |
| Theme.Hex2 | SmartPath/Views/Theme.swift:11-13 | two hex digits reading back as the byte |
| Theme.LeadingWhitespaceIgnored | SmartPath/Views/Theme.swift:18 | leading whitespace does not change the colour |
| Theme.HexColorOfDigits | SmartPath/Views/Theme.swift:18-23 | `#` and digits: the digit count picks the layout, their value is split |
| Theme.LayoutOfSix | SmartPath/Views/Theme.swift:24-28 | six characters give red, green, blue from bytes 2, 1, 0 and full opacity |
| Theme.LayoutOfEight | SmartPath/Views/Theme.swift:29-33 | eight characters give bytes 3, 2, 1, 0 as red, green, blue, opacity |
| Theme.RgbRoundTrip | SmartPath/Views/Theme.swift:24-28 | `#RRGGBB` parses to those bytes with full opacity |
| Theme.RgbaRoundTrip | SmartPath/Views/Theme.swift:29-33 | `#RRGGBBAA` parses to those four bytes |
| Theme.BackgroundColour | SmartPath/Views/Theme.swift:11 | `spBackground` is (245, 247, 243) opaque |
| Theme.PrimaryColour | SmartPath/Views/Theme.swift:12 | `spPrimary` is (61, 139, 125) opaque |
| Theme.SecondaryColour | SmartPath/Views/Theme.swift:13 | `spSecondary` is (44, 95, 84) opaque |
| Theme.DoubleHashIsWhite | SmartPath/Views/Theme.swift:19 | only one `#` is dropped: `##RRGGBB` is white |
| Theme.CountPicksLayout | SmartPath/Views/Theme.swift:21-28 | the layout follows the character count, not the digits read: `#12345G` is (0x01, 0x23, 0x45) |
| Theme.ScanStopsAtG | SmartPath/Views/Theme.swift:22 | the scanner stops at the first non-digit |
| Onboarding.TrimKeeps | SmartPath/Views/OnboardingView.swift:100-101 | a non-whitespace character survives trimming |
| Onboarding.ContainsAt | SmartPath/Views/OnboardingView.swift:101 | `contains("@")` is membership of '@' |
| Onboarding.IsFormValid | SmartPath/Views/OnboardingView.swift:97-102 | valid exactly when both names hold a non-whitespace character and the email holds '@' |
| Onboarding.NewStudent | SmartPath/Views/OnboardingView.swift:104-113 | the trimmed names and email are empty exactly when the field is blank, the email keeps its '@' exactly when the field has one, with the default major and an empty schedule |
| Onboarding.BlankFieldInvalid | SmartPath/Views/OnboardingView.swift:97-102 | a blank field makes the form invalid |
| Onboarding.TrimmedField | SmartPath/Views/OnboardingView.swift:111-113 | a field with content trims to a non-empty string with no outer whitespace |
| Onboarding.NewStudentOfValidForm | SmartPath/Views/OnboardingView.swift:110-116 | from a valid form the stored names are trimmed and non-empty and the email keeps its '@' |
| Onboarding.ProfileStore.constructor | SmartPath/Views/OnboardingView.swift:119-121 | an empty store |
| Onboarding.OnboardingView.constructor | SmartPath/Views/OnboardingView.swift:92 | empty fields, main app hidden |
| Onboarding.OnboardingView.ContinueDisabled | SmartPath/Views/OnboardingView.swift:87 | the Continue button is disabled exactly when a name is blank or the email lacks '@' |
| Onboarding.OnboardingView.CreateStudentProfile | SmartPath/Views/OnboardingView.swift:104-126 | appends the default major, an empty schedule and the trimmed student; shows the app; the fields stay |
| Onboarding.OnboardingView.TapContinue | SmartPath/Views/OnboardingView.swift:78-87 | a disabled button changes nothing; an enabled one creates the profile |

## Left out

- Persistence: `try? context.fetch` and `try? context.save` are taken to succeed. A failed fetch (which the counters turn into 0) and notifications are not modelled.
- Time zones, locales and `DateFormatter`:
  - instants are whole minutes in one fixed zone with no daylight saving;
  - "EEE" is the English abbreviation;
  - rendered times such as "h:mm a" are not modelled.
- The sort key of today's list is the start minute of the day. The source parses it back out of the rendered time string (`extractTimeFromString`); that parsing is not modelled.
- Sequences.SortBy: Swift's `sorted` does not promise stability. The model is one stable sort, so equal keys keep their input order here, which the source does not guarantee.
- Text.Lowercased, Text.Uppercased: ASCII letters only. No Unicode case mapping.
- Strings are sequences of Unicode scalars, not of Swift's grapheme clusters, and string equality is exact code-point equality, not Swift's canonical equivalence. So:
  - Theme.HexColor counts characters and drops the `#` per scalar: `"#3D\r\nB7D"` is six Swift characters, since "\r\n" is one, but seven scalars here, so the model gives white where Swift scans 0x3D;
  - Home.DayNameMatches takes `prefix(3)` per scalar;
  - Detail.SameTaskSeries, Detail.SameExamSeries and Detail.WithStreak compare titles, details and names exactly, so a precomposed and a decomposed "é" differ here but are equal in Swift.
- UUIDs are an integer `id`; deletion and `ForEach` identity compare by value.
- Month arithmetic (`date(byAdding: .month)`) is a parameter function. Only its effect on the anchor is stated.
- The week start (`yearForWeekOfYear`) is taken from a given first weekday.
- The month grid's `firstWeekday` and `daysCount` come from the calendar as inputs.
- Floating point: colour components are kept as bytes, so the division by 255 is left out. `ceil(Double(total) / 7.0)` is modelled as integer ceiling.
- The `Timer` scheduling, the run loop, the alert sound and `@AppStorage` persistence are left out. `start` only sets `isRunning`.
- Integer width: Swift's 64-bit `Int` traps on overflow and the model's integers are unbounded. Examples are `minutes * 60` in `resetTimer(for:)`, `completedFocusCount += 1` and `hour * 60 + minute`. Overflow traps are not modelled.
- Timer.OperationsKeepValid: assumes non-negative durations. The source does not check the settings.
- CalendarLayout.HourLabel: the contract covers non-negative hours, which are the grid's rows. For negative hours the body follows Swift's `%`.
- Checklist.KeyIdentifies: instants are whole minutes, so the key's seconds are always whole and render as an integer followed by ".0". Fractional seconds are not modelled.
- Streak records' `completedAt` is an integer given with the record.
- `StreakRecord`, `OtherEventRecord` and `Schedule` are not part of this model's sources; their fields are taken from their uses in the views.
- The `Student`, `Major` and `Schedule` initialisers used by onboarding do not match the types of the same name in `Models/`. Only the values passed are modelled.
- Text fields are not edited in the model. The onboarding view's fields are set only by its constructor.
- Sample-data services, catalogue and profile screens, images and the layout of views are not part of the core.
- Buckets.Sections: `dateMap.map { ... }.sorted(by date)` is modelled by walking the window's days in display order and keeping those with an entry. Since the map's keys are distinct midnights of the window, this gives the same sequence.

## Findings

| source | as written | input that shows it | evidently intended | confidence | as-written member | corrected member |
|---|---|---|---|---|---|---|
| SmartPath/Views/CalendarView.swift:266 | `leading = (firstWeekday + 6) % 7` gives `firstWeekday - 1` blank cells: a Sunday-first layout | a month whose day 1 is a Monday (`firstWeekday == 2`): one blank cell, so day 1 shows under the header's "T" | the Monday-first layout the comment and the `M T W T F S S` header describe: `(firstWeekday + 5) % 7` | not executed | CalendarLayout.MonthGridHeaderMismatch | CalendarLayout.MonthGridHeaderAgrees |
