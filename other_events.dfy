/**
 * The "Other Events" screens (OtherEventViews.swift): the Current tab groups
 * the events of the next seven days by date, the Past tab those of the
 * fourteen days before today; the detail screen deletes one event.
 *
 * Both `grouped` properties fill a dictionary `dateMap` from day to events
 * in a loop, then list its entries sorted by date.  The entries of a map
 * whose keys are days of a fixed window, sorted by date, are the window's
 * days that have an entry, taken in order; that is how `Sections` lists them.
 */
module OtherEvents {
  import opened Dates
  import opened Sequences
  import opened Records
  import opened Context
  import opened Buckets
  import Detail

  /** The `daysShown` of the two tabs. */
  const CurrentDaysShown: int := 7
  const PastDaysShown: int := 14

  function EventDate(e: OtherEventRecord): Instant { e.date }
  function EventTime(e: OtherEventRecord): int { e.time }

  /** `dateMap` once the loop has seen `events`, keeping the days in `[lo, hi)`. */
  function DateMapOf(events: seq<OtherEventRecord>, lo: Instant, hi: Instant): (m: map<Instant, seq<OtherEventRecord>>)
    ensures forall d :: d in m ==> lo <= d < hi && m[d] != []
  {
    if events == [] then map[]
    else
      var m := DateMapOf(events[..|events| - 1], lo, hi);
      var event := events[|events| - 1];
      var eventDate := StartOfDay(event.date);
      if lo <= eventDate < hi then
        m[eventDate := (if eventDate in m then m[eventDate] else []) + [event]]
      else m
  }

  /**
   * The dictionary holds a key exactly for the window's days that have an
   * event, and under it those events in their stored order.
   */
  lemma {:induction false} DateMapIsGrouping(events: seq<OtherEventRecord>, lo: Instant, hi: Instant, d: Instant)
    ensures var m := DateMapOf(events, lo, hi);
      && (d in m ==> lo <= d < hi)
      && (lo <= d < hi ==> (d in m <==> Filter(events, OnDay(EventDate, d)) != []))
      && (d in m ==> m[d] == Filter(events, OnDay(EventDate, d)))
  {
    if events != [] {
      var init, event := events[..|events| - 1], events[|events| - 1];
      assert events == init + [event];
      DateMapIsGrouping(init, lo, hi, d);
      FilterSnoc(init, event, OnDay(EventDate, d));
      var m := DateMapOf(init, lo, hi);
      var eventDate := StartOfDay(event.date);
      assert EventDate(event) == event.date;
      if lo <= eventDate < hi && eventDate == d {
        assert DateMapOf(events, lo, hi)[d] == (if d in m then m[d] else []) + [event];
        assert Filter(events, OnDay(EventDate, d)) == Filter(init, OnDay(EventDate, d)) + [event];
      } else if eventDate != d {
        assert Filter(events, OnDay(EventDate, d)) == Filter(init, OnDay(EventDate, d));
        assert d in DateMapOf(events, lo, hi) <==> d in m;
      } else {
        assert DateMapOf(events, lo, hi) == m;
      }
    }
  }

  /** The `n` days from midnight `first`, one step of `step` days apart. */
  function WindowDays(first: Instant, n: nat, step: int): (r: seq<Instant>)
    ensures |r| == n
    ensures forall k :: 0 <= k < n ==> r[k] == AddDays(first, k * step)
  {
    seq(n, k requires 0 <= k < n => AddDays(first, k * step))
  }

  /** `CurrentOtherEventView.grouped` as a value. */
  function CurrentGroupedOf(events: seq<OtherEventRecord>, now: Instant): (r: seq<Bucket<OtherEventRecord>>)
    ensures |r| <= CurrentDaysShown
    ensures forall i :: 0 <= i < |r| ==>
      StartOfDay(now) <= r[i].date < AddDays(StartOfDay(now), CurrentDaysShown) && r[i].items != []
  {
    var start := StartOfDay(now);
    var m := DateMapOf(events, start, AddDays(start, CurrentDaysShown));
    var r := Sections(m, WindowDays(start, CurrentDaysShown, 1), EventTime);
    assert forall i :: 0 <= i < |r| ==> r[i].date in m && |r[i].items| == |m[r[i].date]|;
    r
  }

  /** `PastOtherEventView.grouped` as a value: latest day first. */
  function PastGroupedOf(events: seq<OtherEventRecord>, now: Instant): (r: seq<Bucket<OtherEventRecord>>)
    ensures |r| <= PastDaysShown
    ensures forall i :: 0 <= i < |r| ==>
      AddDays(StartOfDay(now), -PastDaysShown) <= r[i].date < StartOfDay(now) && r[i].items != []
  {
    var today := StartOfDay(now);
    var start := AddDays(today, -PastDaysShown);
    var m := DateMapOf(events, start, today);
    var r := Sections(m, WindowDays(AddDays(today, -1), PastDaysShown, -1), EventTime);
    assert forall i :: 0 <= i < |r| ==> r[i].date in m && |r[i].items| == |m[r[i].date]|;
    r
  }

  /** The loop that fills `dateMap`, shared by both tabs. */
  method FillDateMap(allEvents: seq<OtherEventRecord>, start: Instant, end: Instant)
    returns (dateMap: map<Instant, seq<OtherEventRecord>>)
    ensures dateMap == DateMapOf(allEvents, start, end)
  {
    dateMap := map[];
    for i := 0 to |allEvents|
      invariant dateMap == DateMapOf(allEvents[..i], start, end)
    {
      var event := allEvents[i];
      assert allEvents[..i + 1][..i] == allEvents[..i];
      var eventDate := StartOfDay(event.date);
      if eventDate >= start && eventDate < end {
        if eventDate !in dateMap {
          dateMap := dateMap[eventDate := []];
        }
        dateMap := dateMap[eventDate := dateMap[eventDate] + [event]];
      }
    }
    assert allEvents[..|allEvents|] == allEvents;
  }

  /** `CurrentOtherEventView.grouped`. */
  method CurrentGrouped(ctx: ModelContext, now: Instant) returns (grouped: seq<Bucket<OtherEventRecord>>)
    ensures grouped == CurrentGroupedOf(ctx.otherEvents, now)
  {
    var start := StartOfDay(now);
    var end := AddDays(start, CurrentDaysShown);
    var dateMap := FillDateMap(ctx.otherEvents, start, end);
    grouped := Sections(dateMap, WindowDays(start, CurrentDaysShown, 1), EventTime);
  }

  /** `PastOtherEventView.grouped`. */
  method PastGrouped(ctx: ModelContext, now: Instant) returns (grouped: seq<Bucket<OtherEventRecord>>)
    ensures grouped == PastGroupedOf(ctx.otherEvents, now)
  {
    var today := StartOfDay(now);
    var start := AddDays(today, -PastDaysShown);
    var dateMap := FillDateMap(ctx.otherEvents, start, today);
    grouped := Sections(dateMap, WindowDays(AddDays(today, -1), PastDaysShown, -1), EventTime);
  }

  /** One day's events, sorted by time, are exactly the events on that day. */
  lemma DayEvents(events: seq<OtherEventRecord>, d: Instant, e: OtherEventRecord)
    ensures var items := SortBy(Filter(events, OnDay(EventDate, d)), EventTime);
      e in items <==> e in events && StartOfDay(e.date) == d
  {
    GroupMembers(events, EventDate, EventTime, d, e);
    assert EventDate(e) == e.date;
  }

  /** A section of the grouped map holds that day's events and is not empty. */
  lemma SectionContents(events: seq<OtherEventRecord>, lo: Instant, hi: Instant, d: Instant, e: OtherEventRecord)
    requires d in DateMapOf(events, lo, hi)
    ensures var items := SortBy(DateMapOf(events, lo, hi)[d], EventTime);
      && items != []
      && (e in items <==> e in events && StartOfDay(e.date) == d)
  {
    var m := DateMapOf(events, lo, hi);
    DateMapIsGrouping(events, lo, hi, d);
    assert m[d] == Filter(events, OnDay(EventDate, d));
    DayEvents(events, d, e);
  }

  /** An event of the window shows in the section of its day. */
  lemma EventHasSection(events: seq<OtherEventRecord>, lo: Instant, hi: Instant, days: seq<Instant>, e: OtherEventRecord)
    requires forall d :: d in days <==> lo <= d < hi && d % MinutesPerDay == 0
    requires e in events && lo <= StartOfDay(e.date) < hi
    ensures var r := Sections(DateMapOf(events, lo, hi), days, EventTime);
      exists i :: 0 <= i < |r| && r[i].date == StartOfDay(e.date)
  {
    var d := StartOfDay(e.date);
    var m := DateMapOf(events, lo, hi);
    DateMapIsGrouping(events, lo, hi, d);
    var k :| 0 <= k < |events| && events[k] == e;
    assert EventDate(events[k]) == e.date;
    assert e in Filter(events, OnDay(EventDate, d));
    SectionsCover(m, days, EventTime, d);
  }

  /**
   * What a tab shows, given the window's days in display order: every
   * section is a day of the window holding exactly that day's events,
   * sorted by time, and none is empty; an event shows exactly when its day
   * lies in the window.
   */
  lemma SectionsExact(events: seq<OtherEventRecord>, lo: Instant, hi: Instant, days: seq<Instant>)
    requires forall d :: d in days <==> lo <= d < hi && d % MinutesPerDay == 0
    ensures var r := Sections(DateMapOf(events, lo, hi), days, EventTime);
      && (forall i :: 0 <= i < |r| ==> lo <= r[i].date < hi && r[i].items != [])
      && (forall i :: 0 <= i < |r| ==> SortedBy(r[i].items, EventTime))
      && (forall i, e :: 0 <= i < |r| ==> (e in r[i].items <==> e in events && StartOfDay(e.date) == r[i].date))
      && (forall e :: e in events ==>
            ((exists i :: 0 <= i < |r| && e in r[i].items) <==> lo <= StartOfDay(e.date) < hi))
  {
    var m := DateMapOf(events, lo, hi);
    var r := Sections(m, days, EventTime);
    forall i, e | 0 <= i < |r|
      ensures r[i].items != []
      ensures e in r[i].items <==> e in events && StartOfDay(e.date) == r[i].date
    {
      SectionContents(events, lo, hi, r[i].date, e);
    }
    forall e | e in events && lo <= StartOfDay(e.date) < hi
      ensures exists i :: 0 <= i < |r| && e in r[i].items
    {
      EventHasSection(events, lo, hi, days, e);
    }
  }

  /** The days of the Current tab: today and the six days after it. */
  lemma CurrentDays(now: Instant)
    ensures var start := StartOfDay(now);
      var days := WindowDays(start, CurrentDaysShown, 1);
      && Ascending(days)
      && forall d :: d in days <==> start <= d < AddDays(start, CurrentDaysShown) && d % MinutesPerDay == 0
  {
    var start := StartOfDay(now);
    var days := WindowDays(start, CurrentDaysShown, 1);
    forall d | start <= d < AddDays(start, CurrentDaysShown) && d % MinutesPerDay == 0
      ensures d in days
    {
      DayInWindow(start, d, CurrentDaysShown);
      var k :| 0 <= k < CurrentDaysShown && d == AddDays(start, k);
      assert days[k] == d;
    }
  }

  /** The days of the Past tab: yesterday back to fourteen days ago. */
  lemma PastDays(now: Instant)
    ensures var today := StartOfDay(now);
      var days := WindowDays(AddDays(today, -1), PastDaysShown, -1);
      && Descending(days)
      && forall d :: d in days <==> AddDays(today, -PastDaysShown) <= d < today && d % MinutesPerDay == 0
  {
    var today := StartOfDay(now);
    var start := AddDays(today, -PastDaysShown);
    var days := WindowDays(AddDays(today, -1), PastDaysShown, -1);
    forall d | start <= d < today && d % MinutesPerDay == 0
      ensures d in days
    {
      DayInWindow(start, d, PastDaysShown);
      var k :| 0 <= k < PastDaysShown && d == AddDays(start, k);
      assert days[PastDaysShown - 1 - k] == d;
    }
  }

  /**
   * The Current tab: days ascending, no empty section, each section that
   * day's events sorted by time; an event shows exactly when its day lies in
   * `[today, today + 7 days)`, in the one section of its day.
   */
  lemma CurrentGroupedExact(events: seq<OtherEventRecord>, now: Instant)
    ensures var r := CurrentGroupedOf(events, now);
      var start := StartOfDay(now);
      && (forall i, j :: 0 <= i < j < |r| ==> r[i].date < r[j].date)
      && (forall i :: 0 <= i < |r| ==> r[i].items != [] && SortedBy(r[i].items, EventTime))
      && (forall i, e :: 0 <= i < |r| ==> (e in r[i].items <==> e in events && StartOfDay(e.date) == r[i].date))
      && (forall e :: e in events ==>
            ((exists i :: 0 <= i < |r| && e in r[i].items) <==> start <= StartOfDay(e.date) < AddDays(start, 7)))
  {
    var start := StartOfDay(now);
    var hi := AddDays(start, CurrentDaysShown);
    var days := WindowDays(start, CurrentDaysShown, 1);
    var m := DateMapOf(events, start, hi);
    assert CurrentGroupedOf(events, now) == Sections(m, days, EventTime);
    assert hi == AddDays(start, 7);
    CurrentDays(now);
    SectionsAscending(m, days, EventTime);
    SectionsExact(events, start, hi, days);
  }

  /**
   * The Past tab: days descending, no empty section, each section that
   * day's events sorted by time; an event shows exactly when its day lies in
   * `[today - 14 days, today)`, in the one section of its day.
   */
  lemma PastGroupedExact(events: seq<OtherEventRecord>, now: Instant)
    ensures var r := PastGroupedOf(events, now);
      var today := StartOfDay(now);
      && (forall i, j :: 0 <= i < j < |r| ==> r[i].date > r[j].date)
      && (forall i :: 0 <= i < |r| ==> r[i].items != [] && SortedBy(r[i].items, EventTime))
      && (forall i, e :: 0 <= i < |r| ==> (e in r[i].items <==> e in events && StartOfDay(e.date) == r[i].date))
      && (forall e :: e in events ==>
            ((exists i :: 0 <= i < |r| && e in r[i].items) <==> AddDays(today, -14) <= StartOfDay(e.date) < today))
  {
    var today := StartOfDay(now);
    var lo := AddDays(today, -PastDaysShown);
    var days := WindowDays(AddDays(today, -1), PastDaysShown, -1);
    var m := DateMapOf(events, lo, today);
    assert PastGroupedOf(events, now) == Sections(m, days, EventTime);
    assert lo == AddDays(today, -14);
    PastDays(now);
    SectionsDescending(m, days, EventTime);
    SectionsExact(events, lo, today, days);
  }

  /** No event shows on both tabs; today's events show on the Current tab only. */
  lemma TabsDisjoint(events: seq<OtherEventRecord>, now: Instant, e: OtherEventRecord)
    requires e in events
    ensures var current := CurrentGroupedOf(events, now);
      var past := PastGroupedOf(events, now);
      && !((exists i :: 0 <= i < |current| && e in current[i].items) && (exists j :: 0 <= j < |past| && e in past[j].items))
      && (SameDay(e.date, now) ==> exists i :: 0 <= i < |current| && e in current[i].items)
  {
    CurrentGroupedExact(events, now);
    PastGroupedExact(events, now);
  }

  /** `OtherEventDetailView`'s delete: the event leaves the store, everything else stays in order. */
  method DeleteOtherEvent(ctx: ModelContext, event: OtherEventRecord)
    modifies ctx
    ensures ctx.otherEvents == Filter(old(ctx.otherEvents), Detail.NotAmong([event]))
    ensures event !in ctx.otherEvents
    ensures forall e :: e in old(ctx.otherEvents) && e != event ==> e in ctx.otherEvents
    ensures ctx.tasks == old(ctx.tasks) && ctx.classes == old(ctx.classes)
    ensures ctx.exams == old(ctx.exams) && ctx.streaks == old(ctx.streaks)
  {
    ctx.otherEvents := Filter(ctx.otherEvents, Detail.NotAmong([event]));
  }
}
