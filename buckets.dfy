/**
 * Grouping items by the day they fall on, as the list views do with
 * `Calendar.startOfDay(for:)` and `Dictionary(grouping:by:)`.  The item type
 * is a parameter: `dayOf` gives the date an item is grouped by and `timeOf`
 * the value its bucket is sorted on.
 */
module Buckets {
  import opened Dates
  import opened Sequences

  /** One section of a list: a day and the items on it. */
  datatype Bucket<T> = Bucket(date: Instant, items: seq<T>)

  /** The item falls on the day that starts at `day`. */
  function OnDay<T>(dayOf: T -> Instant, day: Instant): T -> bool
  {
    (x: T) => StartOfDay(dayOf(x)) == day
  }

  /** The item's day lies in `[lo, hi)`. */
  function InWindow<T>(dayOf: T -> Instant, lo: Instant, hi: Instant): T -> bool
  {
    (x: T) => lo <= StartOfDay(dayOf(x)) < hi
  }

  /** The total number of items over all buckets. */
  function SumSizes<T>(buckets: seq<Bucket<T>>): nat
  {
    if buckets == [] then 0
    else SumSizes(buckets[..|buckets| - 1]) + |buckets[|buckets| - 1].items|
  }

  /** How many items fall on each of the `n` days from `start`, added up. */
  function SumCounts<T>(xs: seq<T>, dayOf: T -> Instant, start: Instant, n: nat): nat
  {
    if n == 0 then 0
    else SumCounts(xs, dayOf, start, n - 1) + Count(xs, OnDay(dayOf, AddDays(start, n - 1)))
  }

  /** A midnight lies in the `n` days from midnight `start` exactly when it is one of them. */
  lemma DayInWindow(start: Instant, d: Instant, n: nat)
    requires start % MinutesPerDay == 0 && d % MinutesPerDay == 0
    ensures (start <= d < AddDays(start, n)) <==> exists k :: 0 <= k < n && d == AddDays(start, k)
  {
    if start <= d < AddDays(start, n) {
      var k := (d - start) / MinutesPerDay;
      assert (d - start) % MinutesPerDay == 0;
      assert d == AddDays(start, k);
    }
  }

  /** Adding one item adds one to the day counts when it falls in the window, else nothing. */
  lemma {:induction false} SumCountsSnoc<T>(xs: seq<T>, y: T, dayOf: T -> Instant, start: Instant, n: nat)
    ensures SumCounts(xs + [y], dayOf, start, n) == SumCounts(xs, dayOf, start, n) +
      (if exists k :: 0 <= k < n && StartOfDay(dayOf(y)) == AddDays(start, k) then 1 else 0)
  {
    if n > 0 {
      SumCountsSnoc(xs, y, dayOf, start, n - 1);
      var p := OnDay(dayOf, AddDays(start, n - 1));
      CountAppend(xs, [y], p);
      assert Count([y], p) == (if p(y) then 1 else 0) by {
        assert [y][..0] == [];
      }
      if exists k :: 0 <= k < n && StartOfDay(dayOf(y)) == AddDays(start, k) {
        var k :| 0 <= k < n && StartOfDay(dayOf(y)) == AddDays(start, k);
        if k < n - 1 {
          assert !p(y);
        }
      }
    }
  }

  /** Items that all fall in the window are counted once each over its days. */
  lemma {:induction false} SumCountsOfWindow<T>(xs: seq<T>, dayOf: T -> Instant, start: Instant, n: nat)
    requires start % MinutesPerDay == 0
    requires forall k :: 0 <= k < |xs| ==> InWindow(dayOf, start, AddDays(start, n))(xs[k])
    ensures SumCounts(xs, dayOf, start, n) == |xs|
  {
    if xs == [] {
      SumCountsEmpty(dayOf, start, n);
    } else {
      var init, y := xs[..|xs| - 1], xs[|xs| - 1];
      assert xs == init + [y];
      SumCountsOfWindow(init, dayOf, start, n);
      SumCountsSnoc(init, y, dayOf, start, n);
      DayInWindow(start, StartOfDay(dayOf(y)), n);
    }
  }

  lemma {:induction false} SumCountsEmpty<T>(dayOf: T -> Instant, start: Instant, n: nat)
    ensures SumCounts([], dayOf, start, n) == 0
  {
    if n > 0 {
      SumCountsEmpty(dayOf, start, n - 1);
    }
  }

  /** Sorting the items on one day keeps exactly the items on that day. */
  lemma GroupMembers<T>(xs: seq<T>, dayOf: T -> Instant, timeOf: T -> int, day: Instant, x: T)
    ensures x in SortBy(Filter(xs, OnDay(dayOf, day)), timeOf) <==> x in xs && StartOfDay(dayOf(x)) == day
  {
    var group := Filter(xs, OnDay(dayOf, day));
    assert x in SortBy(group, timeOf) <==> x in multiset(group);
    if x in xs && StartOfDay(dayOf(x)) == day {
      var i :| 0 <= i < |xs| && xs[i] == x;
    }
    if x in group {
      var j :| 0 <= j < |group| && group[j] == x;
    }
  }

  /**
   * One section: the window's items on `day`, sorted on `timeOf`.
   * `Dictionary(grouping:by:)` keeps the order of the items it groups, so
   * `groups[day] ?? []` is the window filtered on the day.
   */
  function DayGroup<T(!new)>(xs: seq<T>, dayOf: T -> Instant, timeOf: T -> int, lo: Instant, hi: Instant, day: Instant): (r: seq<T>)
    requires lo <= day < hi
    ensures SortedBy(r, timeOf)
    ensures forall x :: x in r <==> x in xs && StartOfDay(dayOf(x)) == day
  {
    var window := Filter(xs, InWindow(dayOf, lo, hi));
    var r := SortBy(Filter(window, OnDay(dayOf, day)), timeOf);
    forall x ensures x in r <==> x in xs && StartOfDay(dayOf(x)) == day {
      GroupMembers(window, dayOf, timeOf, day, x);
      WindowMembers(xs, dayOf, lo, hi, x);
    }
    r
  }

  /** The window holds exactly the items whose day lies in `[lo, hi)`. */
  lemma WindowMembers<T>(xs: seq<T>, dayOf: T -> Instant, lo: Instant, hi: Instant, x: T)
    ensures x in Filter(xs, InWindow(dayOf, lo, hi)) <==> x in xs && lo <= StartOfDay(dayOf(x)) < hi
  {
    var window := Filter(xs, InWindow(dayOf, lo, hi));
    if x in xs && lo <= StartOfDay(dayOf(x)) < hi {
      var i :| 0 <= i < |xs| && xs[i] == x;
      assert InWindow(dayOf, lo, hi)(xs[i]);
    }
    if x in window {
      var j :| 0 <= j < |window| && window[j] == x;
      assert InWindow(dayOf, lo, hi)(window[j]);
    }
  }

  /** The seven sections of a week list: one per day from today's midnight, empty ones included. */
  function WeekBuckets<T(!new)>(xs: seq<T>, dayOf: T -> Instant, timeOf: T -> int, now: Instant): (r: seq<Bucket<T>>)
    ensures |r| == 7
    ensures forall k :: 0 <= k < 7 ==> r[k].date == AddDays(StartOfDay(now), k)
    ensures forall k :: 0 <= k < 7 ==> SortedBy(r[k].items, timeOf)
    ensures forall k, x :: 0 <= k < 7 ==>
      (x in r[k].items <==> x in xs && StartOfDay(dayOf(x)) == r[k].date)
  {
    var start := StartOfDay(now);
    var end := AddDays(start, 7);
    seq(7, k requires 0 <= k < 7 =>
      Bucket(AddDays(start, k), DayGroup(xs, dayOf, timeOf, start, end, AddDays(start, k))))
  }

  /** The sections' sizes add up to the number of items in the window: none is lost or repeated. */
  lemma WeekBucketsPartition<T(!new)>(xs: seq<T>, dayOf: T -> Instant, timeOf: T -> int, now: Instant)
    ensures var start := StartOfDay(now);
      SumSizes(WeekBuckets(xs, dayOf, timeOf, now)) == Count(xs, InWindow(dayOf, start, AddDays(start, 7)))
  {
    var start := StartOfDay(now);
    var window := Filter(xs, InWindow(dayOf, start, AddDays(start, 7)));
    var r := WeekBuckets(xs, dayOf, timeOf, now);
    forall n | 0 <= n <= 7
      ensures SumSizes(r[..n]) == SumCounts(window, dayOf, start, n)
    {
      PrefixSums(xs, dayOf, timeOf, now, n);
    }
    assert r[..7] == r;
    SumCountsOfWindow(window, dayOf, start, 7);
  }

  lemma {:induction false} PrefixSums<T(!new)>(xs: seq<T>, dayOf: T -> Instant, timeOf: T -> int, now: Instant, n: nat)
    requires n <= 7
    ensures var start := StartOfDay(now);
      SumSizes(WeekBuckets(xs, dayOf, timeOf, now)[..n]) ==
      SumCounts(Filter(xs, InWindow(dayOf, start, AddDays(start, 7))), dayOf, start, n)
  {
    var r := WeekBuckets(xs, dayOf, timeOf, now);
    if n > 0 {
      PrefixSums(xs, dayOf, timeOf, now, n - 1);
      assert r[..n][..n - 1] == r[..n - 1];
    }
  }

  /** The window's days in the order a tab lists them. */
  predicate Ascending(days: seq<Instant>)
  {
    forall i, j :: 0 <= i < j < |days| ==> days[i] < days[j]
  }

  predicate Descending(days: seq<Instant>)
  {
    forall i, j :: 0 <= i < j < |days| ==> days[i] > days[j]
  }

  /** The day has an entry in `m`. */
  function HasEntry<T>(m: map<Instant, seq<T>>): Instant -> bool
  {
    (d: Instant) => d in m
  }

  /** The section of one day: the day's entries sorted on `timeOf`. */
  function SectionOf<T>(m: map<Instant, seq<T>>, timeOf: T -> int): Instant -> Bucket<T>
  {
    (d: Instant) => Bucket(d, if d in m then SortBy(m[d], timeOf) else [])
  }

  /** The sections of the days in `days` that have an entry in `m`, in the order of `days`, each sorted on `timeOf`. */
  function Sections<T>(m: map<Instant, seq<T>>, days: seq<Instant>, timeOf: T -> int): (r: seq<Bucket<T>>)
    ensures |r| <= |days|
    ensures forall i :: 0 <= i < |r| ==>
      r[i].date in days && r[i].date in m && r[i].items == SortBy(m[r[i].date], timeOf)
  {
    var withEntry := Filter(days, HasEntry(m));
    var r := Map(withEntry, SectionOf(m, timeOf));
    assert forall i :: 0 <= i < |r| ==> r[i] == SectionOf(m, timeOf)(withEntry[i]) && HasEntry(m)(withEntry[i]);
    r
  }

  /** Every day of `days` with an entry gets a section. */
  lemma SectionsCover<T>(m: map<Instant, seq<T>>, days: seq<Instant>, timeOf: T -> int, d: Instant)
    requires d in days && d in m
    ensures exists i :: 0 <= i < |Sections(m, days, timeOf)| && Sections(m, days, timeOf)[i].date == d
  {
    var withEntry := Filter(days, HasEntry(m));
    var k :| 0 <= k < |days| && days[k] == d;
    assert HasEntry(m)(days[k]);
    var i :| 0 <= i < |withEntry| && withEntry[i] == d;
    assert Sections(m, days, timeOf)[i] == SectionOf(m, timeOf)(d);
  }

  /** The sections keep the order of `days`: section `i` comes from an earlier position than section `j`. */
  lemma SectionPositions<T>(m: map<Instant, seq<T>>, days: seq<Instant>, timeOf: T -> int, i: int, j: int)
    requires 0 <= i < j < |Sections(m, days, timeOf)|
    ensures exists a, b ::
      && 0 <= a < b < |days|
      && Sections(m, days, timeOf)[i].date == days[a]
      && Sections(m, days, timeOf)[j].date == days[b]
  {
    var withEntry := Filter(days, HasEntry(m));
    var idx := FilterIndices(days, HasEntry(m));
    var r := Sections(m, days, timeOf);
    assert r[i] == SectionOf(m, timeOf)(withEntry[i]) && r[j] == SectionOf(m, timeOf)(withEntry[j]);
    assert r[i].date == days[idx[i]] && r[j].date == days[idx[j]];
  }

  /** Sections of ascending days are ascending. */
  lemma SectionsAscending<T>(m: map<Instant, seq<T>>, days: seq<Instant>, timeOf: T -> int)
    requires Ascending(days)
    ensures forall i, j :: 0 <= i < j < |Sections(m, days, timeOf)| ==>
      Sections(m, days, timeOf)[i].date < Sections(m, days, timeOf)[j].date
  {
    var r := Sections(m, days, timeOf);
    forall i, j | 0 <= i < j < |r| ensures r[i].date < r[j].date {
      SectionPositions(m, days, timeOf, i, j);
    }
  }

  /** Sections of descending days are descending. */
  lemma SectionsDescending<T>(m: map<Instant, seq<T>>, days: seq<Instant>, timeOf: T -> int)
    requires Descending(days)
    ensures forall i, j :: 0 <= i < j < |Sections(m, days, timeOf)| ==>
      Sections(m, days, timeOf)[i].date > Sections(m, days, timeOf)[j].date
  {
    var r := Sections(m, days, timeOf);
    forall i, j | 0 <= i < j < |r| ensures r[i].date > r[j].date {
      SectionPositions(m, days, timeOf, i, j);
    }
  }
}
