/**
 * Library operations on arrays that the Swift code calls: `filter`, counting,
 * and `sorted(by:)` on an integer key.
 */
module Sequences {

  /** `xs.filter(p)`. */
  function Filter<T>(xs: seq<T>, p: T -> bool): (r: seq<T>)
    ensures |r| <= |xs|
    ensures forall k :: 0 <= k < |r| ==> r[k] in xs && p(r[k])
    ensures forall k :: 0 <= k < |xs| && p(xs[k]) ==> xs[k] in r
  {
    if xs == [] then []
    else Filter(xs[..|xs| - 1], p) + (if p(xs[|xs| - 1]) then [xs[|xs| - 1]] else [])
  }

  /**
   * Where each kept element sits in `xs`: `filter` keeps the order of the
   * elements it keeps.
   */
  function FilterIndices<T>(xs: seq<T>, p: T -> bool): (idx: seq<nat>)
    ensures |idx| == |Filter(xs, p)|
    ensures forall k :: 0 <= k < |idx| ==> idx[k] < |xs| && Filter(xs, p)[k] == xs[idx[k]]
    ensures forall i, j :: 0 <= i < j < |idx| ==> idx[i] < idx[j]
  {
    if xs == [] then []
    else
      var prev := FilterIndices(xs[..|xs| - 1], p);
      prev + (if p(xs[|xs| - 1]) then [|xs| - 1] else [])
  }

  /**
   * `r` is `xs` with some elements left out and the order kept: `idx` gives,
   * in increasing order, the position in `xs` of each element of `r`.
   */
  predicate InOrderAt<T(==)>(r: seq<T>, xs: seq<T>, idx: seq<nat>)
  {
    && |idx| == |r|
    && (forall k :: 0 <= k < |idx| ==> idx[k] < |xs| && r[k] == xs[idx[k]])
    && (forall i, j :: 0 <= i < j < |idx| ==> idx[i] < idx[j])
  }

  /** `xs.filter(p).count`. */
  function Count<T>(xs: seq<T>, p: T -> bool): (n: nat)
    ensures n == |Filter(xs, p)|
  {
    if xs == [] then 0
    else Count(xs[..|xs| - 1], p) + (if p(xs[|xs| - 1]) then 1 else 0)
  }

  lemma FilterAppend<T>(xs: seq<T>, ys: seq<T>, p: T -> bool)
    ensures Filter(xs + ys, p) == Filter(xs, p) + Filter(ys, p)
    decreases |ys|
  {
    if ys != [] {
      assert (xs + ys)[..|xs + ys| - 1] == xs + ys[..|ys| - 1];
      FilterAppend(xs, ys[..|ys| - 1], p);
    } else {
      assert xs + ys == xs;
    }
  }

  lemma CountAppend<T>(xs: seq<T>, ys: seq<T>, p: T -> bool)
    ensures Count(xs + ys, p) == Count(xs, p) + Count(ys, p)
  {
    FilterAppend(xs, ys, p);
  }

  /** Two tests that agree on every element select the same elements. */
  lemma {:induction false} FilterAgree<T>(xs: seq<T>, p: T -> bool, q: T -> bool)
    requires forall k :: 0 <= k < |xs| ==> p(xs[k]) == q(xs[k])
    ensures Filter(xs, p) == Filter(xs, q)
  {
    if xs != [] {
      FilterAgree(xs[..|xs| - 1], p, q);
    }
  }

  /** The number of elements selected depends only on the multiset of elements. */
  lemma {:induction false} CountMultiset<T>(xs: seq<T>, ys: seq<T>, p: T -> bool)
    requires multiset(xs) == multiset(ys)
    ensures Count(xs, p) == Count(ys, p)
    decreases |xs|
  {
    if xs == [] {
      assert |ys| == |multiset(ys)| == 0;
    } else {
      var x := xs[|xs| - 1];
      assert x in multiset(ys);
      var k :| 0 <= k < |ys| && ys[k] == x;
      var ys' := ys[..k] + ys[k + 1..];
      assert ys == ys[..k] + [x] + ys[k + 1..];
      assert xs == xs[..|xs| - 1] + [x];
      assert multiset(ys') == multiset(ys) - multiset{x};
      assert multiset(xs[..|xs| - 1]) == multiset(xs) - multiset{x};
      CountMultiset(xs[..|xs| - 1], ys', p);
      CountAppend(xs[..|xs| - 1], [x], p);
      CountAppend(ys[..k] + [x], ys[k + 1..], p);
      CountAppend(ys[..k], [x], p);
      CountAppend(ys[..k], ys[k + 1..], p);
    }
  }

  predicate SortedBy<T>(xs: seq<T>, key: T -> int)
  {
    forall i, j :: 0 <= i < j < |xs| ==> key(xs[i]) <= key(xs[j])
  }

  /** Every key in `xs` is at least `b`. */
  predicate KeysAtLeast<T>(xs: seq<T>, key: T -> int, b: int)
  {
    forall k :: 0 <= k < |xs| ==> b <= key(xs[k])
  }

  /** A head no larger than every key of a sorted tail gives a sorted sequence. */
  lemma ConsSorted<T>(h: T, t: seq<T>, key: T -> int)
    requires SortedBy(t, key) && KeysAtLeast(t, key, key(h))
    ensures SortedBy([h] + t, key)
  {
    var r := [h] + t;
    forall i, j | 0 <= i < j < |r| ensures key(r[i]) <= key(r[j]) {
      assert r[j] == t[j - 1];
      if i > 0 {
        assert r[i] == t[i - 1];
      }
    }
  }

  /** A sorted sequence's keys are all at least its first key. */
  lemma SortedKeysAtLeast<T>(xs: seq<T>, key: T -> int, b: int)
    requires SortedBy(xs, key) && xs != [] && b <= key(xs[0])
    ensures KeysAtLeast(xs, key, b)
  {
    forall k | 0 <= k < |xs| ensures b <= key(xs[k]) {
      if k > 0 {
        assert key(xs[0]) <= key(xs[k]);
      }
    }
  }

  /** Putting `x` in front of a sorted sequence whose first key is not smaller. */
  lemma InsertFront<T>(x: T, xs: seq<T>, key: T -> int)
    requires SortedBy(xs, key) && xs != [] && key(x) <= key(xs[0])
    ensures SortedBy([x] + xs, key)
    ensures multiset([x] + xs) == multiset(xs) + multiset{x}
    ensures KeysAtLeast([x] + xs, key, key(x))
  {
    SortedKeysAtLeast(xs, key, key(x));
    ConsSorted(x, xs, key);
    SortedKeysAtLeast([x] + xs, key, key(x));
  }

  /** Keeping the head of a sorted sequence in front of the tail with `x` inserted. */
  lemma InsertBehind<T>(x: T, xs: seq<T>, key: T -> int, t: seq<T>)
    requires SortedBy(xs, key) && xs != [] && key(xs[0]) < key(x)
    requires SortedBy(t, key) && multiset(t) == multiset(xs[1..]) + multiset{x}
    requires xs[1..] == [] ==> t == [x]
    requires xs[1..] != [] ==> KeysAtLeast(t, key, if key(x) < key(xs[1]) then key(x) else key(xs[1]))
    ensures SortedBy([xs[0]] + t, key)
    ensures multiset([xs[0]] + t) == multiset(xs) + multiset{x}
    ensures KeysAtLeast([xs[0]] + t, key, key(xs[0]))
  {
    assert KeysAtLeast(t, key, key(xs[0])) by {
      if xs[1..] != [] {
        assert key(xs[0]) <= key(xs[1]);
      }
    }
    ConsSorted(xs[0], t, key);
    SortedKeysAtLeast([xs[0]] + t, key, key(xs[0]));
    assert xs == [xs[0]] + xs[1..];
  }

  function Insert<T>(x: T, xs: seq<T>, key: T -> int): (r: seq<T>)
    requires SortedBy(xs, key)
    ensures SortedBy(r, key)
    ensures multiset(r) == multiset(xs) + multiset{x}
    ensures |r| == |xs| + 1
    ensures xs == [] ==> r == [x]
    ensures xs != [] ==> KeysAtLeast(r, key, if key(x) < key(xs[0]) then key(x) else key(xs[0]))
  {
    if xs == [] then [x]
    else if key(x) <= key(xs[0]) then
      InsertFront(x, xs, key);
      [x] + xs
    else
      assert SortedBy(xs[1..], key);
      var t := Insert(x, xs[1..], key);
      InsertBehind(x, xs, key, t);
      [xs[0]] + t
  }

  /** `xs.sorted { key($0) < key($1) }`, as a stable insertion sort. */
  function SortBy<T>(xs: seq<T>, key: T -> int): (r: seq<T>)
    ensures SortedBy(r, key)
    ensures multiset(r) == multiset(xs)
    ensures |r| == |xs|
  {
    if xs == [] then []
    else
      var r := Insert(xs[0], SortBy(xs[1..], key), key);
      SameElements(xs, r);
      r
  }

  /** `r` holds the head of `xs` plus a rearrangement of its tail: a rearrangement of `xs`. */
  lemma SameElements<T>(xs: seq<T>, r: seq<T>)
    requires xs != []
    requires multiset(r) == multiset(xs[1..]) + multiset{xs[0]}
    ensures multiset(r) == multiset(xs) && |r| == |xs|
  {
    assert xs == [xs[0]] + xs[1..];
    assert |r| == |multiset(r)| == |multiset(xs)|;
  }

  /** `xs.map(f)`. */
  function Map<T, U>(xs: seq<T>, f: T -> U): (r: seq<U>)
    ensures |r| == |xs|
    ensures forall k :: 0 <= k < |xs| ==> r[k] == f(xs[k])
  {
    seq(|xs|, k requires 0 <= k < |xs| => f(xs[k]))
  }

  lemma MapAppend<T, U>(xs: seq<T>, ys: seq<T>, f: T -> U)
    ensures Map(xs + ys, f) == Map(xs, f) + Map(ys, f)
  {
  }

  /** Counting every element of a sequence whose elements all pass. */
  lemma {:induction false} CountAll<T>(xs: seq<T>, p: T -> bool)
    requires forall k :: 0 <= k < |xs| ==> p(xs[k])
    ensures Count(xs, p) == |xs|
  {
    if xs != [] {
      CountAll(xs[..|xs| - 1], p);
    }
  }

  /** Counting in a sequence none of whose elements pass. */
  lemma {:induction false} CountNone<T>(xs: seq<T>, p: T -> bool)
    requires forall k :: 0 <= k < |xs| ==> !p(xs[k])
    ensures Count(xs, p) == 0
  {
    if xs != [] {
      CountNone(xs[..|xs| - 1], p);
    }
  }

  /** Two equally long sequences that agree position by position on `p` count alike. */
  lemma {:induction false} CountPointwise<T>(xs: seq<T>, ys: seq<T>, p: T -> bool)
    requires |xs| == |ys|
    requires forall k :: 0 <= k < |xs| ==> p(xs[k]) == p(ys[k])
    ensures Count(xs, p) == Count(ys, p)
  {
    if xs != [] {
      CountPointwise(xs[..|xs| - 1], ys[..|ys| - 1], p);
    }
  }

  /** The filter of a one-element extension. */
  lemma FilterSnoc<T>(xs: seq<T>, x: T, p: T -> bool)
    ensures Filter(xs + [x], p) == Filter(xs, p) + (if p(x) then [x] else [])
  {
    assert (xs + [x])[..|xs|] == xs;
  }

  /** Filtering twice is filtering once by both tests. */
  lemma {:induction false} FilterFilter<T>(xs: seq<T>, p: T -> bool, q: T -> bool, pq: T -> bool)
    requires forall x :: pq(x) == (p(x) && q(x))
    ensures Filter(Filter(xs, p), q) == Filter(xs, pq)
  {
    if xs != [] {
      var last := xs[|xs| - 1];
      FilterFilter(xs[..|xs| - 1], p, q, pq);
      FilterAppend(Filter(xs[..|xs| - 1], p), if p(last) then [last] else [], q);
      if p(last) {
        FilterSnoc([], last, q);
      }
    }
  }

  /** A test every element passes keeps the whole sequence. */
  lemma {:induction false} FilterKeepsAll<T>(xs: seq<T>, p: T -> bool)
    requires forall k :: 0 <= k < |xs| ==> p(xs[k])
    ensures Filter(xs, p) == xs
  {
    if xs != [] {
      FilterKeepsAll(xs[..|xs| - 1], p);
    }
  }
}
