/**
 * Sequence operations that the front ends use through JavaScript's array
 * built-ins: `filter`, `findIndex`, `map` with a conditional replacement, and
 * `[...new Set(xs)]` (distinct values in first-occurrence order); and the
 * partial map behind an inner join, which keeps the rows that find a partner.
 */
module Collections {
  import opened Wrappers

  /** No value occurs twice. */
  predicate NoDup<T(==)>(s: seq<T>) {
    forall i, j :: 0 <= i < j < |s| ==> s[i] != s[j]
  }

  /** `a` can be obtained from `b` by deleting elements, keeping the order. */
  predicate IsSubsequence<T(==)>(a: seq<T>, b: seq<T>)
    decreases |b|
  {
    a == [] || (b != [] && ((a[0] == b[0] && IsSubsequence(a[1..], b[1..])) || IsSubsequence(a, b[1..])))
  }

  /** Position of the first occurrence of `x` in `s`. */
  function FirstIndex<T(==)>(s: seq<T>, x: T): (i: nat)
    requires x in s
    ensures i < |s| && s[i] == x && x !in s[..i]
  {
    if s[0] == x then 0 else 1 + FirstIndex(s[1..], x)
  }

  lemma {:induction false} FirstIndexOfPrefix<T>(s: seq<T>, k: nat, x: T)
    requires k <= |s| && x in s[..k]
    ensures FirstIndex(s, x) == FirstIndex(s[..k], x)
  {
    if s[0] != x {
      assert s[1..][..k - 1] == s[..k][1..];
      FirstIndexOfPrefix(s[1..], k - 1, x);
    }
  }

  // ---------------------------------------------------------------- [...new Set(s)]

  /**
   * `[...new Set(s)]`: each value once, in the order of its first occurrence.
   * Built from the left, as the set is filled while `s` is traversed.
   */
  function Distinct<T(==,!new)>(s: seq<T>): (d: seq<T>)
    ensures NoDup(d)
    ensures forall x :: x in d <==> x in s
    ensures |d| <= |s|
  {
    if s == [] then []
    else
      var d := Distinct(s[..|s| - 1]);
      assert forall x :: x in s <==> x in s[..|s| - 1] || x == s[|s| - 1] by {
        assert s == s[..|s| - 1] + [s[|s| - 1]];
      }
      if s[|s| - 1] in d then d else d + [s[|s| - 1]]
  }

  /** The values of `Distinct(s)` appear in the order of their first occurrence in `s`. */
  lemma {:induction false} DistinctFirstOccurrenceOrder<T(!new)>(s: seq<T>)
    ensures forall i, j :: 0 <= i < j < |Distinct(s)| ==>
      FirstIndex(s, Distinct(s)[i]) < FirstIndex(s, Distinct(s)[j])
  {
    if s != [] {
      var n := |s| - 1;
      var p := s[..n];
      var d := Distinct(p);
      DistinctFirstOccurrenceOrder(p);
      assert s[..n] == p;
      forall x | x in d
        ensures FirstIndex(s, x) == FirstIndex(p, x) < n
      {
        FirstIndexOfPrefix(s, n, x);
      }
      if s[n] !in d {
        assert s[n] !in p;
        assert FirstIndex(s, s[n]) == n by {
          assert s[..n] == p;
        }
      }
    }
  }

  /** Adding a value at the end extends `Distinct` only when the value is new. */
  lemma DistinctSnoc<T(!new)>(s: seq<T>, x: T)
    ensures Distinct(s + [x]) == if x in s then Distinct(s) else Distinct(s) + [x]
  {
    assert (s + [x])[..|s|] == s;
  }

  // ---------------------------------------------------------------- filter

  /** `s.filter(p)`. */
  function Filter<T(==,!new)>(s: seq<T>, p: T -> bool): (r: seq<T>)
    ensures |r| <= |s|
    ensures forall i :: 0 <= i < |r| ==> p(r[i])
  {
    if s == [] then []
    else if p(s[0]) then [s[0]] + Filter(s[1..], p) else Filter(s[1..], p)
  }

  /** The result of `filter` keeps, in order, some of the elements of its input. */
  lemma {:induction false} FilterIsSubsequence<T(!new)>(s: seq<T>, p: T -> bool)
    ensures IsSubsequence(Filter(s, p), s)
  {
    if s != [] {
      FilterIsSubsequence(s[1..], p);
    }
  }

  /** `filter` keeps every copy of the elements that pass and no copy of the others. */
  lemma {:induction false} FilterMultiset<T(!new)>(s: seq<T>, p: T -> bool)
    ensures forall x :: multiset(Filter(s, p))[x] == if p(x) then multiset(s)[x] else 0
  {
    if s != [] {
      FilterMultiset(s[1..], p);
      assert s == [s[0]] + s[1..];
    }
  }

  /** An element is in the result exactly when it is in the input and passes. */
  lemma FilterMembership<T(!new)>(s: seq<T>, p: T -> bool, x: T)
    ensures x in Filter(s, p) <==> x in s && p(x)
  {
    FilterMultiset(s, p);
    assert x in Filter(s, p) <==> multiset(Filter(s, p))[x] > 0;
    assert x in s <==> multiset(s)[x] > 0;
  }

  /** Filtering twice keeps the elements that pass both tests, in their order. */
  lemma {:induction false} FilterFilter<T(!new)>(s: seq<T>, p: T -> bool, q: T -> bool, both: T -> bool)
    requires forall i :: 0 <= i < |s| ==> both(s[i]) == (p(s[i]) && q(s[i]))
    ensures Filter(Filter(s, p), q) == Filter(s, both)
  {
    if s != [] {
      FilterFilter(s[1..], p, q, both);
      if p(s[0]) {
        assert Filter(s, p)[1..] == Filter(s[1..], p);
      }
    }
  }

  /** Filtering shortens a sequence exactly when some element fails the test. */
  lemma {:induction false} FilterLength<T(!new)>(s: seq<T>, p: T -> bool)
    ensures |Filter(s, p)| < |s| <==> exists i :: 0 <= i < |s| && !p(s[i])
  {
    if s != [] {
      FilterLength(s[1..], p);
      if exists i :: 0 <= i < |s[1..]| && !p(s[1..][i]) {
        var i :| 0 <= i < |s[1..]| && !p(s[1..][i]);
        assert !p(s[i + 1]);
      }
      if exists i :: 0 <= i < |s| && !p(s[i]) {
        var i :| 0 <= i < |s| && !p(s[i]);
        if i > 0 {
          assert !p(s[1..][i - 1]);
        }
      }
    }
  }

  /** Filtering distributes over concatenation. */
  lemma {:induction false} FilterAppend<T(!new)>(a: seq<T>, b: seq<T>, p: T -> bool)
    ensures Filter(a + b, p) == Filter(a, p) + Filter(b, p)
  {
    if a == [] {
      assert a + b == b;
    } else {
      FilterAppend(a[1..], b, p);
      assert (a + b)[1..] == a[1..] + b;
    }
  }

  /** Filtering keeps keys below a bound and keeps them pairwise distinct. */
  lemma {:induction false} FilterKeepsKeys<T(!new)>(s: seq<T>, p: T -> bool, key: T -> int, bound: int)
    requires forall i :: 0 <= i < |s| ==> key(s[i]) < bound
    requires forall i, j :: 0 <= i < j < |s| ==> key(s[i]) != key(s[j])
    ensures forall i :: 0 <= i < |Filter(s, p)| ==> key(Filter(s, p)[i]) < bound
    ensures forall i, j :: 0 <= i < j < |Filter(s, p)| ==> key(Filter(s, p)[i]) != key(Filter(s, p)[j])
  {
    if s != [] {
      var t := Filter(s[1..], p);
      FilterKeepsKeys(s[1..], p, key, bound);
      forall j | 0 <= j < |t|
        ensures key(t[j]) != key(s[0])
      {
        FilterMembership(s[1..], p, t[j]);
        var k :| 0 <= k < |s[1..]| && s[1..][k] == t[j];
        assert s[k + 1] == t[j];
      }
      if p(s[0]) {
        assert Filter(s, p) == [s[0]] + t;
        assert forall i :: 0 < i < |Filter(s, p)| ==> Filter(s, p)[i] == t[i - 1];
      }
    }
  }

  /** Filtering with a test that every element passes changes nothing. */
  lemma {:induction false} FilterAll<T(!new)>(s: seq<T>, p: T -> bool)
    requires forall i :: 0 <= i < |s| ==> p(s[i])
    ensures Filter(s, p) == s
  {
    if s != [] {
      FilterAll(s[1..], p);
    }
  }

  /** Filters agree on a sequence when their tests agree on its elements. */
  lemma {:induction false} FilterCongruent<T(!new)>(s: seq<T>, p: T -> bool, q: T -> bool)
    requires forall i :: 0 <= i < |s| ==> p(s[i]) == q(s[i])
    ensures Filter(s, p) == Filter(s, q)
  {
    if s != [] {
      FilterCongruent(s[1..], p, q);
    }
  }

  // ---------------------------------------------------------------- findIndex and map

  /** Two rearrangements of each other hold the same elements. */
  lemma SameMembers<T>(a: seq<T>, b: seq<T>, x: T)
    requires multiset(a) == multiset(b)
    ensures x in a <==> x in b
  {
    assert x in a <==> x in multiset(a);
    assert x in b <==> x in multiset(b);
  }

  /** `s.findIndex(p)`: the first position passing `p`, or -1. */
  function FindIndex<T>(s: seq<T>, p: T -> bool): (i: int)
    ensures -1 <= i < |s|
    ensures i >= 0 ==> p(s[i])
    ensures forall j :: 0 <= j < |s| && (i == -1 || j < i) ==> !p(s[j])
  {
    if s == [] then -1
    else if p(s[0]) then 0
    else
      var k := FindIndex(s[1..], p);
      if k == -1 then -1 else k + 1
  }

  /** `s.find(p)`: the first element passing `p`, if any. */
  function Find<T>(s: seq<T>, p: T -> bool): Option<T> {
    if s == [] then None
    else if p(s[0]) then Some(s[0])
    else Find(s[1..], p)
  }

  /** `find` returns the element at `findIndex`, and nothing exactly when `findIndex` is -1. */
  lemma {:induction false} FindIsAtFindIndex<T>(s: seq<T>, p: T -> bool)
    ensures Find(s, p).None? <==> FindIndex(s, p) == -1
    ensures Find(s, p).Some? ==> Find(s, p).value == s[FindIndex(s, p)]
  {
    if s != [] && !p(s[0]) {
      FindIsAtFindIndex(s[1..], p);
    }
  }

  /** `s.map(x => p(x) ? v : x)`. */
  function ReplaceWhere<T>(s: seq<T>, p: T -> bool, v: T): (r: seq<T>)
    ensures |r| == |s|
    ensures forall i :: 0 <= i < |s| ==> r[i] == if p(s[i]) then v else s[i]
  {
    if s == [] then [] else [if p(s[0]) then v else s[0]] + ReplaceWhere(s[1..], p, v)
  }

  // ---------------------------------------------------------------- partial map

  /** The values `f` gives for the elements of `s`, in order; an element it maps to nothing drops out. */
  function FilterMap<T, U>(s: seq<T>, f: T -> Option<U>): (r: seq<U>)
    ensures |r| <= |s|
  {
    if s == [] then []
    else Present(f(s[0])) + FilterMap(s[1..], f)
  }

  /** The value held, as a sequence of zero or one elements. */
  function Present<U>(o: Option<U>): (r: seq<U>)
    ensures |r| <= 1 && (|r| == 1 <==> o.Some?)
  {
    match o
    case Some(x) => [x]
    case None => []
  }

  /** A value is in the result exactly when some element maps to it. */
  lemma {:induction false} FilterMapMembership<T, U>(s: seq<T>, f: T -> Option<U>, x: U)
    ensures x in FilterMap(s, f) <==> exists i :: 0 <= i < |s| && f(s[i]) == Some(x)
  {
    if s != [] {
      FilterMapMembership(s[1..], f, x);
      if exists i :: 0 <= i < |s[1..]| && f(s[1..][i]) == Some(x) {
        var i :| 0 <= i < |s[1..]| && f(s[1..][i]) == Some(x);
        assert f(s[i + 1]) == Some(x);
      }
      if exists i :: 0 <= i < |s| && f(s[i]) == Some(x) {
        var i :| 0 <= i < |s| && f(s[i]) == Some(x);
        if i > 0 {
          assert f(s[1..][i - 1]) == Some(x);
        }
      }
    }
  }

  /** Nothing drops out exactly when every element maps to something, and then the result lines up with the input. */
  lemma {:induction false} FilterMapTotal<T, U>(s: seq<T>, f: T -> Option<U>)
    ensures |FilterMap(s, f)| == |s| <==> forall i :: 0 <= i < |s| ==> f(s[i]).Some?
    ensures |FilterMap(s, f)| == |s| ==> forall i :: 0 <= i < |s| ==> FilterMap(s, f)[i] == f(s[i]).value
  {
    if s != [] {
      FilterMapTotal(s[1..], f);
      assert forall i :: 0 < i < |s| ==> s[i] == s[1..][i - 1];
    }
  }

  /** The partial map of a sequence with a first element. */
  lemma FilterMapCons<T, U>(x: T, s: seq<T>, f: T -> Option<U>)
    ensures FilterMap([x] + s, f) == Present(f(x)) + FilterMap(s, f)
  {
    assert ([x] + s)[1..] == s;
  }

  /** The partial map distributes over concatenation, so it keeps the input order. */
  lemma {:induction false} FilterMapAppend<T, U>(a: seq<T>, b: seq<T>, f: T -> Option<U>)
    ensures FilterMap(a + b, f) == FilterMap(a, f) + FilterMap(b, f)
  {
    if a == [] {
      assert a + b == b;
    } else {
      assert a + b == [a[0]] + (a[1..] + b);
      FilterMapCons(a[0], a[1..] + b, f);
      FilterMapAppend(a[1..], b, f);
    }
  }

  // ---------------------------------------------------------------- stable sort, latest first

  /** `a` has a later time than `b`; a missing time compares as a tie. */
  predicate Later<T>(a: T, b: T, time: T -> Option<int>) {
    time(a).Some? && time(b).Some? && time(a).value > time(b).value
  }

  /** Insert `x` into a list after every element it is not later than. */
  function InsertLatest<T(==)>(x: T, s: seq<T>, time: T -> Option<int>): (r: seq<T>)
    ensures multiset(r) == multiset(s) + multiset{x}
    ensures |r| == |s| + 1
  {
    if s == [] then [x]
    else if Later(x, s[0], time) then [x] + s
    else
      assert s == [s[0]] + s[1..];
      [s[0]] + InsertLatest(x, s[1..], time)
  }

  /** Insertion sort from the left, latest first. */
  function SortLatestFirst<T(==)>(s: seq<T>, time: T -> Option<int>): (r: seq<T>)
    ensures multiset(r) == multiset(s)
    ensures |r| == |s|
  {
    if s == [] then []
    else
      var n := |s| - 1;
      assert s == s[..n] + [s[n]];
      InsertLatest(s[n], SortLatestFirst(s[..n], time), time)
  }

  /** Every element has a time. */
  predicate AllTimed<T>(s: seq<T>, time: T -> Option<int>) {
    forall i :: 0 <= i < |s| ==> time(s[i]).Some?
  }

  /** No element is later than an element before it. */
  predicate LatestFirst<T>(s: seq<T>, time: T -> Option<int>) {
    forall i, j :: 0 <= i < j < |s| ==> !Later(s[j], s[i], time)
  }

  /** What `InsertLatest` returns holds `x` and the elements of `s`, and nothing else. */
  lemma InsertLatestMember<T>(x: T, s: seq<T>, y: T, time: T -> Option<int>)
    requires y in InsertLatest(x, s, time)
    ensures y == x || y in s
  {
    assert y in multiset(InsertLatest(x, s, time));
  }

  /** A timed element that nothing in a sorted list is later than can go in front of it. */
  lemma ConsLatestFirst<T>(a: T, t: seq<T>, time: T -> Option<int>)
    requires time(a).Some? && AllTimed(t, time) && LatestFirst(t, time)
    requires forall y :: y in t ==> !Later(y, a, time)
    ensures LatestFirst([a] + t, time) && AllTimed([a] + t, time)
  {
    var r := [a] + t;
    forall i, j | 0 <= i < j < |r|
      ensures !Later(r[j], r[i], time)
    {
      if i == 0 {
        assert r[j] == t[j - 1] && r[j] in t;
      } else {
        assert r[i] == t[i - 1] && r[j] == t[j - 1];
      }
    }
    forall i | 0 <= i < |r|
      ensures time(r[i]).Some?
    {
      if i > 0 {
        assert r[i] == t[i - 1];
      }
    }
  }

  /** Inserting a timed element into a timed, sorted list keeps it sorted. */
  lemma {:induction false} InsertLatestSorted<T>(x: T, s: seq<T>, time: T -> Option<int>)
    requires AllTimed(s, time) && time(x).Some? && LatestFirst(s, time)
    ensures LatestFirst(InsertLatest(x, s, time), time) && AllTimed(InsertLatest(x, s, time), time)
  {
    if s == [] {
      ConsLatestFirst(x, s, time);
    } else if Later(x, s[0], time) {
      forall y | y in s
        ensures !Later(y, x, time)
      {
        var k :| 0 <= k < |s| && s[k] == y;
        if k > 0 {
          assert !Later(s[k], s[0], time);
        }
      }
      ConsLatestFirst(x, s, time);
    } else {
      var t := s[1..];
      assert AllTimed(t, time) && LatestFirst(t, time) by {
        forall i | 0 <= i < |t| ensures t[i] == s[i + 1] { }
      }
      InsertLatestSorted(x, t, time);
      var tail := InsertLatest(x, t, time);
      forall y | y in tail
        ensures !Later(y, s[0], time)
      {
        InsertLatestMember(x, t, y, time);
        if y != x {
          var k :| 0 <= k < |t| && t[k] == y;
          assert y == s[k + 1];
        }
      }
      ConsLatestFirst(s[0], tail, time);
    }
  }

  /** When every element has a time, the sort puts the latest first. */
  lemma {:induction false} SortLatestFirstSorted<T>(s: seq<T>, time: T -> Option<int>)
    requires AllTimed(s, time)
    ensures LatestFirst(SortLatestFirst(s, time), time)
    ensures AllTimed(SortLatestFirst(s, time), time)
  {
    if s != [] {
      var n := |s| - 1;
      assert AllTimed(s[..n], time);
      SortLatestFirstSorted(s[..n], time);
      InsertLatestSorted(s[n], SortLatestFirst(s[..n], time), time);
    }
  }

  /** `x` alone when its time is `d`, otherwise nothing. */
  function AtTime<T>(x: T, d: int, time: T -> Option<int>): seq<T> {
    if time(x) == Some(d) then [x] else []
  }

  /** The elements whose time is `d`, in their order. */
  function TimedAt<T>(s: seq<T>, d: int, time: T -> Option<int>): seq<T> {
    if s == [] then [] else AtTime(s[0], d, time) + TimedAt(s[1..], d, time)
  }

  /** The elements of time `d` in a sequence with a first element. */
  lemma TimedAtCons<T>(x: T, s: seq<T>, d: int, time: T -> Option<int>)
    ensures TimedAt([x] + s, d, time) == AtTime(x, d, time) + TimedAt(s, d, time)
  {
    assert ([x] + s)[1..] == s;
  }

  /** A list with no element of time `d` has none to show. */
  lemma {:induction false} NoneTimedAt<T>(s: seq<T>, d: int, time: T -> Option<int>)
    requires forall i :: 0 <= i < |s| ==> time(s[i]) != Some(d)
    ensures TimedAt(s, d, time) == []
  {
    if s != [] {
      NoneTimedAt(s[1..], d, time);
    }
  }

  /** An element added at the end comes last among the elements of its time. */
  lemma {:induction false} TimedAtSnoc<T>(s: seq<T>, x: T, d: int, time: T -> Option<int>)
    ensures TimedAt(s + [x], d, time) == TimedAt(s, d, time) + AtTime(x, d, time)
  {
    if s == [] {
      assert s + [x] == [x];
    } else {
      assert s + [x] == [s[0]] + (s[1..] + [x]);
      TimedAtCons(s[0], s[1..] + [x], d, time);
      TimedAtSnoc(s[1..], x, d, time);
    }
  }

  /** Nothing in a sorted list has the time of an element later than its head. */
  lemma NoneAtLaterTime<T>(x: T, s: seq<T>, d: int, time: T -> Option<int>)
    requires s != [] && LatestFirst(s, time) && Later(x, s[0], time) && time(x) == Some(d)
    ensures TimedAt(s, d, time) == []
  {
    forall i | 0 <= i < |s|
      ensures time(s[i]) != Some(d)
    {
      if i > 0 {
        assert !Later(s[i], s[0], time);
      }
    }
    NoneTimedAt(s, d, time);
  }

  /** `InsertLatest` places `x` after every element of its own time already in a sorted list. */
  lemma {:induction false} InsertAfterSameTime<T>(x: T, s: seq<T>, d: int, time: T -> Option<int>)
    requires AllTimed(s, time) && time(x).Some? && LatestFirst(s, time)
    ensures TimedAt(InsertLatest(x, s, time), d, time) == TimedAt(s, d, time) + AtTime(x, d, time)
  {
    if s == [] {
      assert InsertLatest(x, s, time) == [x];
    } else if Later(x, s[0], time) {
      assert InsertLatest(x, s, time) == [x] + s;
      if time(x) == Some(d) {
        NoneAtLaterTime(x, s, d, time);
      }
    } else {
      var t := s[1..];
      assert AllTimed(t, time) && LatestFirst(t, time) by {
        forall i | 0 <= i < |t| ensures t[i] == s[i + 1] { }
      }
      assert InsertLatest(x, s, time) == [s[0]] + InsertLatest(x, t, time);
      TimedAtCons(s[0], InsertLatest(x, t, time), d, time);
      InsertAfterSameTime(x, t, d, time);
    }
  }

  /** One step of the sort: the last element goes into the sorted rest. */
  lemma SortLatestFirstStep<T>(s: seq<T>, time: T -> Option<int>)
    requires s != []
    ensures SortLatestFirst(s, time) == InsertLatest(s[|s| - 1], SortLatestFirst(s[..|s| - 1], time), time)
  {
  }

  /** Inserting into the sorted form of a timed list puts `x` after the elements of its time. */
  lemma InsertAfterSorted<T>(x: T, init: seq<T>, d: int, time: T -> Option<int>)
    requires AllTimed(init, time) && time(x).Some?
    ensures TimedAt(InsertLatest(x, SortLatestFirst(init, time), time), d, time) ==
      TimedAt(SortLatestFirst(init, time), d, time) + AtTime(x, d, time)
  {
    SortLatestFirstSorted(init, time);
    InsertAfterSameTime(x, SortLatestFirst(init, time), d, time);
  }

  /** The elements of time `d` in a non-empty list: those before the last, then the last if it has that time. */
  lemma TimedAtOfLast<T>(s: seq<T>, d: int, time: T -> Option<int>)
    requires s != []
    ensures TimedAt(s, d, time) == TimedAt(s[..|s| - 1], d, time) + AtTime(s[|s| - 1], d, time)
  {
    assert s == s[..|s| - 1] + [s[|s| - 1]];
    TimedAtSnoc(s[..|s| - 1], s[|s| - 1], d, time);
  }

  /** The sort is stable: elements of the same time keep their order. */
  lemma {:induction false} SortKeepsSameTimeOrder<T>(s: seq<T>, d: int, time: T -> Option<int>)
    requires AllTimed(s, time)
    ensures TimedAt(SortLatestFirst(s, time), d, time) == TimedAt(s, d, time)
  {
    if s != [] {
      var n := |s| - 1;
      assert AllTimed(s[..n], time) by {
        forall i | 0 <= i < n ensures s[..n][i] == s[i] { }
      }
      SortLatestFirstStep(s, time);
      InsertAfterSorted(s[n], s[..n], d, time);
      SortKeepsSameTimeOrder(s[..n], d, time);
      TimedAtOfLast(s, d, time);
    }
  }
}
