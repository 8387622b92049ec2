/** Python's stable `list.sort(key=...)` and `sorted(..., key=...)`, used by
    `Polygon.simplify` and `Polygon.convex_hull` (geometry/shapes/polygon.py).
    `leq(a, b)` stands for `not key(b) < key(a)`: it holds when `a` may stay
    in front of `b`. */
module Sorting {

  /** Inserts `x` in front of the first element it may precede. */
  function Insert<T>(x: T, s: seq<T>, leq: (T, T) -> bool): (r: seq<T>)
    ensures |r| == |s| + 1
    ensures multiset(r) == multiset(s) + multiset{x}
  {
    if s == [] then [x]
    else if leq(x, s[0]) then [x] + s
    else
      assert s == [s[0]] + s[1..];
      [s[0]] + Insert(x, s[1..], leq)
  }

  /** Stable insertion sort: an element is placed before every later element
      with an equal key, so equal keys keep their original order. */
  function StableSort<T>(s: seq<T>, leq: (T, T) -> bool): (r: seq<T>)
  {
    if s == [] then [] else Insert(s[0], StableSort(s[1..], leq), leq)
  }

  ghost predicate Total<T(!new)>(leq: (T, T) -> bool)
  {
    forall a, b :: leq(a, b) || leq(b, a)
  }

  ghost predicate Transitive<T(!new)>(leq: (T, T) -> bool)
  {
    forall a, b, c :: leq(a, b) && leq(b, c) ==> leq(a, c)
  }

  /** Each element may precede its successor. */
  predicate Sorted<T>(s: seq<T>, leq: (T, T) -> bool)
  {
    forall i :: 0 <= i < |s| - 1 ==> leq(s[i], s[i + 1])
  }

  /** Sorting keeps exactly the elements it was given. */
  lemma {:induction false} SortPermutes<T>(s: seq<T>, leq: (T, T) -> bool)
    ensures |StableSort(s, leq)| == |s|
    ensures multiset(StableSort(s, leq)) == multiset(s)
  {
    if s != [] {
      SortPermutes(s[1..], leq);
      assert s == [s[0]] + s[1..];
    }
  }

  /** The head of an insertion is `x` or the old head. */
  lemma InsertHead<T>(x: T, s: seq<T>, leq: (T, T) -> bool)
    requires |s| > 0
    ensures Insert(x, s, leq)[0] == if leq(x, s[0]) then x else s[0]
  {
  }

  /** With a total relation, inserting into a sorted sequence keeps it
      sorted. */
  lemma {:induction false} InsertSorted<T(!new)>(x: T, s: seq<T>, leq: (T, T) -> bool)
    requires Total(leq) && Sorted(s, leq)
    ensures Sorted(Insert(x, s, leq), leq)
  {
    if s != [] && !leq(x, s[0]) {
      var t := Insert(x, s[1..], leq);
      assert Sorted(s[1..], leq) by {
        forall i | 0 <= i < |s[1..]| - 1 ensures leq(s[1..][i], s[1..][i + 1]) {
          assert leq(s[i + 1], s[i + 2]);
        }
      }
      InsertSorted(x, s[1..], leq);
      assert leq(s[0], x);
      if |s| > 1 {
        InsertHead(x, s[1..], leq);
        assert leq(s[0], s[1]);
      }
      assert leq(s[0], t[0]);
      var r := [s[0]] + t;
      assert Insert(x, s, leq) == r;
      forall i | 0 <= i < |r| - 1 ensures leq(r[i], r[i + 1]) {
        if i > 0 {
          assert r[i] == t[i - 1] && r[i + 1] == t[i];
        }
      }
    }
  }

  /** With a total relation, the result is sorted. */
  lemma {:induction false} SortSorts<T(!new)>(s: seq<T>, leq: (T, T) -> bool)
    requires Total(leq)
    ensures Sorted(StableSort(s, leq), leq)
  {
    if s != [] {
      SortSorts(s[1..], leq);
      InsertSorted(s[0], StableSort(s[1..], leq), leq);
    }
  }

  /** An already sorted sequence is returned unchanged (the sort is stable). */
  lemma {:induction false} SortFixesSorted<T>(s: seq<T>, leq: (T, T) -> bool)
    requires Sorted(s, leq)
    ensures StableSort(s, leq) == s
  {
    if s != [] {
      assert Sorted(s[1..], leq) by {
        forall i | 0 <= i < |s[1..]| - 1 ensures leq(s[1..][i], s[1..][i + 1]) {
          assert leq(s[i + 1], s[i + 2]);
        }
      }
      SortFixesSorted(s[1..], leq);
      assert StableSort(s[1..], leq) == s[1..];
      if |s| > 1 {
        assert leq(s[0], s[1]);
      }
      assert [s[0]] + s[1..] == s;
    }
  }

  /** Sorting twice gives the same order as sorting once. */
  lemma SortIdempotent<T(!new)>(s: seq<T>, leq: (T, T) -> bool)
    requires Total(leq)
    ensures StableSort(StableSort(s, leq), leq) == StableSort(s, leq)
  {
    SortSorts(s, leq);
    SortFixesSorted(StableSort(s, leq), leq);
  }

  /** With a transitive and total relation, the head of a sorted sequence may
      precede every element. */
  lemma {:induction false} SortedHeadIsLeast<T(!new)>(s: seq<T>, leq: (T, T) -> bool, i: int)
    requires Total(leq) && Transitive(leq) && Sorted(s, leq)
    requires 0 <= i < |s|
    ensures leq(s[0], s[i])
  {
    if i > 0 {
      SortedHeadIsLeast(s, leq, i - 1);
      assert leq(s[i - 1], s[i]);
    }
  }
}
