/**
 * `Array.prototype.sort` with a consistent comparator: a stable sort. The
 * comparator is given as `le(a, b)`, "a may stay before b", i.e.
 * `compare(a, b) <= 0`; two elements rank equal when each may stay before the
 * other, and a stable sort keeps such elements in their input order.
 */
module StableSort {

  ghost predicate TotalPreorder<T(!new)>(le: (T, T) -> bool) {
    && (forall a, b :: le(a, b) || le(b, a))
    && (forall a, b, c :: le(a, b) && le(b, c) ==> le(a, c))
  }

  predicate Sorted<T>(s: seq<T>, le: (T, T) -> bool) {
    forall i, j :: 0 <= i < j < |s| ==> le(s[i], s[j])
  }

  predicate SameRank<T>(le: (T, T) -> bool, a: T, b: T) {
    le(a, b) && le(b, a)
  }

  /** The elements of `s` that rank equal to `x`, in their order in `s`. */
  function RankedWith<T>(s: seq<T>, le: (T, T) -> bool, x: T): seq<T> {
    if s == [] then []
    else RankedWith(s[..|s| - 1], le, x) + (if SameRank(le, s[|s| - 1], x) then [s[|s| - 1]] else [])
  }

  /** Insert `x` after every element that may stay before it, scanning from the end. */
  function Insert<T>(t: seq<T>, x: T, le: (T, T) -> bool): seq<T> {
    if t == [] then [x]
    else if le(t[|t| - 1], x) then t + [x]
    else Insert(t[..|t| - 1], x, le) + [t[|t| - 1]]
  }

  /** Insertion sort: the reference stable sort. */
  function Sort<T>(s: seq<T>, le: (T, T) -> bool): seq<T> {
    if s == [] then [] else Insert(Sort(s[..|s| - 1], le), s[|s| - 1], le)
  }

  lemma {:induction false} InsertPermutes<T>(t: seq<T>, x: T, le: (T, T) -> bool)
    ensures multiset(Insert(t, x, le)) == multiset(t) + multiset{x}
    ensures |Insert(t, x, le)| == |t| + 1
  {
    if t != [] && !le(t[|t| - 1], x) {
      InsertPermutes(t[..|t| - 1], x, le);
      assert t == t[..|t| - 1] + [t[|t| - 1]];
    }
  }

  lemma {:induction false} InsertSorted<T(!new)>(t: seq<T>, x: T, le: (T, T) -> bool)
    requires TotalPreorder(le)
    requires Sorted(t, le)
    ensures Sorted(Insert(t, x, le), le)
  {
    if t != [] && !le(t[|t| - 1], x) {
      var last := t[|t| - 1];
      var init := t[..|t| - 1];
      InsertSorted(init, x, le);
      InsertPermutes(init, x, le);
      var u := Insert(init, x, le);
      forall i | 0 <= i < |u|
        ensures le(u[i], last)
      {
        assert u[i] in multiset(u);
        if u[i] != x {
          assert u[i] in multiset(init);
          var k :| 0 <= k < |init| && init[k] == u[i];
          assert t[k] == u[i];
        }
      }
      var r := u + [last];
      forall i, j | 0 <= i < j < |r|
        ensures le(r[i], r[j])
      {
        if j < |u| {
          assert r[i] == u[i] && r[j] == u[j];
        } else {
          assert r[i] == u[i];
        }
      }
    }
  }

  /** The sort yields an ordered permutation of its input with the same length. */
  lemma {:induction false} SortSortedPermutation<T(!new)>(s: seq<T>, le: (T, T) -> bool)
    requires TotalPreorder(le)
    ensures Sorted(Sort(s, le), le)
    ensures multiset(Sort(s, le)) == multiset(s)
    ensures |Sort(s, le)| == |s|
  {
    if s != [] {
      var init := s[..|s| - 1];
      SortSortedPermutation(init, le);
      InsertSorted(Sort(init, le), s[|s| - 1], le);
      InsertPermutes(Sort(init, le), s[|s| - 1], le);
      assert s == init + [s[|s| - 1]];
    }
  }

  lemma {:induction false} RankedWithAppend<T>(s: seq<T>, y: T, le: (T, T) -> bool, x: T)
    ensures RankedWith(s + [y], le, x) == RankedWith(s, le, x) + (if SameRank(le, y, x) then [y] else [])
  {
    assert (s + [y])[..|s + [y]| - 1] == s;
  }

  lemma {:induction false} InsertStable<T(!new)>(t: seq<T>, y: T, le: (T, T) -> bool, x: T)
    requires TotalPreorder(le)
    ensures RankedWith(Insert(t, y, le), le, x) == RankedWith(t, le, x) + (if SameRank(le, y, x) then [y] else [])
  {
    if t == [] {
      assert Insert(t, y, le) == [] + [y];
      RankedWithAppend([], y, le, x);
    } else if le(t[|t| - 1], y) {
      RankedWithAppend(t, y, le, x);
    } else {
      var last := t[|t| - 1];
      var init := t[..|t| - 1];
      InsertStable(init, y, le, x);
      RankedWithAppend(Insert(init, y, le), last, le, x);
      assert !(SameRank(le, y, x) && SameRank(le, last, x));
    }
  }

  /** Stability: for every rank, the elements of that rank keep their input order. */
  lemma {:induction false} SortStable<T(!new)>(s: seq<T>, le: (T, T) -> bool, x: T)
    requires TotalPreorder(le)
    ensures RankedWith(Sort(s, le), le, x) == RankedWith(s, le, x)
  {
    if s != [] {
      var init := s[..|s| - 1];
      SortStable(init, le, x);
      InsertStable(Sort(init, le), s[|s| - 1], le, x);
    }
  }

  /** Appending an element that may stay after all others leaves it last. */
  lemma {:induction false} InsertAtEnd<T>(t: seq<T>, x: T, le: (T, T) -> bool)
    requires t != [] ==> le(t[|t| - 1], x)
    ensures Insert(t, x, le) == t + [x]
  {
  }

  /** An already ordered sequence is its own sort. */
  lemma {:induction false} SortOfSorted<T>(s: seq<T>, le: (T, T) -> bool)
    requires Sorted(s, le)
    ensures Sort(s, le) == s
  {
    if s != [] {
      var init := s[..|s| - 1];
      assert Sorted(init, le);
      SortOfSorted(init, le);
      if |init| > 0 {
        assert le(s[|s| - 2], s[|s| - 1]);
      }
      InsertAtEnd(init, s[|s| - 1], le);
      assert init + [s[|s| - 1]] == s;
    }
  }
}
