/**
 * Python's `list.sort(key=...)` / `sorted(..., key=...)` on a real-valued
 * key: a stable ascending sort. Descending stable sorts (`reverse=True`)
 * are this sort on the negated key, since Python keeps stability under
 * `reverse`.
 */
module Sorting {
  import opened Common

  /** Keys never decrease from left to right. */
  ghost predicate SortedBy<T>(key: T -> real, s: seq<T>)
  {
    forall i, j :: 0 <= i < j < |s| ==> key(s[i]) <= key(s[j])
  }

  /** The elements whose key is exactly `k`. */
  function KeyIs<T>(key: T -> real, k: real): T -> bool
  {
    x => key(x) == k
  }

  /** Every key in `s` is at least `b`. */
  ghost predicate BoundedBelow<T>(key: T -> real, b: real, s: seq<T>)
  {
    forall i :: 0 <= i < |s| ==> b <= key(s[i])
  }

  /** Inserts `x` in front of the first element whose key is not smaller. */
  function Insert<T>(key: T -> real, x: T, s: seq<T>): (r: seq<T>)
    ensures |r| == |s| + 1
    ensures multiset(r) == multiset(s) + multiset{x}
    decreases |s|
  {
    if |s| == 0 || key(x) <= key(s[0]) then [x] + s
    else
      assert s == [s[0]] + s[1..];
      [s[0]] + Insert(key, x, s[1..])
  }

  /** A lower bound of `x` and of every key of `s` bounds the insertion result too. */
  lemma {:induction false} InsertBounded<T>(key: T -> real, x: T, s: seq<T>, b: real)
    requires BoundedBelow(key, b, s) && b <= key(x)
    ensures BoundedBelow(key, b, Insert(key, x, s))
    decreases |s|
  {
    if |s| > 0 && key(s[0]) < key(x) {
      InsertBounded(key, x, s[1..], b);
    }
  }

  /** Insertion into a sorted sequence keeps it sorted. */
  lemma {:induction false} InsertSorted<T>(key: T -> real, x: T, s: seq<T>)
    requires SortedBy(key, s)
    ensures SortedBy(key, Insert(key, x, s))
    decreases |s|
  {
    if |s| > 0 && key(s[0]) < key(x) {
      InsertSorted(key, x, s[1..]);
      InsertBounded(key, x, s[1..], key(s[0]));
    }
  }

  /** Stable ascending insertion sort on `key`. */
  function Sort<T>(key: T -> real, s: seq<T>): (r: seq<T>)
    ensures |r| == |s|
    ensures multiset(r) == multiset(s)
    ensures SortedBy(key, r)
    decreases |s|
  {
    if |s| == 0 then []
    else
      assert s == [s[0]] + s[1..];
      InsertSorted(key, s[0], Sort(key, s[1..]));
      Insert(key, s[0], Sort(key, s[1..]))
  }

  /** Inserting `x` keeps it ahead of every element with the same key. */
  lemma {:induction false} InsertStable<T(!new)>(key: T -> real, x: T, s: seq<T>, k: real)
    ensures Filter(KeyIs(key, k), Insert(key, x, s)) == Filter(KeyIs(key, k), [x] + s)
    decreases |s|
  {
    var p := KeyIs(key, k);
    if |s| > 0 && key(s[0]) < key(x) {
      var t := s[1..];
      InsertStable(key, x, t, k);
      FilterCons(p, s[0], Insert(key, x, t));
      FilterCons(p, x, t);
      FilterCons(p, x, s);
      assert s == [s[0]] + t;
      FilterCons(p, s[0], t);
      assert !(p(x) && p(s[0]));
    }
  }

  /**
   * Stability: among the elements that share a key, the sorted sequence
   * keeps their original relative order.
   */
  lemma {:induction false} SortStable<T(!new)>(key: T -> real, s: seq<T>, k: real)
    ensures Filter(KeyIs(key, k), Sort(key, s)) == Filter(KeyIs(key, k), s)
    decreases |s|
  {
    if |s| > 0 {
      var p := KeyIs(key, k);
      SortStable(key, s[1..], k);
      InsertStable(key, s[0], Sort(key, s[1..]), k);
      FilterConcat(p, [s[0]], Sort(key, s[1..]));
      FilterConcat(p, [s[0]], s[1..]);
      assert [s[0]] + s[1..] == s;
    }
  }

  /** Every element of a prefix of a sorted sequence is at most every element after it. */
  lemma SortedPrefixBeforeRest<T>(key: T -> real, s: seq<T>, n: nat)
    requires SortedBy(key, s) && n <= |s|
    ensures forall i, j :: 0 <= i < n <= j < |s| ==> key(s[i]) <= key(s[j])
  {
  }
}
