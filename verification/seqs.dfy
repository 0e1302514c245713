/**
 * Sequence operations behind `Array.prototype.filter` and the stable
 * `Array.prototype.sort` (section 23.1.3.30 of ECMA-262, 2023 edition,
 * requires the sort to be stable), with the facts the application's
 * callers rely on.
 */
module Seqs {

  // ---------------------------------------------------------------------------
  // Subsequences

  /** `r` is obtained from `s` by deleting elements, keeping the order. */
  predicate IsSubsequence<T(==)>(r: seq<T>, s: seq<T>)
    decreases |s|
  {
    r == [] || (s != [] && ((r[0] == s[0] && IsSubsequence(r[1..], s[1..])) || IsSubsequence(r, s[1..])))
  }

  lemma {:induction false} SubsequenceOfSelf<T>(s: seq<T>)
    ensures IsSubsequence(s, s)
    decreases |s|
  {
    if s != [] { SubsequenceOfSelf(s[1..]); }
  }

  /** Every element of a subsequence is an element of the original. */
  lemma {:induction false} SubsequenceMembers<T>(r: seq<T>, s: seq<T>)
    requires IsSubsequence(r, s)
    ensures forall x :: x in r ==> x in s
    decreases |s|
  {
    if r != [] {
      if r[0] == s[0] && IsSubsequence(r[1..], s[1..]) {
        SubsequenceMembers(r[1..], s[1..]);
        assert r == [r[0]] + r[1..];
      } else {
        SubsequenceMembers(r, s[1..]);
      }
    }
  }

  // ---------------------------------------------------------------------------
  // Filter

  /** `s.filter(p)`. */
  function Filter<T>(s: seq<T>, p: T -> bool): (r: seq<T>)
    ensures |r| <= |s|
    ensures forall i :: 0 <= i < |r| ==> p(r[i])
    decreases |s|
  {
    if s == [] then []
    else if p(s[0]) then [s[0]] + Filter(s[1..], p)
    else Filter(s[1..], p)
  }

  /** The filtered sequence keeps the original order. */
  lemma {:induction false} FilterIsSubsequence<T>(s: seq<T>, p: T -> bool)
    ensures IsSubsequence(Filter(s, p), s)
    decreases |s|
  {
    if s != [] {
      FilterIsSubsequence(s[1..], p);
      var rest := Filter(s[1..], p);
      if p(s[0]) {
        assert ([s[0]] + rest)[1..] == rest;
      } else {
      }
    }
  }

  /** Filter keeps every occurrence of an element that passes, and none of one that fails. */
  lemma {:induction false} FilterCount<T>(s: seq<T>, p: T -> bool)
    ensures forall x :: multiset(Filter(s, p))[x] == if p(x) then multiset(s)[x] else 0
    decreases |s|
  {
    if s != [] {
      FilterCount(s[1..], p);
      assert s == [s[0]] + s[1..];
      assert multiset(s) == multiset{s[0]} + multiset(s[1..]);
    }
  }

  /** Membership in the filtered sequence, both directions. */
  lemma FilterMembers<T>(s: seq<T>, p: T -> bool)
    ensures forall x :: x in Filter(s, p) <==> x in s && p(x)
  {
    FilterCount(s, p);
    forall x ensures x in Filter(s, p) <==> x in s && p(x) {
      assert x in Filter(s, p) <==> multiset(Filter(s, p))[x] > 0;
      assert x in s <==> multiset(s)[x] > 0;
    }
  }

  /** When every element passes, filtering returns the sequence itself. */
  lemma {:induction false} FilterAll<T>(s: seq<T>, p: T -> bool)
    requires forall i :: 0 <= i < |s| ==> p(s[i])
    ensures Filter(s, p) == s
    decreases |s|
  {
    if s != [] {
      FilterAll(s[1..], p);
    }
  }

  /** Filtering twice, where the second test implies the first, is filtering once. */
  lemma {:induction false} FilterOfFilter<T>(s: seq<T>, p: T -> bool, q: T -> bool)
    requires forall x :: q(x) ==> p(x)
    ensures Filter(Filter(s, p), q) == Filter(s, q)
    decreases |s|
  {
    if s != [] {
      FilterOfFilter(s[1..], p, q);
      if p(s[0]) {
        assert ([s[0]] + Filter(s[1..], p))[1..] == Filter(s[1..], p);
      }
    }
  }

  /** Prefix of a filter is filter on the prepended element. */
  lemma FilterCons<T>(x: T, s: seq<T>, p: T -> bool)
    ensures Filter([x] + s, p) == if p(x) then [x] + Filter(s, p) else Filter(s, p)
  {
    assert ([x] + s)[1..] == s;
  }

  /** Filtering out an element that is present makes the sequence shorter. */
  lemma {:induction false} FilterShorter<T>(s: seq<T>, p: T -> bool, x: T)
    requires x in s && !p(x)
    ensures |Filter(s, p)| < |s|
    decreases |s|
  {
    if s[0] != x {
      FilterShorter(s[1..], p, x);
    }
  }

  /** Filtering distributes over concatenation. */
  lemma {:induction false} FilterAppend<T>(a: seq<T>, b: seq<T>, p: T -> bool)
    ensures Filter(a + b, p) == Filter(a, p) + Filter(b, p)
    decreases |a|
  {
    if a != [] {
      FilterAppend(a[1..], b, p);
      assert (a + b)[1..] == a[1..] + b;
    } else {
      assert a + b == b;
    }
  }

  // ---------------------------------------------------------------------------
  // Stable sort by a descending integer key

  /** The elements are in non-increasing order of `key`. */
  predicate DescendingBy<T>(s: seq<T>, key: T -> int) {
    forall i, j :: 0 <= i < j < |s| ==> key(s[i]) >= key(s[j])
  }

  /** The test "has key k", for picking out one class of equal keys. */
  function KeyIs<T>(key: T -> int, k: int): T -> bool {
    x => key(x) == k
  }

  /**
   * `r` lists, for every key value, the elements with that key in the same
   * order as `s` does: the defining property of a stable sort.
   */
  ghost predicate SameOrderPerKey<T>(r: seq<T>, s: seq<T>, key: T -> int) {
    forall k :: Filter(r, KeyIs(key, k)) == Filter(s, KeyIs(key, k))
  }

  /**
   * The first element of a descending sequence bounds the keys of any
   * rearrangement of the rest together with a smaller `x`.
   */
  lemma HeadBoundsRest<T>(x: T, s: seq<T>, key: T -> int, rest: seq<T>)
    requires DescendingBy(s, key) && s != [] && key(x) < key(s[0])
    requires multiset(rest) == multiset(s[1..]) + multiset{x}
    ensures forall j :: 0 <= j < |rest| ==> key(s[0]) >= key(rest[j])
  {
    forall j | 0 <= j < |rest| ensures key(s[0]) >= key(rest[j]) {
      assert rest[j] in multiset(rest);
      if rest[j] != x {
        assert rest[j] in multiset(s[1..]);
        var m :| 0 <= m < |s[1..]| && s[1..][m] == rest[j];
        assert s[m + 1] == rest[j];
      }
    }
  }

  /** Dropping the first element keeps a sequence descending. */
  lemma DescendingTail<T>(s: seq<T>, key: T -> int)
    requires s != [] && DescendingBy(s, key)
    ensures DescendingBy(s[1..], key)
  {
    forall i, j | 0 <= i < j < |s[1..]| ensures key(s[1..][i]) >= key(s[1..][j]) {
      assert s[1..][i] == s[i + 1] && s[1..][j] == s[j + 1];
    }
  }

  /** A descending sequence stays descending behind an element whose key bounds all of it. */
  lemma ConsDescending<T>(h: T, t: seq<T>, key: T -> int)
    requires DescendingBy(t, key)
    requires forall j :: 0 <= j < |t| ==> key(h) >= key(t[j])
    ensures DescendingBy([h] + t, key)
  {
    var r := [h] + t;
    forall i, j | 0 <= i < j < |r| ensures key(r[i]) >= key(r[j]) {
      assert r[j] == t[j - 1];
      if i > 0 {
        assert r[i] == t[i - 1];
      }
    }
  }

  /** Inserts `x` in front of the first element whose key does not exceed its own. */
  function InsertByKey<T>(x: T, s: seq<T>, key: T -> int): (r: seq<T>)
    ensures multiset(r) == multiset(s) + multiset{x}
    ensures DescendingBy(s, key) ==> DescendingBy(r, key)
    decreases |s|
  {
    if s == [] || key(s[0]) <= key(x) then
      assert DescendingBy(s, key) ==> DescendingBy([x] + s, key) by {
        if DescendingBy(s, key) {
          ConsDescending(x, s, key);
        }
      }
      [x] + s
    else
      var rest := InsertByKey(x, s[1..], key);
      assert s == [s[0]] + s[1..];
      assert DescendingBy(s, key) ==> DescendingBy([s[0]] + rest, key) by {
        if DescendingBy(s, key) {
          DescendingTail(s, key);
          HeadBoundsRest(x, s, key, rest);
          ConsDescending(s[0], rest, key);
        }
      }
      [s[0]] + rest
  }

  /** Insertion places `x` ahead of the equal keys already present. */
  lemma {:induction false} InsertByKeyPerKey<T>(x: T, s: seq<T>, key: T -> int, k: int)
    ensures Filter(InsertByKey(x, s, key), KeyIs(key, k))
         == if key(x) == k then [x] + Filter(s, KeyIs(key, k)) else Filter(s, KeyIs(key, k))
    decreases |s|
  {
    var p := KeyIs(key, k);
    if s == [] || key(s[0]) <= key(x) {
      FilterCons(x, s, p);
    } else {
      InsertByKeyPerKey(x, s[1..], key, k);
      FilterCons(s[0], InsertByKey(x, s[1..], key), p);
      FilterCons(s[0], s[1..], p);
      assert [s[0]] + s[1..] == s;
    }
  }

  /** Stable insertion sort into non-increasing order of `key`. */
  function SortByKeyDescending<T>(s: seq<T>, key: T -> int): (r: seq<T>)
    ensures multiset(r) == multiset(s)
    ensures DescendingBy(r, key)
    decreases |s|
  {
    if s == [] then []
    else
      assert s == [s[0]] + s[1..];
      InsertByKey(s[0], SortByKeyDescending(s[1..], key), key)
  }

  /** The sort is stable: equal keys keep their original relative order. */
  lemma {:induction false} SortIsStable<T>(s: seq<T>, key: T -> int)
    ensures SameOrderPerKey(SortByKeyDescending(s, key), s, key)
    decreases |s|
  {
    if s != [] {
      SortIsStable(s[1..], key);
      forall k ensures Filter(SortByKeyDescending(s, key), KeyIs(key, k)) == Filter(s, KeyIs(key, k)) {
        InsertByKeyPerKey(s[0], SortByKeyDescending(s[1..], key), key, k);
        FilterCons(s[0], s[1..], KeyIs(key, k));
        assert [s[0]] + s[1..] == s;
      }
    }
  }

  // ---------------------------------------------------------------------------
  // Distinct elements

  predicate Distinct<T(==)>(s: seq<T>) {
    forall i, j :: 0 <= i < j < |s| ==> s[i] != s[j]
  }

  /** In a sequence without repetitions, each member occurs exactly once. */
  lemma {:induction false} DistinctCount<T>(s: seq<T>, x: T)
    requires Distinct(s) && x in s
    ensures multiset(s)[x] == 1
    decreases |s|
  {
    assert s == [s[0]] + s[1..];
    if s[0] == x {
      forall m | 0 <= m < |s[1..]| ensures s[1..][m] != x {
        assert s[1..][m] == s[m + 1];
      }
    } else {
      DistinctCount(s[1..], x);
    }
  }
}
