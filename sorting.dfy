/**
 * A stable sort by key. It stands for Python's `list.sort(key=...)`, which
 * is guaranteed stable, and for an SQL `ORDER BY` whose ties come back in
 * storage order. The sort is an insertion sort; what it promises is proved
 * below: the result is ordered by key, is a permutation of the input, and
 * keeps the input order among rows with equal keys.
 */
module Sorting {
  import opened Seqs

  /** `le` is a total order on keys. */
  ghost predicate TotalOrder<K(!new)>(le: (K, K) -> bool) {
    && (forall a, b :: le(a, b) || le(b, a))
    && (forall a, b :: le(a, b) && le(b, a) ==> a == b)
    && (forall a, b, c :: le(a, b) && le(b, c) ==> le(a, c))
  }

  /** The rows are in ascending order of key. */
  ghost predicate SortedBy<T, K>(s: seq<T>, key: T -> K, le: (K, K) -> bool) {
    forall i, j :: 0 <= i < j < |s| ==> le(key(s[i]), key(s[j]))
  }

  /** A prefix of sorted rows is sorted. */
  lemma SortedByPrefix<T, K>(s: seq<T>, key: T -> K, le: (K, K) -> bool, k: int)
    requires SortedBy(s, key, le)
    requires 0 <= k <= |s|
    ensures SortedBy(s[..k], key, le)
  {
    forall i, j | 0 <= i < j < k ensures le(key(s[..k][i]), key(s[..k][j])) {
      assert s[..k][i] == s[i] && s[..k][j] == s[j];
    }
  }

  /** Puts `x` into sorted `s` after every row whose key is not greater than its own. */
  function Insert<T, K>(x: T, s: seq<T>, key: T -> K, le: (K, K) -> bool): (r: seq<T>)
    ensures |r| == |s| + 1
    ensures multiset(r) == multiset(s) + multiset{x}
    decreases |s|
  {
    if s == [] || !le(key(s[0]), key(x)) then [x] + s
    else
      assert s == [s[0]] + s[1..];
      [s[0]] + Insert(x, s[1..], key, le)
  }

  /** Stable insertion sort: rows are inserted in input order. */
  function SortBy<T, K>(s: seq<T>, key: T -> K, le: (K, K) -> bool): (r: seq<T>)
    ensures |r| == |s|
    ensures multiset(r) == multiset(s)
    decreases |s|
  {
    if s == [] then []
    else
      assert s == s[..|s| - 1] + [s[|s| - 1]];
      Insert(s[|s| - 1], SortBy(s[..|s| - 1], key, le), key, le)
  }

  /** Every key of `Insert(x, s)` is at least `b` when `x`'s and all of `s`'s are. */
  lemma {:induction false} InsertLowerBound<T, K>(x: T, s: seq<T>, key: T -> K, le: (K, K) -> bool, b: K)
    requires le(b, key(x))
    requires forall j :: 0 <= j < |s| ==> le(b, key(s[j]))
    ensures forall j :: 0 <= j < |Insert(x, s, key, le)| ==> le(b, key(Insert(x, s, key, le)[j]))
    decreases |s|
  {
    if s != [] && le(key(s[0]), key(x)) {
      var rest := Insert(x, s[1..], key, le);
      InsertLowerBound(x, s[1..], key, le, b);
      assert Insert(x, s, key, le) == [s[0]] + rest;
    }
  }

  lemma {:induction false} InsertSorted<T, K(!new)>(x: T, s: seq<T>, key: T -> K, le: (K, K) -> bool)
    requires TotalOrder(le)
    requires SortedBy(s, key, le)
    ensures SortedBy(Insert(x, s, key, le), key, le)
    decreases |s|
  {
    var r := Insert(x, s, key, le);
    if s == [] || !le(key(s[0]), key(x)) {
      assert r == [x] + s;
      if s != [] {
        assert le(key(x), key(s[0]));
      }
      forall i, j | 0 <= i < j < |r| ensures le(key(r[i]), key(r[j])) {
        if i == 0 {
          assert r[j] == s[j - 1];
          if j > 1 {
            assert le(key(s[0]), key(s[j - 1]));
          }
        } else {
          assert r[i] == s[i - 1] && r[j] == s[j - 1];
        }
      }
    } else {
      var rest := Insert(x, s[1..], key, le);
      InsertSorted(x, s[1..], key, le);
      InsertLowerBound(x, s[1..], key, le, key(s[0]));
      assert r == [s[0]] + rest;
      forall i, j | 0 <= i < j < |r| ensures le(key(r[i]), key(r[j])) {
        if i == 0 {
          assert r[j] == rest[j - 1];
        } else {
          assert r[i] == rest[i - 1] && r[j] == rest[j - 1];
        }
      }
    }
  }

  /** The result of the sort is in ascending order of key. */
  lemma {:induction false} SortBySorted<T, K(!new)>(s: seq<T>, key: T -> K, le: (K, K) -> bool)
    requires TotalOrder(le)
    ensures SortedBy(SortBy(s, key, le), key, le)
    decreases |s|
  {
    if s != [] {
      SortBySorted(s[..|s| - 1], key, le);
      InsertSorted(s[|s| - 1], SortBy(s[..|s| - 1], key, le), key, le);
    }
  }

  /** A row whose key is below the first key of sorted `s` has no equal-keyed row in `s`. */
  lemma NoEqualKeyAfter<T, K>(s: seq<T>, key: T -> K, le: (K, K) -> bool, k: K)
    requires le(k, k)
    requires SortedBy(s, key, le)
    requires s != [] && !le(key(s[0]), k)
    ensures Filter(s, HasKey(key, k)) == []
  {
    var p := HasKey(key, k);
    forall j | 0 <= j < |s| ensures !p(s[j]) {
      if j > 0 {
        assert le(key(s[0]), key(s[j]));
      }
    }
    FilterKeepsNone(s, p);
  }

  /** Inserting `x` adds it after every row with the same key. */
  lemma {:induction false} InsertStable<T, K>(x: T, s: seq<T>, key: T -> K, le: (K, K) -> bool, k: K)
    requires le(k, k)
    requires SortedBy(s, key, le)
    ensures Filter(Insert(x, s, key, le), HasKey(key, k))
         == Filter(s, HasKey(key, k)) + (if key(x) == k then [x] else [])
    decreases |s|
  {
    if s == [] {
    } else if !le(key(s[0]), key(x)) {
      var r := [x] + s;
      assert r[0] == x && r[1..] == s;
      if key(x) == k {
        NoEqualKeyAfter(s, key, le, k);
      }
    } else {
      var rest := Insert(x, s[1..], key, le);
      InsertStable(x, s[1..], key, le, k);
      var r := [s[0]] + rest;
      assert r[0] == s[0] && r[1..] == rest;
    }
  }

  /** Sorting one more row adds it after every row with the same key. */
  lemma SortBySnocStable<T, K(!new)>(s: seq<T>, x: T, key: T -> K, le: (K, K) -> bool, k: K)
    requires TotalOrder(le)
    ensures Filter(SortBy(s + [x], key, le), HasKey(key, k))
         == Filter(SortBy(s, key, le), HasKey(key, k)) + (if key(x) == k then [x] else [])
  {
    assert (s + [x])[..|s|] == s;
    SortBySorted(s, key, le);
    assert le(k, k);
    InsertStable(x, SortBy(s, key, le), key, le, k);
  }

  /**
   * Stability: for every key, the rows with that key come out in the order
   * they went in.
   */
  lemma {:induction false} SortByStable<T, K(!new)>(s: seq<T>, key: T -> K, le: (K, K) -> bool, k: K)
    requires TotalOrder(le)
    ensures Filter(SortBy(s, key, le), HasKey(key, k)) == Filter(s, HasKey(key, k))
    decreases |s|
  {
    if s != [] {
      var init, last := s[..|s| - 1], s[|s| - 1];
      assert s == init + [last];
      SortBySnocStable(init, last, key, le, k);
      SortByStable(init, key, le, k);
      FilterSnoc(init, last, HasKey(key, k));
    }
  }
}
