/**
 * Descending sort by a real-valued key. JavaScript's `Array.prototype.sort`
 * is stable, and so is this insertion sort: an element is placed before the
 * first element whose key is not greater than its own, so among equal keys
 * the input order is kept.
 */
module Sorting {

  predicate SortedDesc<T>(s: seq<T>, key: T -> real) {
    forall i, j :: 0 <= i < j < |s| ==> key(s[i]) >= key(s[j])
  }

  function Insert<T>(x: T, s: seq<T>, key: T -> real): (r: seq<T>)
    requires SortedDesc(s, key)
    ensures SortedDesc(r, key)
    ensures multiset(r) == multiset(s) + multiset{x}
    ensures |r| == |s| + 1
    ensures forall j :: 0 <= j < |r| ==> r[j] == x || r[j] in s
  {
    if s == [] || key(x) >= key(s[0]) then
      ConsSorted(x, s, key);
      [x] + s
    else
      var rest := Insert(x, s[1..], key);
      assert s == [s[0]] + s[1..];
      HeadAbove(s, x, rest, key);
      ConsSorted(s[0], rest, key);
      [s[0]] + rest
  }

  /** An element with a key at least that of a sorted list's head can go in front. */
  lemma ConsSorted<T>(x: T, s: seq<T>, key: T -> real)
    requires SortedDesc(s, key)
    requires forall j :: 0 <= j < |s| ==> key(x) >= key(s[j])
    ensures SortedDesc([x] + s, key)
  {
    var r := [x] + s;
    forall i, j | 0 <= i < j < |r| ensures key(r[i]) >= key(r[j]) {
      assert r[j] == s[j - 1];
      if i > 0 {
        assert r[i] == s[i - 1];
      }
    }
  }

  /** The head of a sorted list has a key at least that of every element of `rest`, when `rest` holds only `x` and the tail. */
  lemma HeadAbove<T>(s: seq<T>, x: T, rest: seq<T>, key: T -> real)
    requires s != [] && SortedDesc(s, key) && key(x) < key(s[0])
    requires forall j :: 0 <= j < |rest| ==> rest[j] == x || rest[j] in s[1..]
    ensures forall j :: 0 <= j < |rest| ==> key(s[0]) >= key(rest[j])
  {
    forall j | 0 <= j < |rest| ensures key(s[0]) >= key(rest[j]) {
      if rest[j] != x {
        var q :| 0 <= q < |s[1..]| && s[1..][q] == rest[j];
        assert s[q + 1] == rest[j];
      }
    }
  }

  /** `[...s].sort((a, b) => key(b) - key(a))`. */
  function SortDesc<T>(s: seq<T>, key: T -> real): (r: seq<T>)
    ensures SortedDesc(r, key)
    ensures multiset(r) == multiset(s)
    ensures |r| == |s|
  {
    if s == [] then []
    else
      assert s == [s[0]] + s[1..];
      Insert(s[0], SortDesc(s[1..], key), key)
  }

  /** The length `s.slice(0, n)` keeps: a negative `n` counts from the end. */
  function SliceLength(len: nat, n: int): (m: nat)
    ensures m <= len
    ensures n >= 0 ==> m == if n < len then n else len
  {
    if n >= 0 then (if n < len then n else len) else if len + n > 0 then len + n else 0
  }

  /** `s.slice(0, n)`. */
  function SliceTo<T>(s: seq<T>, n: int): (r: seq<T>)
    ensures |r| == SliceLength(|s|, n) && r == s[..|r|]
    ensures forall x :: x in r ==> x in s
  {
    s[..SliceLength(|s|, n)]
  }

  /** `s.slice(0, n)` for a non-negative `n`. */
  function Take<T>(s: seq<T>, n: nat): (r: seq<T>)
    ensures |r| == if n < |s| then n else |s|
    ensures r == s[..|r|]
  {
    if n < |s| then s[..n] else s
  }

  /** The head of a list sorted by decreasing key has the greatest key in it. */
  lemma SortedHeadIsMax<T>(s: seq<T>, key: T -> real, x: T)
    requires SortedDesc(s, key) && x in s
    ensures key(s[0]) >= key(x)
  {
    var q :| 0 <= q < |s| && s[q] == x;
    if q > 0 {
      assert key(s[0]) >= key(s[q]);
    }
  }

  /**
   * Keeping the first `n` of a descending sort keeps the `n` largest keys:
   * the kept elements come from the input, are in descending order, and no
   * dropped element has a greater key than a kept one.
   */
  lemma TopN<T>(s: seq<T>, key: T -> real, n: nat)
    ensures var r := Take(SortDesc(s, key), n);
      && SortedDesc(r, key)
      && multiset(r) <= multiset(s)
      && forall a :: a in multiset(s) - multiset(r) ==> forall i :: 0 <= i < |r| ==> key(r[i]) >= key(a)
  {
    var sorted := SortDesc(s, key);
    var r := Take(sorted, n);
    PrefixSorted(sorted, |r|, key);
    SplitMultiset(sorted, |r|);
    forall a | a in multiset(s) - multiset(r)
      ensures forall i :: 0 <= i < |r| ==> key(r[i]) >= key(a)
    {
      BelowPrefix(sorted, |r|, a, key);
    }
  }

  lemma SplitMultiset<T>(s: seq<T>, n: nat)
    requires n <= |s|
    ensures multiset(s[..n]) <= multiset(s)
    ensures multiset(s) - multiset(s[..n]) == multiset(s[n..])
  {
    assert s == s[..n] + s[n..];
  }

  lemma PrefixSorted<T>(s: seq<T>, n: nat, key: T -> real)
    requires SortedDesc(s, key) && n <= |s|
    ensures SortedDesc(s[..n], key)
  {
    var p := s[..n];
    forall i, j | 0 <= i < j < |p| ensures key(p[i]) >= key(p[j]) {
      assert p[i] == s[i] && p[j] == s[j];
    }
  }

  /** In a sorted list, every element after position `n` has a key at most that of every element before it. */
  lemma BelowPrefix<T>(s: seq<T>, n: nat, a: T, key: T -> real)
    requires SortedDesc(s, key) && n <= |s| && a in multiset(s[n..])
    ensures forall i :: 0 <= i < n ==> key(s[..n][i]) >= key(a)
  {
    var rest := s[n..];
    assert a in rest;
    var j :| 0 <= j < |rest| && rest[j] == a;
    assert s[n + j] == a;
    forall i | 0 <= i < n ensures key(s[..n][i]) >= key(a) {
      assert s[..n][i] == s[i];
    }
  }

  /** The elements of `s` whose key is `v`, in order. */
  function WithKey<T>(s: seq<T>, key: T -> real, v: real): (r: seq<T>)
    ensures forall i :: 0 <= i < |r| ==> r[i] in s && key(r[i]) == v
    ensures forall i :: 0 <= i < |s| && key(s[i]) == v ==> s[i] in r
  {
    if s == [] then [] else (if key(s[0]) == v then [s[0]] else []) + WithKey(s[1..], key, v)
  }

  lemma WithKeyHead<T>(s: seq<T>, key: T -> real, v: real)
    requires s != []
    ensures WithKey(s, key, v) == if key(s[0]) == v then [s[0]] + WithKey(s[1..], key, v) else WithKey(s[1..], key, v)
  {
    if key(s[0]) != v {
      assert [] + WithKey(s[1..], key, v) == WithKey(s[1..], key, v);
    }
  }

  lemma Regroup<T>(x: T, hi: seq<T>, lo: seq<T>)
    ensures [x] + (hi + lo) == ([x] + hi) + lo
    ensures hi + [x] + lo == hi + ([x] + lo)
  {
  }

  lemma Regroup2<T>(a: seq<T>, b: seq<T>, c: seq<T>)
    ensures (a + b) + c == a + (b + c)
  {
  }

  lemma ConsRegroup<T>(a: T, t: seq<T>, m: seq<T>, lo: seq<T>)
    ensures [a] + (t + m + lo) == ([a] + t) + m + lo
  {
  }

  /** A list of key-1 elements followed by key-0 elements is sorted. */
  lemma TwoLevelsSorted<T>(hi: seq<T>, lo: seq<T>, key: T -> real)
    requires forall y :: y in hi ==> key(y) == 1.0
    requires forall y :: y in lo ==> key(y) == 0.0
    ensures SortedDesc(hi + lo, key)
  {
    var s := hi + lo;
    forall i, j | 0 <= i < j < |s| ensures key(s[i]) >= key(s[j]) {
      if j < |hi| {
        assert s[i] == hi[i] && s[j] == hi[j];
        assert hi[i] in hi && hi[j] in hi;
      } else if i < |hi| {
        assert s[i] == hi[i] && s[j] == lo[j - |hi|];
        assert hi[i] in hi && lo[j - |hi|] in lo;
      } else {
        assert s[i] == lo[i - |hi|] && s[j] == lo[j - |hi|];
        assert lo[i - |hi|] in lo && lo[j - |hi|] in lo;
      }
    }
  }

  /** Dropping the head of a sorted list leaves it sorted. */
  lemma SortedTail<T>(s: seq<T>, key: T -> real)
    requires s != [] && SortedDesc(s, key)
    ensures SortedDesc(s[1..], key)
  {
    var t := s[1..];
    forall i, j | 0 <= i < j < |t| ensures key(t[i]) >= key(t[j]) {
      assert t[i] == s[i + 1] && t[j] == s[j + 1];
    }
  }

  /** `x` goes after every element of a greater key and before the rest. */
  lemma {:induction false} InsertBelow<T>(x: T, hi: seq<T>, lo: seq<T>, key: T -> real)
    requires SortedDesc(hi + lo, key)
    requires forall k :: 0 <= k < |hi| ==> key(x) < key(hi[k])
    requires lo == [] || key(x) >= key(lo[0])
    ensures Insert(x, hi + lo, key) == hi + [x] + lo
  {
    if hi == [] {
      assert hi + lo == lo;
      assert hi + [x] + lo == [x] + lo;
    } else {
      var s := hi + lo;
      var h, t := hi[0], hi[1..];
      assert hi == [h] + t;
      assert s[0] == h && key(x) < key(h);
      assert s[1..] == t + lo;
      SortedTail(s, key);
      assert forall k :: 0 <= k < |t| ==> t[k] == hi[k + 1];
      InsertBelow(x, t, lo, key);
      assert Insert(x, s, key) == [h] + Insert(x, t + lo, key);
      ConsRegroup(h, t, [x], lo);
    }
  }

  lemma InsertTwoLevels<T>(x: T, hi: seq<T>, lo: seq<T>, key: T -> real)
    requires key(x) == 1.0 || key(x) == 0.0
    requires forall y :: y in hi ==> key(y) == 1.0
    requires forall y :: y in lo ==> key(y) == 0.0
    ensures SortedDesc(hi + lo, key)
    ensures Insert(x, hi + lo, key) == if key(x) == 1.0 then [x] + (hi + lo) else hi + [x] + lo
  {
    TwoLevelsSorted(hi, lo, key);
    var s := hi + lo;
    if key(x) == 1.0 {
      if s != [] {
        assert s[0] in hi || s[0] in lo;
        assert key(x) >= key(s[0]);
      }
      assert Insert(x, s, key) == [x] + s;
    } else {
      forall k | 0 <= k < |hi| ensures key(x) < key(hi[k]) {
        assert hi[k] in hi;
      }
      if lo != [] {
        assert lo[0] in lo;
      }
      InsertBelow(x, hi, lo, key);
    }
  }

  /**
   * Stability, for a key that only takes the values 1 and 0: the descending
   * sort puts the elements with key 1 first and those with key 0 after them,
   * each group in its input order.
   */
  lemma {:induction false} StablePartition<T>(s: seq<T>, key: T -> real)
    requires forall x :: x in s ==> key(x) == 1.0 || key(x) == 0.0
    ensures SortDesc(s, key) == WithKey(s, key, 1.0) + WithKey(s, key, 0.0)
  {
    if s != [] {
      var hi := WithKey(s[1..], key, 1.0);
      var lo := WithKey(s[1..], key, 0.0);
      assert forall x :: x in s[1..] ==> x in s;
      StablePartition(s[1..], key);
      assert forall y :: y in hi ==> key(y) == 1.0;
      assert forall y :: y in lo ==> key(y) == 0.0;
      assert s[0] in s;
      InsertTwoLevels(s[0], hi, lo, key);
      assert SortDesc(s, key) == Insert(s[0], hi + lo, key);
      WithKeyHead(s, key, 1.0);
      WithKeyHead(s, key, 0.0);
      Regroup(s[0], hi, lo);
    }
  }
}
