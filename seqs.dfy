/** Sequence helpers that give SQL clauses their meaning: WHERE (Filter),
    ORDER BY (SortBy, a stable insertion sort) and LIMIT/OFFSET (Page). */
module Seqs {
  import opened Wrappers

  function Min(a: int, b: int): int { if a <= b then a else b }

  /** The elements of `s` that satisfy `p`, in order: a WHERE clause over a table in rowid order. */
  function Filter<T>(s: seq<T>, p: T -> bool): (r: seq<T>)
    ensures |r| <= |s|
    ensures forall i :: 0 <= i < |r| ==> r[i] in s && p(r[i])
    ensures forall i :: 0 <= i < |s| && p(s[i]) ==> s[i] in r
  {
    if s == [] then []
    else (if p(s[0]) then [s[0]] else []) + Filter(s[1..], p)
  }

  /** An element survives a filter exactly when it is in the input and satisfies the predicate. */
  lemma FilterMembers<T>(s: seq<T>, p: T -> bool, x: T)
    ensures x in Filter(s, p) <==> x in s && p(x)
  {
    if x in s && p(x) {
      var i :| 0 <= i < |s| && s[i] == x;
    }
  }

  /** A filter is non-empty exactly when some element satisfies the predicate (SQL `EXISTS`). */
  lemma FilterNonEmpty<T>(s: seq<T>, p: T -> bool)
    ensures Filter(s, p) != [] <==> exists i :: 0 <= i < |s| && p(s[i])
  {
    if i :| 0 <= i < |s| && p(s[i]) {
      assert s[i] in Filter(s, p);
    }
    if Filter(s, p) != [] {
      var r := Filter(s, p);
      var i :| 0 <= i < |s| && s[i] == r[0];
    }
  }

  /** A projected column of a filtered table holds exactly the values of the matching rows. */
  lemma MapFilterMembers<T, U>(s: seq<T>, p: T -> bool, f: T -> U, x: U)
    ensures x in Map(Filter(s, p), f) <==> exists i :: 0 <= i < |s| && p(s[i]) && f(s[i]) == x
  {
    var r := Filter(s, p);
    var m := Map(r, f);
    if x in m {
      var k :| 0 <= k < |m| && m[k] == x;
      var i :| 0 <= i < |s| && s[i] == r[k];
    }
    if i :| 0 <= i < |s| && p(s[i]) && f(s[i]) == x {
      var k :| 0 <= k < |r| && r[k] == s[i];
      assert m[k] == x;
    }
  }

  lemma {:induction false} FilterConcat<T>(a: seq<T>, b: seq<T>, p: T -> bool)
    ensures Filter(a + b, p) == Filter(a, p) + Filter(b, p)
  {
    if a == [] {
      assert a + b == b;
    } else {
      assert (a + b)[1..] == a[1..] + b;
      FilterConcat(a[1..], b, p);
    }
  }

  /** A filter whose predicate holds everywhere keeps the sequence. */
  lemma {:induction false} FilterAll<T>(s: seq<T>, p: T -> bool)
    requires forall x :: x in s ==> p(x)
    ensures Filter(s, p) == s
  {
    if s != [] {
      FilterAll(s[1..], p);
    }
  }

  /** A filter whose predicate holds nowhere keeps nothing. */
  lemma {:induction false} FilterNone<T>(s: seq<T>, p: T -> bool)
    requires forall x :: x in s ==> !p(x)
    ensures Filter(s, p) == []
  {
    if s != [] {
      FilterNone(s[1..], p);
    }
  }

  /** Applying `f` to every element: Kotlin's `List.map`. */
  function Map<T, U>(s: seq<T>, f: T -> U): (r: seq<U>)
    ensures |r| == |s| && forall i :: 0 <= i < |s| ==> r[i] == f(s[i])
  {
    seq(|s|, i requires 0 <= i < |s| => f(s[i]))
  }

  /** Kotlin's `take(n)`, on lists and strings alike: the first `n` items, or
      all of them when there are fewer. */
  function Take<T>(s: seq<T>, n: nat): (r: seq<T>)
    ensures |r| == Min(n, |s|)
    ensures r == s[..|r|]
  {
    if |s| <= n then s else s[..n]
  }

  /** `LIMIT limit OFFSET offset` over an ordered result. */
  function Page<T>(s: seq<T>, limit: nat, offset: nat): (r: seq<T>)
    ensures |r| == if offset >= |s| then 0 else Min(limit, |s| - offset)
    ensures forall i :: 0 <= i < |r| ==> r[i] == s[offset + i]
  {
    if offset >= |s| then [] else s[offset..Min(offset + limit, |s|)]
  }

  /** The first `k` pages of size `size`, concatenated. */
  function Pages<T>(s: seq<T>, size: nat, k: nat): seq<T>
  {
    if k == 0 then [] else Pages(s, size, k - 1) + Page(s, size, (k - 1) * size)
  }

  lemma MulPred(k: nat, n: nat)
    requires k > 0
    ensures (k - 1) * n + n == k * n
  {
  }

  /** The page at `lo` continues the prefix that ends at `lo`. */
  lemma PageExtends<T>(s: seq<T>, size: nat, lo: nat)
    ensures s[..Min(lo, |s|)] + Page(s, size, lo) == s[..Min(lo + size, |s|)]
  {
    var a := Min(lo, |s|);
    var b := Min(lo + size, |s|);
    assert Page(s, size, lo) == s[a..b];
    assert s[..a] + s[a..b] == s[..b];
  }

  /** Consecutive pages are contiguous and disjoint: together the first `k`
      pages are exactly the first `k * size` elements. */
  lemma {:induction false} PagesArePrefix<T>(s: seq<T>, size: nat, k: nat)
    ensures Pages(s, size, k) == s[..Min(k * size, |s|)]
  {
    if k > 0 {
      var lo := (k - 1) * size;
      var hi := k * size;
      assert hi == lo + size by { MulPred(k, size); }
      var before := Pages(s, size, k - 1);
      assert before == s[..Min(lo, |s|)] by { PagesArePrefix(s, size, k - 1); }
      assert before + Page(s, size, lo) == s[..Min(hi, |s|)] by { PageExtends(s, size, lo); }
    }
  }

  /** Filtering twice by `p` then `q` is filtering once by `q` when `q` implies `p`. */
  lemma {:induction false} FilterFilter<T>(s: seq<T>, p: T -> bool, q: T -> bool)
    requires forall i :: 0 <= i < |s| && q(s[i]) ==> p(s[i])
    ensures Filter(Filter(s, p), q) == Filter(s, q)
  {
    if s != [] {
      FilterFilter(s[1..], p, q);
      var fp := Filter(s, p);
      if p(s[0]) {
        assert fp == [s[0]] + Filter(s[1..], p);
        assert fp[0] == s[0] && fp[1..] == Filter(s[1..], p);
        assert Filter(fp, q) == (if q(s[0]) then [s[0]] else []) + Filter(fp[1..], q);
      } else {
        assert !q(s[0]);
        assert fp == Filter(s[1..], p);
      }
    }
  }

  /** Filters with predicates that agree on the elements give the same result. */
  lemma {:induction false} FilterSame<T>(s: seq<T>, p: T -> bool, q: T -> bool)
    requires forall i :: 0 <= i < |s| ==> p(s[i]) == q(s[i])
    ensures Filter(s, p) == Filter(s, q)
  {
    if s != [] {
      FilterSame(s[1..], p, q);
    }
  }

  /** `firstOrNull { p(it) }`: the first element satisfying `p`. */
  function First<T>(s: seq<T>, p: T -> bool): (r: Option<T>)
    ensures r.None? <==> forall i :: 0 <= i < |s| ==> !p(s[i])
    ensures r.Some? ==> r.value in s && p(r.value)
  {
    if s == [] then None
    else if p(s[0]) then Some(s[0])
    else First(s[1..], p)
  }

  /** When only the last element satisfies `p`, it is the first one that does. */
  lemma {:induction false} FirstIsLast<T>(s: seq<T>, p: T -> bool)
    requires |s| >= 1 && p(s[|s| - 1])
    requires forall i :: 0 <= i < |s| - 1 ==> !p(s[i])
    ensures First(s, p) == Some(s[|s| - 1])
  {
    if |s| > 1 {
      FirstIsLast(s[1..], p);
    }
  }

  /** The first match is the head of the filter, so two sequences with the same
      filter have the same first match. */
  lemma {:induction false} FirstIsHeadOfFilter<T>(s: seq<T>, p: T -> bool)
    ensures First(s, p) == if Filter(s, p) == [] then None else Some(Filter(s, p)[0])
  {
    if s != [] {
      FirstIsHeadOfFilter(s[1..], p);
    }
  }

  /** With unique keys, the first element with a given key is the only one. */
  lemma {:induction false} FirstUnique<T, K>(s: seq<T>, key: T -> K, p: T -> bool, i: nat)
    requires UniqueBy(s, key)
    requires i < |s| && p(s[i])
    requires forall j :: 0 <= j < |s| ==> (p(s[j]) <==> key(s[j]) == key(s[i]))
    ensures First(s, p) == Some(s[i])
  {
    if i > 0 {
      FirstUnique(s[1..], key, p, i - 1);
      assert key(s[0]) != key(s[i]);
    }
  }

  /** No two elements share a key. */
  ghost predicate UniqueBy<T, K>(s: seq<T>, key: T -> K) {
    forall i, j :: 0 <= i < j < |s| ==> key(s[i]) != key(s[j])
  }

  /** With unique keys, a filter that only admits one key admits at most one element. */
  lemma {:induction false} FilterOneKey<T, K>(s: seq<T>, key: T -> K, p: T -> bool, k: K)
    requires UniqueBy(s, key)
    requires forall i :: 0 <= i < |s| && p(s[i]) ==> key(s[i]) == k
    ensures |Filter(s, p)| <= 1
  {
    if s != [] {
      assert UniqueBy(s[1..], key) by {
        assert forall i :: 0 <= i < |s| - 1 ==> s[1..][i] == s[i + 1];
      }
      if p(s[0]) {
        forall x | x in s[1..] ensures !p(x) {
          var j :| 0 <= j < |s[1..]| && s[1..][j] == x;
          assert key(s[0]) != key(s[j + 1]);
        }
        FilterNone(s[1..], p);
      } else {
        FilterOneKey(s[1..], key, p, k);
      }
    }
  }

  /** Putting an element whose key is new in front keeps keys unique. */
  lemma ConsUnique<T, K>(x: T, s: seq<T>, key: T -> K)
    requires UniqueBy(s, key)
    requires forall j :: 0 <= j < |s| ==> key(x) != key(s[j])
    ensures UniqueBy([x] + s, key)
  {
    var r := [x] + s;
    assert forall j :: 0 < j < |r| ==> r[j] == s[j - 1];
  }

  /** Removing elements keeps keys unique. */
  lemma {:induction false} FilterUnique<T, K>(s: seq<T>, p: T -> bool, key: T -> K)
    requires UniqueBy(s, key)
    ensures UniqueBy(Filter(s, p), key)
  {
    if s != [] {
      var rest := Filter(s[1..], p);
      assert UniqueBy(rest, key) by {
        assert UniqueBy(s[1..], key) by {
          assert forall i :: 0 <= i < |s| - 1 ==> s[1..][i] == s[i + 1];
        }
        FilterUnique(s[1..], p, key);
      }
      if p(s[0]) {
        forall j | 0 <= j < |rest| ensures key(s[0]) != key(rest[j]) {
          var k :| 0 <= k < |s[1..]| && s[1..][k] == rest[j];
          assert s[k + 1] == rest[j];
        }
        ConsUnique(s[0], rest, key);
      }
    }
  }

  /** Appending an element whose key is new keeps keys unique. */
  lemma AppendUnique<T, K>(s: seq<T>, x: T, key: T -> K)
    requires UniqueBy(s, key)
    requires forall i :: 0 <= i < |s| ==> key(s[i]) != key(x)
    ensures UniqueBy(s + [x], key)
  {
    var r := s + [x];
    assert forall i :: 0 <= i < |s| ==> r[i] == s[i];
  }

  // ---------------------------------------------------------------------
  // ORDER BY: a stable insertion sort. `le(a, b)` says that `a` may stay in
  // front of `b`; rows that compare equal keep their rowid order.

  ghost predicate Total<T(!new)>(le: (T, T) -> bool) {
    forall a, b :: le(a, b) || le(b, a)
  }

  ghost predicate Transitive<T(!new)>(le: (T, T) -> bool) {
    forall a, b, c :: le(a, b) && le(b, c) ==> le(a, c)
  }

  ghost predicate SortedBy<T>(s: seq<T>, le: (T, T) -> bool) {
    forall i, j :: 0 <= i < j < |s| ==> le(s[i], s[j])
  }

  /** Inserts `x` after every leading element that may stay in front of it. */
  function Insert<T>(x: T, s: seq<T>, le: (T, T) -> bool): (r: seq<T>)
    ensures |r| == |s| + 1
    ensures multiset(r) == multiset(s) + multiset{x}
  {
    if s == [] then [x]
    else if le(s[0], x) then
      assert s == [s[0]] + s[1..];
      [s[0]] + Insert(x, s[1..], le)
    else [x] + s
  }

  function SortBy<T>(s: seq<T>, le: (T, T) -> bool): (r: seq<T>)
    ensures |r| == |s|
    ensures multiset(r) == multiset(s)
  {
    if s == [] then []
    else
      assert s == s[..|s| - 1] + [s[|s| - 1]];
      Insert(s[|s| - 1], SortBy(s[..|s| - 1], le), le)
  }

  lemma {:induction false} InsertSorted<T(!new)>(x: T, s: seq<T>, le: (T, T) -> bool)
    requires Total(le) && Transitive(le)
    requires SortedBy(s, le)
    ensures SortedBy(Insert(x, s, le), le)
  {
    if s != [] {
      var r := Insert(x, s, le);
      if le(s[0], x) {
        InsertSorted(x, s[1..], le);
        var t := Insert(x, s[1..], le);
        assert r == [s[0]] + t;
        forall j | 0 <= j < |t| ensures le(s[0], t[j]) {
          assert t[j] in multiset(t);
          assert t[j] in multiset(s[1..]) + multiset{x};
          if t[j] != x {
            assert t[j] in s[1..];
            var k :| 0 <= k < |s[1..]| && s[1..][k] == t[j];
            assert s[k + 1] == t[j];
          }
        }
      } else {
        assert le(x, s[0]);
        assert r == [x] + s;
        forall j | 0 <= j < |s| ensures le(x, s[j]) {
          if j > 0 { assert le(s[0], s[j]); }
        }
      }
    }
  }

  /** For a total preorder the sort yields an ordered permutation of its input. */
  lemma {:induction false} SortBySorted<T(!new)>(s: seq<T>, le: (T, T) -> bool)
    requires Total(le) && Transitive(le)
    ensures SortedBy(SortBy(s, le), le)
  {
    if s != [] {
      SortBySorted(s[..|s| - 1], le);
      InsertSorted(s[|s| - 1], SortBy(s[..|s| - 1], le), le);
    }
  }

  lemma SortByMembers<T>(s: seq<T>, le: (T, T) -> bool)
    ensures forall x :: x in SortBy(s, le) <==> x in s
  {
    var r := SortBy(s, le);
    forall x ensures x in r <==> x in s {
      assert x in r <==> x in multiset(r);
      assert x in s <==> x in multiset(s);
    }
  }

  /** A column of the sorted rows holds the same values as the unsorted one. */
  lemma MapSortByMembers<T, U>(s: seq<T>, le: (T, T) -> bool, f: T -> U, x: U)
    ensures x in Map(SortBy(s, le), f) <==> x in Map(s, f)
  {
    var r := SortBy(s, le);
    SortByMembers(s, le);
    if x in Map(r, f) {
      var k :| 0 <= k < |r| && Map(r, f)[k] == x;
      assert r[k] in s;
      var j :| 0 <= j < |s| && s[j] == r[k];
      assert Map(s, f)[j] == x;
    }
    if x in Map(s, f) {
      var j :| 0 <= j < |s| && Map(s, f)[j] == x;
      assert s[j] in r;
      var k :| 0 <= k < |r| && r[k] == s[j];
      assert Map(r, f)[k] == x;
    }
  }

}
