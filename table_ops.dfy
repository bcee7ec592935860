/** SQLite semantics shared by every table: INSERT OR REPLACE and the
    ordering of nullable timestamps. A table is a sequence of rows in rowid order. */
module TableOps {
  import opened Wrappers
  import opened Domain
  import Seqs

  /** The rows a REPLACE of `x` keeps: those that do not conflict with it. */
  function Survives<T>(conflicts: (T, T) -> bool, x: T): T -> bool {
    row => !conflicts(row, x)
  }

  /** `INSERT OR REPLACE`: every row that conflicts with `x` on a unique
      constraint is deleted, then `x` is appended as the newest row. */
  function Replace<T>(t: seq<T>, x: T, conflicts: (T, T) -> bool): (r: seq<T>)
    ensures 1 <= |r| <= |t| + 1 && r[|r| - 1] == x
    ensures forall i :: 0 <= i < |r| - 1 ==> r[i] in t && !conflicts(r[i], x)
  {
    Seqs.Filter(t, Survives(conflicts, x)) + [x]
  }

  /** `@Insert(onConflict = REPLACE)` of a list: one REPLACE per element, in order. */
  function ReplaceAll<T>(t: seq<T>, xs: seq<T>, conflicts: (T, T) -> bool): seq<T>
  {
    if xs == [] then t
    else Replace(ReplaceAll(t, xs[..|xs| - 1], conflicts), xs[|xs| - 1], conflicts)
  }

  /** After a REPLACE the table holds `x` and exactly the old rows that did not conflict with it. */
  lemma ReplaceMembers<T>(t: seq<T>, x: T, conflicts: (T, T) -> bool, y: T)
    ensures y in Replace(t, x, conflicts) <==> y == x || (y in t && !conflicts(y, x))
  {
  }

  /** REPLACE keeps a key unique when rows sharing `x`'s key conflict with it. */
  lemma ReplaceUnique<T, K>(t: seq<T>, x: T, conflicts: (T, T) -> bool, key: T -> K)
    requires Seqs.UniqueBy(t, key)
    requires forall i :: 0 <= i < |t| && key(t[i]) == key(x) ==> conflicts(t[i], x)
    ensures Seqs.UniqueBy(Replace(t, x, conflicts), key)
  {
    var f := Seqs.Filter(t, Survives(conflicts, x));
    Seqs.FilterUnique(t, Survives(conflicts, x), key);
    forall i | 0 <= i < |f| ensures key(f[i]) != key(x) {
      var k :| 0 <= k < |t| && t[k] == f[i];
    }
    Seqs.AppendUnique(f, x, key);
  }

  /** Every row matching `m` conflicts with `x`, and `x` matches: after the
      REPLACE exactly one row matches, however many did before. */
  lemma ReplaceLeavesOne<T>(t: seq<T>, x: T, conflicts: (T, T) -> bool, m: T -> bool)
    requires m(x)
    requires forall i :: 0 <= i < |t| && m(t[i]) ==> conflicts(t[i], x)
    ensures Seqs.Filter(Replace(t, x, conflicts), m) == [x]
  {
    var f := Seqs.Filter(t, Survives(conflicts, x));
    Seqs.FilterConcat(f, [x], m);
    forall y | y in f ensures !m(y) {
      var k :| 0 <= k < |t| && t[k] == y;
    }
    Seqs.FilterNone(f, m);
    assert Seqs.Filter([x], m) == [x] + Seqs.Filter([], m);
  }

  /** Rows that do not conflict with `x` and are not `x`'s kind are untouched:
      a filter that excludes `x` and every conflicting row sees the same rows. */
  lemma ReplaceKeepsOthers<T>(t: seq<T>, x: T, conflicts: (T, T) -> bool, m: T -> bool)
    requires !m(x)
    requires forall i :: 0 <= i < |t| && m(t[i]) ==> !conflicts(t[i], x)
    ensures Seqs.Filter(Replace(t, x, conflicts), m) == Seqs.Filter(t, m)
  {
    var keep := Survives(conflicts, x);
    var f := Seqs.Filter(t, keep);
    Seqs.FilterConcat(f, [x], m);
    assert Seqs.Filter([x], m) == [] + Seqs.Filter([], m);
    Seqs.FilterFilter(t, keep, m);
  }

  /** `x` matches `m` and conflicts with no row matching `m`: the REPLACE adds
      exactly one matching row. */
  lemma ReplaceAddsOne<T>(t: seq<T>, x: T, conflicts: (T, T) -> bool, m: T -> bool)
    requires m(x)
    requires forall i :: 0 <= i < |t| && m(t[i]) ==> !conflicts(t[i], x)
    ensures Seqs.Filter(Replace(t, x, conflicts), m) == Seqs.Filter(t, m) + [x]
  {
    var keep := Survives(conflicts, x);
    var f := Seqs.Filter(t, keep);
    assert Seqs.Filter(f + [x], m) == Seqs.Filter(f, m) + [x] by {
      Seqs.FilterConcat(f, [x], m);
      assert Seqs.Filter([x], m) == [x] + Seqs.Filter([], m);
    }
    assert Seqs.Filter(f, m) == Seqs.Filter(t, m) by {
      Seqs.FilterFilter(t, keep, m);
    }
  }

  /** A row that conflicts with none of the matching rows of a table. */
  lemma NoMatchingConflict<T>(t: seq<T>, rows: seq<T>, x: T, conflicts: (T, T) -> bool, m: T -> bool)
    requires Seqs.Filter(t, m) == rows
    requires forall j :: 0 <= j < |rows| ==> !conflicts(rows[j], x)
    ensures forall i :: 0 <= i < |t| && m(t[i]) ==> !conflicts(t[i], x)
  {
    forall i | 0 <= i < |t| && m(t[i]) ensures !conflicts(t[i], x) {
      Seqs.FilterMembers(t, m, t[i]);
      var j :| 0 <= j < |rows| && rows[j] == t[i];
    }
  }

  /** A batch REPLACE ending in `last` is the batch without it, then `last`. */
  lemma ReplaceAllSnoc<T>(t: seq<T>, init: seq<T>, last: T, conflicts: (T, T) -> bool)
    ensures ReplaceAll(t, init + [last], conflicts) == Replace(ReplaceAll(t, init, conflicts), last, conflicts)
  {
    var xs := init + [last];
    assert xs[..|xs| - 1] == init;
  }

  /** One more matching row that conflicts with none of the earlier ones is
      appended to the matching part. */
  lemma ReplaceAllAppendsStep<T>(t: seq<T>, init: seq<T>, last: T, conflicts: (T, T) -> bool, m: T -> bool)
    requires Seqs.Filter(ReplaceAll(t, init, conflicts), m) == init
    requires m(last)
    requires forall j :: 0 <= j < |init| ==> !conflicts(init[j], last)
    ensures Seqs.Filter(ReplaceAll(t, init + [last], conflicts), m) == init + [last]
  {
    var mid := ReplaceAll(t, init, conflicts);
    ReplaceAllSnoc(t, init, last, conflicts);
    NoMatchingConflict(mid, init, last, conflicts, m);
    ReplaceAddsOne(mid, last, conflicts, m);
  }

  /** Into a table with no row matching `m`, a list of REPLACEs of matching rows
      that do not conflict with each other leaves exactly those rows matching. */
  lemma {:induction false} ReplaceAllAppends<T>(t: seq<T>, xs: seq<T>, conflicts: (T, T) -> bool, m: T -> bool)
    requires Seqs.Filter(t, m) == []
    requires forall j :: 0 <= j < |xs| ==> m(xs[j])
    requires forall j, k :: 0 <= j < k < |xs| ==> !conflicts(xs[j], xs[k])
    ensures Seqs.Filter(ReplaceAll(t, xs, conflicts), m) == xs
  {
    if xs != [] {
      var init, last := xs[..|xs| - 1], xs[|xs| - 1];
      forall j | 0 <= j < |init| ensures m(init[j]) && !conflicts(init[j], last) {
        assert init[j] == xs[j];
      }
      forall j, k | 0 <= j < k < |init| ensures !conflicts(init[j], init[k]) {
        assert init[j] == xs[j] && init[k] == xs[k];
      }
      ReplaceAllAppends(t, init, conflicts, m);
      ReplaceAllAppendsStep(t, init, last, conflicts, m);
      assert init + [last] == xs;
    }
  }

  /** A list of REPLACEs of rows not matching `m`, none conflicting with a
      matching row, leaves the matching part of the table as it was. */
  lemma {:induction false} ReplaceAllKeepsOthers<T>(t: seq<T>, xs: seq<T>, conflicts: (T, T) -> bool, m: T -> bool)
    requires forall j :: 0 <= j < |xs| ==> !m(xs[j])
    requires forall i, j :: 0 <= i < |t| && 0 <= j < |xs| && m(t[i]) ==> !conflicts(t[i], xs[j])
    ensures Seqs.Filter(ReplaceAll(t, xs, conflicts), m) == Seqs.Filter(t, m)
  {
    if xs != [] {
      var init, last := xs[..|xs| - 1], xs[|xs| - 1];
      ReplaceAllKeepsOthers(t, init, conflicts, m);
      var mid := ReplaceAll(t, init, conflicts);
      forall i | 0 <= i < |mid| && m(mid[i]) ensures !conflicts(mid[i], last) {
        assert mid[i] in Seqs.Filter(t, m);
        var k :| 0 <= k < |t| && t[k] == mid[i];
        assert !conflicts(t[k], xs[|xs| - 1]);
      }
      ReplaceKeepsOthers(mid, last, conflicts, m);
    }
  }

  /** When rows conflict only on equal keys, every key of a REPLACEd list is
      present afterwards. */
  lemma {:induction false} ReplaceAllContains<T, K>(t: seq<T>, xs: seq<T>, conflicts: (T, T) -> bool, key: T -> K)
    requires forall a, b :: conflicts(a, b) ==> key(a) == key(b)
    ensures forall j :: 0 <= j < |xs| ==> exists r :: r in ReplaceAll(t, xs, conflicts) && key(r) == key(xs[j])
  {
    if xs != [] {
      var init, last := xs[..|xs| - 1], xs[|xs| - 1];
      ReplaceAllContains(t, init, conflicts, key);
      var mid := ReplaceAll(t, init, conflicts);
      var r := Replace(mid, last, conflicts);
      forall j | 0 <= j < |xs| ensures exists y :: y in r && key(y) == key(xs[j]) {
        if j < |xs| - 1 && key(xs[j]) != key(last) {
          assert xs[j] == init[j];
          var y :| y in mid && key(y) == key(init[j]);
          ReplaceMembers(mid, last, conflicts, y);
          assert y in r;
        } else {
          assert r[|r| - 1] == last;
        }
      }
    }
  }

  // ---------------------------------------------------------------------
  // ORDER BY a nullable timestamp DESC

  /** `a` may come before `b` in `ORDER BY ... DESC`: SQLite sorts NULL below
      every value, so rows without a timestamp come last. */
  predicate StampGe(a: Stamp, b: Stamp) {
    match a
    case None => b.None?
    case Some(x) => b.None? || x >= b.value
  }

  /** Descending order on nullable timestamps is a total preorder. */
  lemma StampGeOrder()
    ensures forall a, b :: StampGe(a, b) || StampGe(b, a)
    ensures forall a, b, c :: StampGe(a, b) && StampGe(b, c) ==> StampGe(a, c)
    ensures forall x: int :: StampGe(Some(x), None) && !StampGe(None, Some(x))
  {
  }
}
