/** List updates the screens' view models share: patching a favourite flag,
    dropping a quote, and Kotlin's `List.minus` on collection ids. */
module QuoteLists {
  import opened Wrappers
  import opened Domain
  import Seqs

  function SetFlag(id: string, fav: bool): Quote -> Quote {
    (q: Quote) => if q.id == id then q.(isFavorite := fav) else q
  }

  /** `quotes.map { if (it.id == quoteId) it.copy(isFavorite = f) else it }`:
      the items with that id get the flag, every other item is unchanged, and
      nothing but the flag ever changes. */
  function PatchFavorite(qs: seq<Quote>, id: string, fav: bool): (r: seq<Quote>)
    ensures |r| == |qs|
    ensures forall i :: 0 <= i < |r| ==> r[i].(isFavorite := qs[i].isFavorite) == qs[i]
    ensures forall i :: 0 <= i < |r| && qs[i].id == id ==> r[i].isFavorite == fav
    ensures forall i :: 0 <= i < |r| && qs[i].id != id ==> r[i] == qs[i]
  {
    Seqs.Map(qs, SetFlag(id, fav))
  }

  /** `quote?.let { if (it.id == quoteId) it.copy(isFavorite = f) else it }`. */
  function PatchFavoriteOne(q: Option<Quote>, id: string, fav: bool): (r: Option<Quote>)
    ensures r.None? <==> q.None?
    ensures q.Some? && q.value.id == id ==> r == Some(q.value.(isFavorite := fav))
    ensures q.Some? && q.value.id != id ==> r == q
  {
    match q
    case None => None
    case Some(x) => Some(SetFlag(id, fav)(x))
  }

  /** A second patch of the same id overrides the first. */
  lemma PatchFavoriteLastWins(qs: seq<Quote>, id: string, a: bool, b: bool)
    ensures PatchFavorite(PatchFavorite(qs, id, a), id, b) == PatchFavorite(qs, id, b)
  {
  }

  /** The items of one id carry one flag `f`. */
  ghost predicate FlaggedAs(qs: seq<Quote>, id: string, f: bool) {
    forall i :: 0 <= i < |qs| && qs[i].id == id ==> qs[i].isFavorite == f
  }

  /** Toggling a quote's flag and toggling it back restores the list. */
  lemma PatchFavoriteUndo(qs: seq<Quote>, id: string, f: bool)
    requires FlaggedAs(qs, id, f)
    ensures FlaggedAs(PatchFavorite(qs, id, !f), id, !f)
    ensures PatchFavorite(PatchFavorite(qs, id, !f), id, f) == qs
  {
    var r := PatchFavorite(PatchFavorite(qs, id, !f), id, f);
    forall i | 0 <= i < |qs| ensures r[i] == qs[i] {
      if qs[i].id == id {
        assert qs[i].(isFavorite := f) == qs[i];
      }
    }
  }

  function NotId(id: string): Quote -> bool { (q: Quote) => q.id != id }

  /** `quotes.filter { it.id != quoteId }`: every item with that id goes, every
      other item stays. */
  function WithoutId(qs: seq<Quote>, id: string): (r: seq<Quote>)
    ensures forall q :: q in r <==> q in qs && q.id != id
    ensures (forall i :: 0 <= i < |qs| ==> qs[i].id != id) ==> r == qs
  {
    assert forall q :: q in Seqs.Filter(qs, NotId(id)) <==> q in qs && q.id != id by {
      forall q ensures q in Seqs.Filter(qs, NotId(id)) <==> q in qs && q.id != id {
        Seqs.FilterMembers(qs, NotId(id), q);
      }
    }
    assert (forall i :: 0 <= i < |qs| ==> qs[i].id != id) ==> Seqs.Filter(qs, NotId(id)) == qs by {
      if forall i :: 0 <= i < |qs| ==> qs[i].id != id {
        Seqs.FilterAll(qs, NotId(id));
      }
    }
    Seqs.Filter(qs, NotId(id))
  }

  /** Dropping an id keeps the order of the rest: it works piece by piece. */
  lemma WithoutIdKeepsOrder(a: seq<Quote>, b: seq<Quote>, id: string)
    ensures WithoutId(a + b, id) == WithoutId(a, id) + WithoutId(b, id)
  {
    Seqs.FilterConcat(a, b, NotId(id));
  }

  /** Kotlin's `List.minus(element)`: the list without the first occurrence of `x`. */
  function Minus<T(==)>(xs: seq<T>, x: T): (r: seq<T>)
    ensures x !in xs ==> r == xs
    ensures |r| == if x in xs then |xs| - 1 else |xs|
  {
    if xs == [] then []
    else if xs[0] == x then xs[1..]
    else [xs[0]] + Minus(xs[1..], x)
  }

  /** Kotlin's `indexOf`: the first position of `x`, or `|xs|` when absent. */
  function IndexOf<T(==)>(xs: seq<T>, x: T): (k: nat)
    ensures k <= |xs|
    ensures k < |xs| ==> xs[k] == x
    ensures forall j :: 0 <= j < k ==> xs[j] != x
  {
    if xs == [] then 0 else if xs[0] == x then 0 else 1 + IndexOf(xs[1..], x)
  }

  /** `Minus` cuts out exactly the first occurrence. */
  lemma {:induction false} MinusRemovesFirst<T>(xs: seq<T>, x: T)
    ensures var k := IndexOf(xs, x);
      Minus(xs, x) == if k < |xs| then xs[..k] + xs[k + 1..] else xs
  {
    if xs != [] && xs[0] != x {
      var t := xs[1..];
      var k := IndexOf(t, x);
      assert Minus(t, x) == if k < |t| then t[..k] + t[k + 1..] else t by {
        MinusRemovesFirst(t, x);
      }
      assert IndexOf(xs, x) == k + 1;
      assert Minus(xs, x) == [xs[0]] + Minus(t, x);
      if k < |t| {
        SplitAfterHead(xs, k);
      } else {
        assert xs == [xs[0]] + t;
      }
    }
  }

  /** Cutting out the element after position `k` of the tail is cutting out
      the one at `k + 1` of the whole. */
  lemma SplitAfterHead<T>(xs: seq<T>, k: nat)
    requires k + 1 < |xs|
    ensures [xs[0]] + (xs[1..][..k] + xs[1..][k + 1..]) == xs[..k + 1] + xs[k + 2..]
  {
    assert xs[..k + 1] == [xs[0]] + xs[1..][..k];
    assert xs[k + 2..] == xs[1..][k + 1..];
  }

  /** `Minus` takes away one copy of `x` and keeps every other element. */
  lemma {:induction false} MinusMultiset<T>(xs: seq<T>, x: T)
    ensures multiset(Minus(xs, x)) == multiset(xs) - multiset{x}
  {
    if xs != [] {
      assert xs == [xs[0]] + xs[1..];
      if xs[0] != x {
        MinusMultiset(xs[1..], x);
      }
    }
  }

  /** `ids + id` then `ids - id` gives back a list with the same elements;
      removing an id that appears once leaves none. */
  lemma AddThenMinus<T>(xs: seq<T>, x: T)
    ensures multiset(Minus(xs + [x], x)) == multiset(xs)
    ensures x !in xs ==> x !in Minus(xs + [x], x)
  {
    var r := Minus(xs + [x], x);
    MinusMultiset(xs + [x], x);
    if x !in xs {
      assert multiset(r) == multiset(xs);
      assert x !in multiset(r);
    }
  }
}
