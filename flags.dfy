/** The favourite flag every repository read attaches to a quote: a lookup in
    the current user's set of favourite quote ids. */
module Flags {
  import opened Wrappers
  import opened Domain
  import opened Entities
  import opened Mappers
  import FavoriteDao
  import Seqs

  /** `getFavoriteIds()`: the user's favourite quote ids as a set, empty without a user. */
  function FavoriteIds(favorites: seq<FavoriteEntity>, uid: Option<string>): set<string> {
    match uid
    case None => {}
    case Some(u) => set q | q in FavoriteDao.FavoriteQuoteIds(favorites, u)
  }

  /** An id is in the set exactly when the signed-in user has a favourite row for it. */
  lemma FavoriteIdsMean(favorites: seq<FavoriteEntity>, uid: Option<string>, q: string)
    ensures q in FavoriteIds(favorites, uid) <==> uid.Some? && FavoriteDao.IsFavorite(favorites, uid.value, q)
  {
    if uid.Some? {
      FavoriteDao.FavoriteQuoteIdsMeans(favorites, uid.value, q);
    }
  }

  function FlagWith(ids: set<string>): QuoteEntity -> Quote {
    (e: QuoteEntity) => QuoteEntityToDomain(e, e.id in ids)
  }

  /** `quotes.map { it.toDomain(favoriteIds.contains(it.id)) }`: each row becomes
      its domain quote, flagged exactly when its id is in `ids`. */
  function WithFlags(es: seq<QuoteEntity>, ids: set<string>): (r: seq<Quote>)
    ensures |r| == |es|
    ensures forall i :: 0 <= i < |es| ==>
      r[i].id == es[i].id && (r[i].isFavorite <==> es[i].id in ids) && QuoteToEntity(r[i]) == es[i].(updatedAt := None)
  {
    Seqs.Map(es, FlagWith(ids))
  }

  /** Flagging a page is paging the flagged list. */
  lemma WithFlagsPage(es: seq<QuoteEntity>, ids: set<string>, limit: nat, offset: nat)
    ensures WithFlags(Seqs.Page(es, limit, offset), ids) == Seqs.Page(WithFlags(es, ids), limit, offset)
  {
  }

  /** With no user every flag is false. */
  lemma NoUserNoFlags(favorites: seq<FavoriteEntity>, es: seq<QuoteEntity>)
    ensures forall i :: 0 <= i < |es| ==> !WithFlags(es, FavoriteIds(favorites, None))[i].isFavorite
  {
  }

  /** The optional single-row form: `entity?.toDomain(favoriteIds.contains(entity.id))`. */
  function FlagOne(e: Option<QuoteEntity>, ids: set<string>): (r: Option<Quote>)
    ensures e.None? <==> r.None?
    ensures e.Some? ==> r.value.id == e.value.id && (r.value.isFavorite <==> e.value.id in ids) &&
                        QuoteToEntity(r.value) == e.value.(updatedAt := None)
  {
    match e
    case None => None
    case Some(x) => Some(QuoteEntityToDomain(x, x.id in ids))
  }
}
