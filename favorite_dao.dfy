/** The `favorites` table and the queries of its DAO, as functions of the table. */
module FavoriteDao {
  import opened Wrappers
  import opened Domain
  import opened Entities
  import opened TableOps
  import QuoteDao
  import Seqs

  function FavoriteKey(f: FavoriteEntity): string { f.id }
  function FavoritePair(f: FavoriteEntity): (string, string) { (f.userId, f.quoteId) }

  /** A new row conflicts with an old one on the primary key or on the unique
      (`user_id`, `quote_id`) index. */
  predicate FavoriteConflict(row: FavoriteEntity, x: FavoriteEntity) {
    row.id == x.id || (row.userId == x.userId && row.quoteId == x.quoteId)
  }

  /** The table's constraints. */
  ghost predicate FavoritesValid(t: seq<FavoriteEntity>) {
    Seqs.UniqueBy(t, FavoriteKey) && Seqs.UniqueBy(t, FavoritePair)
  }

  function ByUser(u: string): FavoriteEntity -> bool { (f: FavoriteEntity) => f.userId == u }
  function NotByUser(u: string): FavoriteEntity -> bool { (f: FavoriteEntity) => f.userId != u }
  function ByPair(u: string, q: string): FavoriteEntity -> bool { (f: FavoriteEntity) => f.userId == u && f.quoteId == q }
  function NotByPair(u: string, q: string): FavoriteEntity -> bool { (f: FavoriteEntity) => !(f.userId == u && f.quoteId == q) }
  function QuoteIdOf(f: FavoriteEntity): string { f.quoteId }

  /** `getAllFavorites(u)`. */
  function FavoritesOf(t: seq<FavoriteEntity>, u: string): seq<FavoriteEntity> {
    Seqs.Filter(t, ByUser(u))
  }

  /** The rows for one (user, quote) pair. */
  function PairRows(t: seq<FavoriteEntity>, u: string, q: string): seq<FavoriteEntity> {
    Seqs.Filter(t, ByPair(u, q))
  }

  /** `getFavorite(u, q)`. */
  function GetFavorite(t: seq<FavoriteEntity>, u: string, q: string): Option<FavoriteEntity> {
    Seqs.First(t, ByPair(u, q))
  }

  /** `isFavorite(u, q)` / `isFavoriteSync(u, q)`: `SELECT EXISTS(...)`. */
  predicate IsFavorite(t: seq<FavoriteEntity>, u: string, q: string) {
    PairRows(t, u, q) != []
  }

  /** `getFavoriteQuoteIds(u)`. */
  function FavoriteQuoteIds(t: seq<FavoriteEntity>, u: string): seq<string> {
    Seqs.Map(FavoritesOf(t, u), QuoteIdOf)
  }

  /** `getFavoriteCount(u)`. */
  function FavoriteCount(t: seq<FavoriteEntity>, u: string): nat {
    |FavoritesOf(t, u)|
  }

  /** `ORDER BY f.created_at DESC`. */
  predicate NewerFavorite(a: FavoriteEntity, b: FavoriteEntity) { StampGe(a.createdAt, b.createdAt) }

  /** `getFavoriteQuotes(u)`: u's favorites newest first, joined with the cached quotes. */
  function FavoriteQuotes(quotes: seq<QuoteEntity>, t: seq<FavoriteEntity>, u: string): seq<QuoteEntity> {
    QuoteDao.JoinQuotes(Seqs.Map(Seqs.SortBy(FavoritesOf(t, u), NewerFavorite), QuoteIdOf), quotes)
  }

  /** `getFavoriteQuotesPaginated(u, limit, offset)`. */
  function FavoriteQuotesPaginated(quotes: seq<QuoteEntity>, t: seq<FavoriteEntity>, u: string,
                                   limit: nat, offset: nat): seq<QuoteEntity> {
    Seqs.Page(FavoriteQuotes(quotes, t, u), limit, offset)
  }

  /** `insertFavorite(f)`. */
  function ReplaceFavorite(t: seq<FavoriteEntity>, f: FavoriteEntity): seq<FavoriteEntity> {
    Replace(t, f, FavoriteConflict)
  }

  /** `insertFavorites(fs)`. */
  function ReplaceFavorites(t: seq<FavoriteEntity>, fs: seq<FavoriteEntity>): seq<FavoriteEntity> {
    ReplaceAll(t, fs, FavoriteConflict)
  }

  /** `deleteFavorite(u, q)`. */
  function DeleteFavorite(t: seq<FavoriteEntity>, u: string, q: string): seq<FavoriteEntity> {
    Seqs.Filter(t, NotByPair(u, q))
  }

  /** `deleteAllFavorites(u)`. */
  function DeleteAllFavorites(t: seq<FavoriteEntity>, u: string): seq<FavoriteEntity> {
    Seqs.Filter(t, NotByUser(u))
  }

  // ---------------------------------------------------------------------
  // properties

  /** `isFavoriteSync(u, q)` is true exactly when a row for (u, q) exists. */
  lemma IsFavoriteMeans(t: seq<FavoriteEntity>, u: string, q: string)
    ensures IsFavorite(t, u, q) <==> exists i :: 0 <= i < |t| && t[i].userId == u && t[i].quoteId == q
  {
    Seqs.FilterNonEmpty(t, ByPair(u, q));
  }

  /** The quote ids listed for u are exactly u's favorites, and the count is their number. */
  lemma FavoriteQuoteIdsMeans(t: seq<FavoriteEntity>, u: string, q: string)
    ensures q in FavoriteQuoteIds(t, u) <==> IsFavorite(t, u, q)
    ensures FavoriteCount(t, u) == |FavoriteQuoteIds(t, u)|
  {
    IsFavoriteMeans(t, u, q);
    Seqs.MapFilterMembers(t, ByUser(u), QuoteIdOf, q);
  }

  /** A valid table has at most one row per (user, quote) pair. */
  lemma AtMostOneRowPerPair(t: seq<FavoriteEntity>, u: string, q: string)
    requires FavoritesValid(t)
    ensures |PairRows(t, u, q)| <= 1
  {
    Seqs.FilterOneKey(t, FavoritePair, ByPair(u, q), (u, q));
  }

  /** `insertFavorite` keeps both constraints. */
  lemma ReplaceFavoriteValid(t: seq<FavoriteEntity>, f: FavoriteEntity)
    requires FavoritesValid(t)
    ensures FavoritesValid(ReplaceFavorite(t, f))
  {
    ReplaceUnique(t, f, FavoriteConflict, FavoriteKey);
    ReplaceUnique(t, f, FavoriteConflict, FavoritePair);
  }

  /** Any number of inserts keeps both constraints, so a pair never has two rows. */
  lemma {:induction false} ReplaceFavoritesValid(t: seq<FavoriteEntity>, fs: seq<FavoriteEntity>)
    requires FavoritesValid(t)
    ensures FavoritesValid(ReplaceFavorites(t, fs))
  {
    if fs != [] {
      ReplaceFavoritesValid(t, fs[..|fs| - 1]);
      ReplaceFavoriteValid(ReplaceFavorites(t, fs[..|fs| - 1]), fs[|fs| - 1]);
    }
  }

  /** After `insertFavorite(f)` the pair of `f` has exactly the row `f`; any other
      pair keeps its rows, provided none of them shares f's id. */
  lemma ReplaceFavoriteEffect(t: seq<FavoriteEntity>, f: FavoriteEntity, u: string, q: string)
    ensures PairRows(ReplaceFavorite(t, f), f.userId, f.quoteId) == [f]
    ensures (u, q) != (f.userId, f.quoteId) && (forall i :: 0 <= i < |t| ==> t[i].id != f.id) ==>
      PairRows(ReplaceFavorite(t, f), u, q) == PairRows(t, u, q)
  {
    ReplaceLeavesOne(t, f, FavoriteConflict, ByPair(f.userId, f.quoteId));
    if (u, q) != (f.userId, f.quoteId) && (forall i :: 0 <= i < |t| ==> t[i].id != f.id) {
      ReplaceKeepsOthers(t, f, FavoriteConflict, ByPair(u, q));
    }
  }

  /** `deleteFavorite(u, q)` removes exactly the (u, q) rows and no other. */
  lemma DeleteFavoriteEffect(t: seq<FavoriteEntity>, u: string, q: string, v: string, p: string)
    ensures !IsFavorite(DeleteFavorite(t, u, q), u, q)
    ensures (v, p) != (u, q) ==> PairRows(DeleteFavorite(t, u, q), v, p) == PairRows(t, v, p)
    ensures FavoritesValid(t) ==> FavoritesValid(DeleteFavorite(t, u, q))
  {
    var d := DeleteFavorite(t, u, q);
    Seqs.FilterNone(d, ByPair(u, q));
    if (v, p) != (u, q) {
      Seqs.FilterFilter(t, NotByPair(u, q), ByPair(v, p));
    }
    if FavoritesValid(t) {
      Seqs.FilterUnique(t, NotByPair(u, q), FavoriteKey);
      Seqs.FilterUnique(t, NotByPair(u, q), FavoritePair);
    }
  }

  /** `deleteAllFavorites(u)` removes exactly u's rows. */
  lemma DeleteAllFavoritesEffect(t: seq<FavoriteEntity>, u: string, v: string)
    ensures FavoritesOf(DeleteAllFavorites(t, u), u) == []
    ensures v != u ==> FavoritesOf(DeleteAllFavorites(t, u), v) == FavoritesOf(t, v)
    ensures FavoritesValid(t) ==> FavoritesValid(DeleteAllFavorites(t, u))
  {
    var d := DeleteAllFavorites(t, u);
    Seqs.FilterNone(d, ByUser(u));
    if v != u {
      Seqs.FilterFilter(t, NotByUser(u), ByUser(v));
    }
    if FavoritesValid(t) {
      Seqs.FilterUnique(t, NotByUser(u), FavoriteKey);
      Seqs.FilterUnique(t, NotByUser(u), FavoritePair);
    }
  }

  /** The quote ids, newest favourite first, that `getFavoriteQuotes(u)`
      joins: exactly the quotes u has favourited. */
  lemma SortedFavoriteIdsMean(t: seq<FavoriteEntity>, u: string, x: string)
    ensures x in Seqs.Map(Seqs.SortBy(FavoritesOf(t, u), NewerFavorite), QuoteIdOf) <==> IsFavorite(t, u, x)
  {
    Seqs.MapSortByMembers(FavoritesOf(t, u), NewerFavorite, QuoteIdOf, x);
    FavoriteQuoteIdsMeans(t, u, x);
  }

  /** `getFavoriteQuotes(u)` is an inner join: each listed quote is cached and
      favourited by u, and every favourite of u whose quote is cached is listed. */
  lemma FavoriteQuotesMeans(quotes: seq<QuoteEntity>, t: seq<FavoriteEntity>, u: string, q: string)
    ensures forall e :: e in FavoriteQuotes(quotes, t, u) ==>
      e in quotes && IsFavorite(t, u, e.id) && QuoteDao.QuoteById(quotes, e.id) == Some(e)
    ensures IsFavorite(t, u, q) && QuoteDao.QuoteById(quotes, q).Some? ==>
      QuoteDao.QuoteById(quotes, q).value in FavoriteQuotes(quotes, t, u)
  {
    var ids := Seqs.Map(Seqs.SortBy(FavoritesOf(t, u), NewerFavorite), QuoteIdOf);
    var r := FavoriteQuotes(quotes, t, u);
    QuoteDao.JoinQuotesCached(ids, quotes);
    forall e | e in r
      ensures IsFavorite(t, u, e.id) && QuoteDao.QuoteById(quotes, e.id) == Some(e)
    {
      var i :| 0 <= i < |r| && r[i] == e;
      SortedFavoriteIdsMean(t, u, e.id);
    }
    if IsFavorite(t, u, q) && QuoteDao.QuoteById(quotes, q).Some? {
      SortedFavoriteIdsMean(t, u, q);
      var k :| 0 <= k < |ids| && ids[k] == q;
      QuoteDao.JoinQuotesComplete(ids, quotes);
    }
  }

  /** Of two ids, the earlier one has a favourite row of u at least as new as a
      favourite row of u for the later one (with the unique (user, quote)
      index, each has just one). */
  ghost predicate NewestFavoriteFirst(t: seq<FavoriteEntity>, u: string, ids: seq<string>) {
    forall i, j :: 0 <= i < j < |ids| ==> NewerFavoritePair(t, u, ids[i], ids[j])
  }

  /** Quote `a` has a favourite row of u at least as new as one for quote `b`. */
  ghost predicate NewerFavoritePair(t: seq<FavoriteEntity>, u: string, a: string, b: string) {
    exists f, g :: (f in FavoritesOf(t, u) && g in FavoritesOf(t, u) &&
      f.quoteId == a && g.quoteId == b && NewerFavorite(f, g))
  }

  /** `ORDER BY f.created_at DESC`: the listed quotes are in that order. */
  lemma FavoriteQuotesNewestFirst(quotes: seq<QuoteEntity>, t: seq<FavoriteEntity>, u: string)
    ensures NewestFavoriteFirst(t, u, Seqs.Map(FavoriteQuotes(quotes, t, u), QuoteDao.QuoteKey))
  {
    var ks := Seqs.Map(FavoriteQuotes(quotes, t, u), QuoteDao.QuoteKey);
    forall i, j | 0 <= i < j < |ks|
      ensures NewerFavoritePair(t, u, ks[i], ks[j])
    {
      NewestFavoriteFirstAt(quotes, t, u, i, j);
    }
  }

  /** One pair of listed quotes is in that order. */
  lemma NewestFavoriteFirstAt(quotes: seq<QuoteEntity>, t: seq<FavoriteEntity>, u: string, i: nat, j: nat)
    requires i < j < |FavoriteQuotes(quotes, t, u)|
    ensures var ks := Seqs.Map(FavoriteQuotes(quotes, t, u), QuoteDao.QuoteKey);
      NewerFavoritePair(t, u, ks[i], ks[j])
  {
    var ids := Seqs.Map(Seqs.SortBy(FavoritesOf(t, u), NewerFavorite), QuoteIdOf);
    var r := FavoriteQuotes(quotes, t, u);
    assert QuoteDao.InIdOrder(r, ids) by {
      QuoteDao.JoinQuotesInOrder(ids, quotes);
    }
    var a, b :| 0 <= a < b < |ids| && ids[a] == r[i].id && ids[b] == r[j].id;
    var ks := Seqs.Map(r, QuoteDao.QuoteKey);
    assert ks[i] == r[i].id && ks[j] == r[j].id;
    NewestFavoriteFirstPair(t, u, a, b);
  }

  /** Two rows of the sorted list, in order, witness the order of their quote ids. */
  lemma NewestFavoriteFirstPair(t: seq<FavoriteEntity>, u: string, a: nat, b: nat)
    requires a < b < |Seqs.SortBy(FavoritesOf(t, u), NewerFavorite)|
    ensures var ss := Seqs.SortBy(FavoritesOf(t, u), NewerFavorite);
      NewerFavoritePair(t, u, ss[a].quoteId, ss[b].quoteId)
  {
    var ss := Seqs.SortBy(FavoritesOf(t, u), NewerFavorite);
    Seqs.SortByMembers(FavoritesOf(t, u), NewerFavorite);
    StampGeOrder();
    Seqs.SortBySorted(FavoritesOf(t, u), NewerFavorite);
    assert ss[a] in ss && ss[b] in ss;
  }
}
