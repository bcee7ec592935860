/** `FavoriteRepositoryImpl`: favourites are written to the local table first;
    the remote copy is best effort. */
module FavoriteRepo {
  import opened Wrappers
  import opened Domain
  import opened Entities
  import opened Dtos
  import opened Mappers
  import opened Store
  import FavoriteDao
  import QuoteDao
  import TableOps
  import Seqs

  /** The row `syncFavorites` builds from a fetched favourite. */
  function FavoriteDtoToEntity(d: FavoriteDto): FavoriteEntity {
    FavoriteEntity(d.id, d.userId, d.quoteId, d.createdAt)
  }

  function AsFavorite(e: QuoteEntity): Quote { QuoteEntityToDomain(e, true) }

  /** `quotes.map { it.toDomain(isFavorite = true) }`. */
  function AllFavorite(es: seq<QuoteEntity>): (r: seq<Quote>)
    ensures |r| == |es|
    ensures forall i :: 0 <= i < |r| ==> r[i].isFavorite && r[i].id == es[i].id &&
                                          QuoteToEntity(r[i]) == es[i].(updatedAt := None)
  {
    Seqs.Map(es, AsFavorite)
  }

  /** The favourites table after the delete-then-insert of a successful `syncFavorites`. */
  function SyncedFavorites(t: seq<FavoriteEntity>, u: string, fetched: seq<FavoriteDto>): seq<FavoriteEntity> {
    FavoriteDao.ReplaceFavorites(FavoriteDao.DeleteAllFavorites(t, u), Seqs.Map(fetched, FavoriteDtoToEntity))
  }

  /** After a sync u's rows are exactly the fetched rows, in fetched order,
      provided the fetch returned u's rows with distinct ids and quotes (the
      remote table's own constraints). */
  lemma SyncFavoritesReplacesOwn(t: seq<FavoriteEntity>, u: string, fetched: seq<FavoriteDto>)
    requires forall j :: 0 <= j < |fetched| ==> fetched[j].userId == u
    requires forall j, k :: 0 <= j < k < |fetched| ==>
      fetched[j].id != fetched[k].id && fetched[j].quoteId != fetched[k].quoteId
    ensures FavoriteDao.FavoritesOf(SyncedFavorites(t, u, fetched), u) == Seqs.Map(fetched, FavoriteDtoToEntity)
  {
    FavoriteDao.DeleteAllFavoritesEffect(t, u, u);
    TableOps.ReplaceAllAppends(FavoriteDao.DeleteAllFavorites(t, u), Seqs.Map(fetched, FavoriteDtoToEntity),
                               FavoriteDao.FavoriteConflict, FavoriteDao.ByUser(u));
  }

  /** After a sync, q is one of u's favourites exactly when some fetched row
      names it. */
  lemma SyncFavoritesMeans(t: seq<FavoriteEntity>, u: string, fetched: seq<FavoriteDto>, q: string)
    requires forall j :: 0 <= j < |fetched| ==> fetched[j].userId == u
    requires forall j, k :: 0 <= j < k < |fetched| ==>
      fetched[j].id != fetched[k].id && fetched[j].quoteId != fetched[k].quoteId
    ensures FavoriteDao.IsFavorite(SyncedFavorites(t, u, fetched), u, q) <==>
      exists j :: 0 <= j < |fetched| && fetched[j].quoteId == q
  {
    SyncFavoritesReplacesOwn(t, u, fetched);
    FavoritesAsFetched(SyncedFavorites(t, u, fetched), u, fetched, q);
  }

  /** A table whose rows for u are the fetched rows has q among u's favourites
      exactly when some fetched row names it. */
  lemma FavoritesAsFetched(s: seq<FavoriteEntity>, u: string, fetched: seq<FavoriteDto>, q: string)
    requires FavoriteDao.FavoritesOf(s, u) == Seqs.Map(fetched, FavoriteDtoToEntity)
    ensures FavoriteDao.IsFavorite(s, u, q) <==> exists j :: 0 <= j < |fetched| && fetched[j].quoteId == q
  {
    var ks := Seqs.Map(Seqs.Map(fetched, FavoriteDtoToEntity), FavoriteDao.QuoteIdOf);
    assert FavoriteDao.IsFavorite(s, u, q) <==> q in ks by {
      FavoriteDao.IsFavoriteMeans(s, u, q);
      Seqs.MapFilterMembers(s, FavoriteDao.ByUser(u), FavoriteDao.QuoteIdOf, q);
    }
    if q in ks {
      var j :| 0 <= j < |ks| && ks[j] == q;
      assert fetched[j].quoteId == q;
    }
    if j :| 0 <= j < |fetched| && fetched[j].quoteId == q {
      assert ks[j] == q;
    }
  }

  /** A sync for u keeps another user's rows, provided every fetched row is u's
      and no fetched id is already used by one of that user's rows. */
  lemma SyncFavoritesKeepsOthers(t: seq<FavoriteEntity>, u: string, fetched: seq<FavoriteDto>, v: string)
    requires v != u
    requires forall j :: 0 <= j < |fetched| ==> fetched[j].userId == u
    requires forall i, j :: 0 <= i < |t| && 0 <= j < |fetched| && t[i].userId == v ==> t[i].id != fetched[j].id
    ensures FavoriteDao.FavoritesOf(SyncedFavorites(t, u, fetched), v) == FavoriteDao.FavoritesOf(t, v)
  {
    var d := FavoriteDao.DeleteAllFavorites(t, u);
    var xs := Seqs.Map(fetched, FavoriteDtoToEntity);
    FavoriteDao.DeleteAllFavoritesEffect(t, u, v);
    forall i, j | 0 <= i < |d| && 0 <= j < |xs| && FavoriteDao.ByUser(v)(d[i])
      ensures !FavoriteDao.FavoriteConflict(d[i], xs[j])
    {
      var k :| 0 <= k < |t| && t[k] == d[i];
    }
    TableOps.ReplaceAllKeepsOthers(d, xs, FavoriteDao.FavoriteConflict, FavoriteDao.ByUser(v));
  }

  /** Every quote of the favourite join, mapped, is one of u's favourites. */
  lemma AllFavoriteJoined(quotes: seq<QuoteEntity>, t: seq<FavoriteEntity>, u: string)
    ensures var r := AllFavorite(FavoriteDao.FavoriteQuotes(quotes, t, u));
      forall i :: 0 <= i < |r| ==> FavoriteDao.IsFavorite(t, u, r[i].id)
  {
    var es := FavoriteDao.FavoriteQuotes(quotes, t, u);
    var r := AllFavorite(es);
    FavoriteDao.FavoriteQuotesMeans(quotes, t, u, "");
    forall i | 0 <= i < |r| ensures FavoriteDao.IsFavorite(t, u, r[i].id) {
      assert es[i] in es && r[i].id == es[i].id;
    }
  }

  class FavoriteRepository {
    const db: Database

    constructor (db: Database)
      ensures this.db == db
    {
      this.db := db;
    }

    /** `getFavoriteQuotes()`: the joined favourite quotes, all flagged, or none without a user. */
    function FavoriteQuotes(uid: Option<string>): (r: seq<Quote>)
      reads db
      ensures uid.None? ==> r == []
      ensures uid.Some? ==>
        var es := FavoriteDao.FavoriteQuotes(db.quotes, db.favorites, uid.value);
        |r| == |es| &&
        forall i :: 0 <= i < |r| ==> r[i].isFavorite && QuoteToEntity(r[i]) == es[i].(updatedAt := None)
      ensures forall i :: 0 <= i < |r| ==>
        r[i].isFavorite && uid.Some? && FavoriteDao.IsFavorite(db.favorites, uid.value, r[i].id)
    {
      match uid
      case None => []
      case Some(u) =>
        AllFavoriteJoined(db.quotes, db.favorites, u);
        AllFavorite(FavoriteDao.FavoriteQuotes(db.quotes, db.favorites, u))
    }

    /** `getFavoriteQuotesPaginated(page, pageSize)`: the page at offset `page * pageSize`
        of the same list. */
    function FavoriteQuotesPaginated(uid: Option<string>, page: nat, pageSize: nat): (r: seq<Quote>)
      reads db
      ensures r == Seqs.Page(FavoriteQuotes(uid), pageSize, page * pageSize)
    {
      match uid
      case None => []
      case Some(u) => AllFavorite(FavoriteDao.FavoriteQuotesPaginated(db.quotes, db.favorites, u, pageSize, page * pageSize))
    }

    /** `isFavoriteSync(quoteId)`: false without a user. */
    predicate IsFavoriteSync(uid: Option<string>, quoteId: string)
      reads db
    {
      uid.Some? && FavoriteDao.IsFavorite(db.favorites, uid.value, quoteId)
    }

    /** `getFavoriteQuoteIds()`. */
    function FavoriteQuoteIds(uid: Option<string>): (r: seq<string>)
      reads db
      ensures forall q :: q in r <==> IsFavoriteSync(uid, q)
    {
      match uid
      case None => []
      case Some(u) =>
        assert forall q :: q in FavoriteDao.FavoriteQuoteIds(db.favorites, u) <==> FavoriteDao.IsFavorite(db.favorites, u, q) by {
          forall q ensures q in FavoriteDao.FavoriteQuoteIds(db.favorites, u) <==> FavoriteDao.IsFavorite(db.favorites, u, q) {
            FavoriteDao.FavoriteQuoteIdsMeans(db.favorites, u, q);
          }
        }
        FavoriteDao.FavoriteQuoteIds(db.favorites, u)
    }

    /** `addFavorite(quoteId)`. The new row gets the fresh id and the current
        time; the remote insert's outcome is ignored. */
    method AddFavorite(uid: Option<string>, quoteId: string, freshId: string, now: int, remote: Result<()>)
      returns (r: Result<()>, sent: Option<FavoriteInsertDto>)
      requires db.Valid()
      modifies db
      ensures db.Valid()
      ensures uid.None? ==> r == Fail(NotLoggedIn) && sent.None? && db.favorites == old(db.favorites)
      ensures uid.Some? ==>
        r == Success(()) && sent == Some(FavoriteInsertDto(uid.value, quoteId)) &&
        db.favorites == FavoriteDao.ReplaceFavorite(old(db.favorites), FavoriteEntity(freshId, uid.value, quoteId, Some(now)))
      ensures db.quotes == old(db.quotes) && db.categories == old(db.categories)
      ensures db.collections == old(db.collections) && db.memberships == old(db.memberships)
    {
      if uid.None? {
        return Fail(NotLoggedIn), None;
      }
      var u := uid.value;
      db.InsertFavorite(FavoriteEntity(freshId, u, quoteId, Some(now)));
      sent := Some(FavoriteInsertDto(u, quoteId));
      r := Success(());
    }

    /** `removeFavorite(quoteId)`. `sent` is the (user, quote) filter of the remote delete. */
    method RemoveFavorite(uid: Option<string>, quoteId: string, remote: Result<()>)
      returns (r: Result<()>, sent: Option<(string, string)>)
      requires db.Valid()
      modifies db
      ensures db.Valid()
      ensures uid.None? ==> r == Fail(NotLoggedIn) && sent.None? && db.favorites == old(db.favorites)
      ensures uid.Some? ==>
        r == Success(()) && sent == Some((uid.value, quoteId)) &&
        db.favorites == FavoriteDao.DeleteFavorite(old(db.favorites), uid.value, quoteId)
      ensures db.quotes == old(db.quotes) && db.categories == old(db.categories)
      ensures db.collections == old(db.collections) && db.memberships == old(db.memberships)
    {
      if uid.None? {
        return Fail(NotLoggedIn), None;
      }
      var u := uid.value;
      db.DeleteFavorite(u, quoteId);
      sent := Some((u, quoteId));
      r := Success(());
    }

    /** `toggleFavorite(quoteId)`: removes a favourite or adds a missing one, and
        returns the new state. */
    method ToggleFavorite(uid: Option<string>, quoteId: string, freshId: string, now: int, remote: Result<()>)
      returns (r: Result<bool>)
      requires db.Valid()
      modifies db
      ensures db.Valid()
      ensures uid.None? ==> r == Fail(NotLoggedIn) && db.favorites == old(db.favorites)
      ensures uid.Some? ==> r == Success(!old(IsFavoriteSync(uid, quoteId))) && IsFavoriteSync(uid, quoteId) == r.value
      ensures uid.Some? ==> forall v, p :: (v, p) != (uid.value, quoteId) && (forall i :: 0 <= i < |old(db.favorites)| ==> old(db.favorites)[i].id != freshId) ==>
        FavoriteDao.PairRows(db.favorites, v, p) == FavoriteDao.PairRows(old(db.favorites), v, p)
      ensures db.quotes == old(db.quotes) && db.categories == old(db.categories)
      ensures db.collections == old(db.collections) && db.memberships == old(db.memberships)
    {
      var isFav := IsFavoriteSync(uid, quoteId);
      ghost var before := db.favorites;
      if isFav {
        var res, _ := RemoveFavorite(uid, quoteId, remote);
        match res {
          case Success(_) => r := Success(false);
          case Failure(m) => r := Failure(m);
        }
        FavoriteDao.DeleteFavoriteEffect(before, uid.value, quoteId, uid.value, quoteId);
        forall v, p | (v, p) != (uid.value, quoteId)
          ensures FavoriteDao.PairRows(db.favorites, v, p) == FavoriteDao.PairRows(before, v, p)
        {
          FavoriteDao.DeleteFavoriteEffect(before, uid.value, quoteId, v, p);
        }
      } else {
        var res, _ := AddFavorite(uid, quoteId, freshId, now, remote);
        match res {
          case Success(_) => r := Success(true);
          case Failure(m) => r := Failure(m);
        }
        if uid.Some? {
          var f := FavoriteEntity(freshId, uid.value, quoteId, Some(now));
          FavoriteDao.ReplaceFavoriteEffect(before, f, uid.value, quoteId);
          forall v, p | (v, p) != (uid.value, quoteId) && (forall i :: 0 <= i < |before| ==> before[i].id != freshId)
            ensures FavoriteDao.PairRows(db.favorites, v, p) == FavoriteDao.PairRows(before, v, p)
          {
            FavoriteDao.ReplaceFavoriteEffect(before, f, v, p);
          }
        }
      }
    }

    /** `syncFavorites()`: a failed fetch changes nothing; a successful one
        replaces u's rows by the fetched ones. */
    method SyncFavorites(uid: Option<string>, fetched: Result<seq<FavoriteDto>>) returns (r: Result<()>)
      requires db.Valid()
      modifies db
      ensures db.Valid()
      ensures uid.None? ==> r == Fail(NotLoggedIn) && db.favorites == old(db.favorites)
      ensures uid.Some? && fetched.Failure? ==> r == Failure(fetched.message) && db.favorites == old(db.favorites)
      ensures uid.Some? && fetched.Success? ==>
        r == Success(()) && db.favorites == SyncedFavorites(old(db.favorites), uid.value, fetched.value)
      ensures db.quotes == old(db.quotes) && db.categories == old(db.categories)
      ensures db.collections == old(db.collections) && db.memberships == old(db.memberships)
    {
      if uid.None? {
        return Fail(NotLoggedIn);
      }
      var u := uid.value;
      match fetched
      case Failure(m) => r := Failure(m);
      case Success(rows) =>
        db.DeleteAllFavorites(u);
        db.InsertFavorites(Seqs.Map(rows, FavoriteDtoToEntity));
        r := Success(());
    }
  }

  /** For a signed-in user, `getFavoriteQuotes()` lists a quote exactly when the
      user has it as a favourite and it is cached ... */
  lemma FavoriteQuotesListed(repo: FavoriteRepository, u: string, q: string)
    ensures (exists i :: 0 <= i < |repo.FavoriteQuotes(Some(u))| && repo.FavoriteQuotes(Some(u))[i].id == q) <==>
      FavoriteDao.IsFavorite(repo.db.favorites, u, q) && QuoteDao.QuoteById(repo.db.quotes, q).Some?
  {
    var r := repo.FavoriteQuotes(Some(u));
    var es := FavoriteDao.FavoriteQuotes(repo.db.quotes, repo.db.favorites, u);
    FavoriteDao.FavoriteQuotesMeans(repo.db.quotes, repo.db.favorites, u, q);
    if i :| 0 <= i < |r| && r[i].id == q {
      assert es[i] in es && es[i].id == q;
    }
    if FavoriteDao.IsFavorite(repo.db.favorites, u, q) && QuoteDao.QuoteById(repo.db.quotes, q).Some? {
      var k :| 0 <= k < |es| && es[k] == QuoteDao.QuoteById(repo.db.quotes, q).value;
      assert r[k].id == q;
    }
  }

  /** ... newest favourite first. */
  lemma FavoriteQuotesOrdered(repo: FavoriteRepository, u: string)
    ensures FavoriteDao.NewestFavoriteFirst(repo.db.favorites, u, Seqs.Map(repo.FavoriteQuotes(Some(u)), QuoteId))
  {
    var r := repo.FavoriteQuotes(Some(u));
    var es := FavoriteDao.FavoriteQuotes(repo.db.quotes, repo.db.favorites, u);
    FavoriteDao.FavoriteQuotesNewestFirst(repo.db.quotes, repo.db.favorites, u);
    assert Seqs.Map(r, QuoteId) == Seqs.Map(es, QuoteDao.QuoteKey);
  }
}
