/** `CollectionRepositoryImpl`: collections and their memberships are written to
    the local tables first; the remote copy is best effort. */
module CollectionRepo {
  import opened Wrappers
  import opened Domain
  import opened Entities
  import opened Dtos
  import opened Mappers
  import opened Store
  import CollectionDao
  import QuoteDao
  import QuoteRepo
  import Flags
  import TableOps
  import Seqs

  const CollectionNotFound := "Collection not found"

  /** The membership row `syncCollections` builds from a fetched one. */
  function MembershipDtoToEntity(d: CollectionQuoteDto): CollectionQuoteEntity {
    CollectionQuoteEntity(d.id, d.collectionId, d.quoteId, d.addedAt)
  }

  /** `entity.toDomain(getQuoteCountInCollectionSync(entity.id))`. */
  function WithCount(ms: seq<CollectionQuoteEntity>): CollectionEntity -> Collection {
    (e: CollectionEntity) => CollectionEntityToDomain(e, CollectionDao.QuoteCountInCollection(ms, e.id), [])
  }

  /** Each row becomes its domain collection carrying its membership count and no quotes. */
  function WithCounts(es: seq<CollectionEntity>, ms: seq<CollectionQuoteEntity>): (r: seq<Collection>)
    ensures |r| == |es|
    ensures forall i :: 0 <= i < |r| ==>
      CollectionToEntity(r[i]) == es[i] && r[i].quotes == [] &&
      r[i].quoteCount == CollectionDao.QuoteCountInCollection(ms, es[i].id)
  {
    Seqs.Map(es, WithCount(ms))
  }

  /** The number of leading collections whose membership fetch succeeds: the
      loop of `syncCollections` stops at the first failure. */
  function SucceededPrefix(rows: seq<CollectionDto>, members: string -> Result<seq<CollectionQuoteDto>>): (k: nat)
    ensures k <= |rows|
    ensures forall j :: 0 <= j < k ==> members(rows[j].id).Success?
    ensures k < |rows| ==> members(rows[k].id).Failure?
  {
    if rows == [] || members(rows[0].id).Failure? then 0
    else 1 + SucceededPrefix(rows[1..], members)
  }

  /** Where the loop of `syncCollections` stands after `i` collections: the
      next fetch succeeding means the succeeded prefix is longer, failing means
      it ends right there. */
  lemma SucceededPrefixAt(rows: seq<CollectionDto>, members: string -> Result<seq<CollectionQuoteDto>>, i: nat)
    requires i <= SucceededPrefix(rows, members) && i < |rows|
    ensures members(rows[i].id).Success? ==> i < SucceededPrefix(rows, members)
    ensures members(rows[i].id).Failure? ==> i == SucceededPrefix(rows, members)
  {
  }

  /** The membership table after the loop body ran for each of `rows`, all of
      whose fetches succeeded: c's rows are dropped, then the fetched ones inserted. */
  function SyncedMemberships(t: seq<CollectionQuoteEntity>, rows: seq<CollectionDto>,
                             members: string -> Result<seq<CollectionQuoteDto>>): seq<CollectionQuoteEntity>
  {
    if rows == [] then t
    else
      var prev := SyncedMemberships(t, rows[..|rows| - 1], members);
      var c := rows[|rows| - 1].id;
      match members(c)
      case Success(ms) => CollectionDao.ReplaceMemberships(CollectionDao.RemoveAllMemberships(prev, c), Seqs.Map(ms, MembershipDtoToEntity))
      case Failure(_) => prev
  }

  /** The collections table after the delete-then-insert of `syncCollections`. */
  function SyncedCollections(t: seq<CollectionEntity>, u: string, rows: seq<CollectionDto>): seq<CollectionEntity> {
    CollectionDao.ReplaceCollections(CollectionDao.DeleteAllCollections(t, u), Seqs.Map(rows, CollectionDtoToEntity))
  }

  /** The membership table after the loop body for collection `c` ran with the fetched rows `ms`. */
  lemma SyncedMembershipsStep(t: seq<CollectionQuoteEntity>, rows: seq<CollectionDto>,
                              members: string -> Result<seq<CollectionQuoteDto>>, i: nat)
    requires i < |rows| && members(rows[i].id).Success?
    ensures SyncedMemberships(t, rows[..i + 1], members) ==
      CollectionDao.ReplaceMemberships(CollectionDao.RemoveAllMemberships(SyncedMemberships(t, rows[..i], members), rows[i].id),
                                       Seqs.Map(members(rows[i].id).value, MembershipDtoToEntity))
  {
    assert rows[..i + 1][..i] == rows[..i];
  }

  /** After the loop body for collection `rows[i]` ran with a successful fetch,
      q is in that collection exactly when some fetched membership names it,
      provided the fetch returned that collection's rows with distinct ids and
      quotes (the remote table's own constraints). */
  lemma SyncedMembershipsMeans(t: seq<CollectionQuoteEntity>, rows: seq<CollectionDto>,
                               members: string -> Result<seq<CollectionQuoteDto>>, i: nat, q: string)
    requires i < |rows| && members(rows[i].id).Success?
    requires forall j :: 0 <= j < |members(rows[i].id).value| ==> members(rows[i].id).value[j].collectionId == rows[i].id
    requires forall j, k :: 0 <= j < k < |members(rows[i].id).value| ==>
      members(rows[i].id).value[j].id != members(rows[i].id).value[k].id &&
      members(rows[i].id).value[j].quoteId != members(rows[i].id).value[k].quoteId
    ensures CollectionDao.IsQuoteInCollection(SyncedMemberships(t, rows[..i + 1], members), rows[i].id, q) <==>
      exists j :: 0 <= j < |members(rows[i].id).value| && members(rows[i].id).value[j].quoteId == q
  {
    var c := rows[i].id;
    var ms := members(c).value;
    var s := SyncedMemberships(t, rows[..i + 1], members);
    var ks := Seqs.Map(Seqs.Map(ms, MembershipDtoToEntity), CollectionDao.MemberQuoteId);
    assert Seqs.Map(CollectionDao.MembersOf(s, c), CollectionDao.MemberQuoteId) == ks by {
      SyncedMembersOf(t, rows, members, i);
    }
    assert CollectionDao.IsQuoteInCollection(s, c, q) <==> q in ks by {
      CollectionDao.MembershipQueriesMean(s, c, q);
      Seqs.MapFilterMembers(s, CollectionDao.InCollection(c), CollectionDao.MemberQuoteId, q);
    }
    if q in ks {
      var j :| 0 <= j < |ks| && ks[j] == q;
      assert ms[j].quoteId == q;
    }
    if j :| 0 <= j < |ms| && ms[j].quoteId == q {
      assert ks[j] == q;
    }
  }

  /** After that loop step the collection's rows are exactly the fetched ones, in order. */
  lemma SyncedMembersOf(t: seq<CollectionQuoteEntity>, rows: seq<CollectionDto>,
                        members: string -> Result<seq<CollectionQuoteDto>>, i: nat)
    requires i < |rows| && members(rows[i].id).Success?
    requires forall j :: 0 <= j < |members(rows[i].id).value| ==> members(rows[i].id).value[j].collectionId == rows[i].id
    requires forall j, k :: 0 <= j < k < |members(rows[i].id).value| ==>
      members(rows[i].id).value[j].id != members(rows[i].id).value[k].id &&
      members(rows[i].id).value[j].quoteId != members(rows[i].id).value[k].quoteId
    ensures CollectionDao.MembersOf(SyncedMemberships(t, rows[..i + 1], members), rows[i].id) ==
      Seqs.Map(members(rows[i].id).value, MembershipDtoToEntity)
  {
    var c := rows[i].id;
    var prev := SyncedMemberships(t, rows[..i], members);
    SyncedMembershipsStep(t, rows, members, i);
    CollectionDao.RemoveAllMembershipsEffect(prev, c, c);
    TableOps.ReplaceAllAppends(CollectionDao.RemoveAllMemberships(prev, c), Seqs.Map(members(c).value, MembershipDtoToEntity),
                               CollectionDao.MembershipConflict, CollectionDao.InCollection(c));
  }

  /** A membership fetch that fails on the first collection ends the loop before
      any membership is synced ... */
  lemma SyncStopsAtFirstFailure(rows: seq<CollectionDto>, members: string -> Result<seq<CollectionQuoteDto>>,
                                t: seq<CollectionQuoteEntity>)
    requires rows != [] && members(rows[0].id).Failure?
    ensures SucceededPrefix(rows, members) == 0
    ensures SyncedMemberships(t, rows[..SucceededPrefix(rows, members)], members) == t
  {
  }

  /** ... yet the collections table has already been rewritten: the failure comes
      after `deleteAllCollections` and `insertCollections`, which are not undone,
      so the fetched collections are present with their old memberships. */
  lemma SyncRewritesCollectionsFirst(t: seq<CollectionEntity>, u: string, rows: seq<CollectionDto>)
    ensures forall j :: 0 <= j < |rows| ==>
      exists c :: c in SyncedCollections(t, u, rows) && c.id == rows[j].id
  {
    var d := CollectionDao.DeleteAllCollections(t, u);
    var xs := Seqs.Map(rows, CollectionDtoToEntity);
    TableOps.ReplaceAllContains(d, xs, CollectionDao.CollectionConflict, CollectionDao.CollectionKey);
    forall j | 0 <= j < |rows| ensures exists c :: c in SyncedCollections(t, u, rows) && c.id == rows[j].id {
      assert CollectionDao.CollectionKey(xs[j]) == rows[j].id;
    }
  }

  class CollectionRepository {
    const db: Database

    constructor (db: Database)
      ensures this.db == db
    {
      this.db := db;
    }

    /** `getCollections()`: u's collections newest first, each with its membership count. */
    function Collections(uid: Option<string>): (r: seq<Collection>)
      reads db
      ensures uid.None? ==> r == []
      ensures uid.Some? ==>
        var es := CollectionDao.CollectionsOf(db.collections, uid.value);
        |r| == |es| && forall i :: 0 <= i < |r| ==> CollectionToEntity(r[i]) == es[i]
      ensures forall i :: 0 <= i < |r| ==>
        uid.Some? && r[i].userId == uid.value && r[i].quotes == [] &&
        r[i].quoteCount == CollectionDao.QuoteCountInCollection(db.memberships, r[i].id)
    {
      match uid
      case None => []
      case Some(u) =>
        CollectionDao.CollectionsOfOwned(db.collections, u);
        WithCounts(CollectionDao.CollectionsOf(db.collections, u), db.memberships)
    }

    /** `getCollectionById(id)` and `observeCollectionById(id)`: the row with that
        id, whoever owns it, with its membership count. */
    function CollectionById(id: string): (r: Option<Collection>)
      reads db
      ensures r.None? <==> CollectionDao.CollectionById(db.collections, id).None?
      ensures r.Some? ==>
        CollectionToEntity(r.value) == CollectionDao.CollectionById(db.collections, id).value &&
        r.value.id == id && r.value.quoteCount == CollectionDao.QuoteCountInCollection(db.memberships, id)
    {
      match CollectionDao.CollectionById(db.collections, id)
      case None => None
      case Some(e) => Some(WithCount(db.memberships)(e))
    }

    /** `getQuotesInCollection(c)`: the joined quotes, flagged from the user's favourites. */
    function QuotesInCollection(uid: Option<string>, c: string): (r: seq<Quote>)
      reads db
      ensures QuoteRepo.FlaggedFrom(r, CollectionDao.QuotesInCollection(db.quotes, db.memberships, c), db.favorites, uid)
      ensures forall i :: 0 <= i < |r| ==> (r[i].isFavorite <==> r[i].id in Flags.FavoriteIds(db.favorites, uid))
    {
      QuoteRepo.WithFlagsFlagged(CollectionDao.QuotesInCollection(db.quotes, db.memberships, c), db.favorites, uid);
      Flags.WithFlags(CollectionDao.QuotesInCollection(db.quotes, db.memberships, c), Flags.FavoriteIds(db.favorites, uid))
    }

    /** `getQuotesInCollectionPaginated(c, page, pageSize)`: the page at offset `page * pageSize`. */
    function QuotesInCollectionPaginated(uid: Option<string>, c: string, page: nat, pageSize: nat): (r: seq<Quote>)
      reads db
      ensures r == Seqs.Page(QuotesInCollection(uid, c), pageSize, page * pageSize)
    {
      var es := CollectionDao.QuotesInCollectionPaginated(db.quotes, db.memberships, c, pageSize, page * pageSize);
      Flags.WithFlagsPage(CollectionDao.QuotesInCollection(db.quotes, db.memberships, c), Flags.FavoriteIds(db.favorites, uid),
                          pageSize, page * pageSize);
      Flags.WithFlags(es, Flags.FavoriteIds(db.favorites, uid))
    }

    /** `createCollection(name, description, coverColor)`. The local row gets the
        fresh id and the current time; the remote insert carries no id. */
    method CreateCollection(uid: Option<string>, name: string, description: Option<string>, coverColor: string,
                            freshId: string, now: int, remote: Result<()>)
      returns (r: Result<Collection>, sent: Option<CollectionInsertDto>)
      requires db.Valid()
      modifies db
      ensures db.Valid()
      ensures uid.None? ==> r == Fail(NotLoggedIn) && sent.None? && db.collections == old(db.collections)
      ensures uid.Some? ==>
        var e := CollectionEntity(freshId, uid.value, name, description, coverColor, false, Some(now), Some(now));
        db.collections == CollectionDao.ReplaceCollection(old(db.collections), e) &&
        r == Success(CollectionEntityToDomain(e, 0, [])) &&
        sent == Some(CollectionInsertDto(uid.value, name, description, coverColor, false)) &&
        CollectionDao.CollectionById(db.collections, freshId) == Some(e)
      ensures db.quotes == old(db.quotes) && db.categories == old(db.categories)
      ensures db.favorites == old(db.favorites) && db.memberships == old(db.memberships)
    {
      if uid.None? {
        return Fail(NotLoggedIn), None;
      }
      var u := uid.value;
      var e := CollectionEntity(freshId, u, name, description, coverColor, false, Some(now), Some(now));
      db.InsertCollection(e);
      Seqs.FirstIsLast(db.collections, CollectionDao.HasId(freshId));
      sent := Some(CollectionInsertDto(u, name, description, coverColor, false));
      r := Success(CollectionEntityToDomain(e, 0, []));
    }

    /** `updateCollection(id, name, description, coverColor)`: the local update,
        then a re-read that fails when the id is absent. */
    method UpdateCollection(id: string, name: string, description: Option<string>, coverColor: string,
                            remote: Result<()>)
      returns (r: Result<Collection>, sent: CollectionUpdateDto)
      requires db.Valid()
      modifies db
      ensures db.Valid()
      ensures db.collections == CollectionDao.UpdateCollection(old(db.collections), id, name, description, coverColor)
      ensures sent == CollectionUpdateDto(Some(name), description, Some(coverColor), None)
      ensures CollectionDao.CollectionById(old(db.collections), id).None? ==> r == Fail(CollectionNotFound)
      ensures CollectionDao.CollectionById(old(db.collections), id).Some? ==>
        r == Success(CollectionById(id).value) &&
        r.value.id == id && r.value.name == name && r.value.description == description &&
        r.value.coverColor == coverColor && r.value.quoteCount == CollectionDao.QuoteCountInCollection(db.memberships, id) &&
        var e := CollectionDao.CollectionById(old(db.collections), id).value;
        r.value.userId == e.userId && r.value.isPublic == e.isPublic &&
        r.value.createdAt == e.createdAt && r.value.updatedAt == e.updatedAt
      ensures db.quotes == old(db.quotes) && db.categories == old(db.categories)
      ensures db.favorites == old(db.favorites) && db.memberships == old(db.memberships)
    {
      ghost var before := db.collections;
      db.UpdateCollection(id, name, description, coverColor);
      sent := CollectionUpdateDto(Some(name), description, Some(coverColor), None);
      CollectionDao.UpdateCollectionEffect(before, id, name, description, coverColor);
      var found := CollectionById(id);
      match found {
        case None =>
          r := Fail(CollectionNotFound);
        case Some(c) =>
          var e := CollectionDao.CollectionById(db.collections, id).value;
          ghost var k :| 0 <= k < |db.collections| && db.collections[k] == e;
          CollectionDao.CollectionByIdFinds(before, id, k);
          r := Success(c);
      }
    }

    /** `deleteCollection(id)`: the memberships go first, then the row. */
    method DeleteCollection(id: string, remote: Result<()>) returns (r: Result<()>)
      requires db.Valid()
      modifies db
      ensures db.Valid()
      ensures r == Success(())
      ensures db.memberships == CollectionDao.RemoveAllMemberships(old(db.memberships), id)
      ensures db.collections == CollectionDao.DeleteCollection(old(db.collections), id)
      ensures CollectionDao.QuoteCountInCollection(db.memberships, id) == 0 && CollectionById(id).None?
      ensures db.quotes == old(db.quotes) && db.categories == old(db.categories) && db.favorites == old(db.favorites)
    {
      db.RemoveAllQuotesFromCollection(id);
      db.DeleteCollection(id);
      CollectionDao.RemoveAllMembershipsCount(old(db.memberships), id);
      CollectionDao.DeleteCollectionEffect(old(db.collections), id);
      r := Success(());
    }

    /** `addQuoteToCollection(c, q)`: a REPLACE on the fresh row, so the pair has
        exactly one row however often it was added. */
    method AddQuoteToCollection(c: string, q: string, freshId: string, now: int, remote: Result<()>)
      returns (r: Result<()>, sent: CollectionQuoteInsertDto)
      requires db.Valid()
      modifies db
      ensures db.Valid()
      ensures r == Success(()) && sent == CollectionQuoteInsertDto(c, q)
      ensures db.memberships == CollectionDao.ReplaceMembership(old(db.memberships), CollectionQuoteEntity(freshId, c, q, Some(now)))
      ensures CollectionDao.MembershipRows(db.memberships, c, q) == [CollectionQuoteEntity(freshId, c, q, Some(now))]
      ensures db.quotes == old(db.quotes) && db.categories == old(db.categories)
      ensures db.favorites == old(db.favorites) && db.collections == old(db.collections)
    {
      var m := CollectionQuoteEntity(freshId, c, q, Some(now));
      TableOps.ReplaceLeavesOne(db.memberships, m, CollectionDao.MembershipConflict, CollectionDao.InPair(c, q));
      db.InsertCollectionQuote(m);
      sent := CollectionQuoteInsertDto(c, q);
      r := Success(());
    }

    /** `removeQuoteFromCollection(c, q)`. */
    method RemoveQuoteFromCollection(c: string, q: string, remote: Result<()>)
      returns (r: Result<()>, sent: (string, string))
      requires db.Valid()
      modifies db
      ensures db.Valid()
      ensures r == Success(()) && sent == (c, q)
      ensures db.memberships == CollectionDao.RemoveMembership(old(db.memberships), c, q)
      ensures !CollectionDao.IsQuoteInCollection(db.memberships, c, q)
      ensures db.quotes == old(db.quotes) && db.categories == old(db.categories)
      ensures db.favorites == old(db.favorites) && db.collections == old(db.collections)
    {
      CollectionDao.RemoveMembershipEffect(db.memberships, c, q, c, q);
      db.RemoveQuoteFromCollection(c, q);
      sent := (c, q);
      r := Success(());
    }

    /** `syncCollections()`. A failed collection fetch changes nothing. Otherwise
        u's collections are replaced by the fetched ones, then each fetched
        collection's memberships in turn, until a membership fetch fails; that
        failure is returned and the work done before it is kept. */
    method SyncCollections(uid: Option<string>, fetched: Result<seq<CollectionDto>>,
                           members: string -> Result<seq<CollectionQuoteDto>>)
      returns (r: Result<()>)
      requires db.Valid()
      modifies db
      ensures db.Valid()
      ensures uid.None? ==> r == Fail(NotLoggedIn) && db.collections == old(db.collections) && db.memberships == old(db.memberships)
      ensures uid.Some? && fetched.Failure? ==>
        r == Failure(fetched.message) && db.collections == old(db.collections) && db.memberships == old(db.memberships)
      ensures uid.Some? && fetched.Success? ==>
        var k := SucceededPrefix(fetched.value, members);
        db.collections == SyncedCollections(old(db.collections), uid.value, fetched.value) &&
        db.memberships == SyncedMemberships(old(db.memberships), fetched.value[..k], members) &&
        (k == |fetched.value| ==> r == Success(())) &&
        (k < |fetched.value| ==> r == Failure(members(fetched.value[k].id).message))
      ensures db.quotes == old(db.quotes) && db.categories == old(db.categories) && db.favorites == old(db.favorites)
    {
      if uid.None? {
        return Fail(NotLoggedIn);
      }
      var u := uid.value;
      if fetched.Failure? {
        return Failure(fetched.message);
      }
      var rows := fetched.value;
      db.DeleteAllCollections(u);
      db.InsertCollections(Seqs.Map(rows, CollectionDtoToEntity));
      r := SyncMemberships(rows, members);
    }

    /** The loop of `syncCollections`: for each fetched collection in turn, fetch
        its memberships, then drop its local rows and insert the fetched ones; the
        first failed fetch ends the loop and is returned. */
    method SyncMemberships(rows: seq<CollectionDto>, members: string -> Result<seq<CollectionQuoteDto>>)
      returns (r: Result<()>)
      requires db.Valid()
      modifies db
      ensures db.Valid()
      ensures var k := SucceededPrefix(rows, members);
        db.memberships == SyncedMemberships(old(db.memberships), rows[..k], members) &&
        (k == |rows| ==> r == Success(())) &&
        (k < |rows| ==> r == Failure(members(rows[k].id).message))
      ensures db.quotes == old(db.quotes) && db.categories == old(db.categories)
      ensures db.favorites == old(db.favorites) && db.collections == old(db.collections)
    {
      ghost var k := SucceededPrefix(rows, members);
      var i := 0;
      while i < |rows|
        invariant 0 <= i <= k
        invariant db.Valid()
        invariant db.memberships == SyncedMemberships(old(db.memberships), rows[..i], members)
        invariant db.quotes == old(db.quotes) && db.categories == old(db.categories)
        invariant db.favorites == old(db.favorites) && db.collections == old(db.collections)
      {
        var c := rows[i].id;
        SucceededPrefixAt(rows, members, i);
        match members(c) {
          case Failure(m) =>
            return Failure(m);
          case Success(ms) =>
            SyncedMembershipsStep(old(db.memberships), rows, members, i);
            db.RemoveAllQuotesFromCollection(c);
            db.InsertCollectionQuotes(Seqs.Map(ms, MembershipDtoToEntity));
        }
        i := i + 1;
      }
      assert rows[..|rows|] == rows;
      r := Success(());
    }
  }

  /** For a signed-in user, `getCollections()` lists exactly the user's
      collections, newest first. */
  lemma CollectionsListed(repo: CollectionRepository, u: string, e: CollectionEntity)
    ensures var r := repo.Collections(Some(u));
      (exists i :: 0 <= i < |r| && CollectionToEntity(r[i]) == e) <==> e in repo.db.collections && e.userId == u
    ensures var r := repo.Collections(Some(u));
      forall i, j :: 0 <= i < j < |r| ==> CollectionDao.NewerCollection(CollectionToEntity(r[i]), CollectionToEntity(r[j]))
  {
    var r := repo.Collections(Some(u));
    var es := CollectionDao.CollectionsOf(repo.db.collections, u);
    CollectionDao.CollectionsOfOwned(repo.db.collections, u);
    if e in es {
      var k :| 0 <= k < |es| && es[k] == e;
      assert CollectionToEntity(r[k]) == e;
    }
  }

  /** `getQuotesInCollection(c)` lists a quote exactly when it is in c and
      cached ... */
  lemma QuotesInCollectionListed(repo: CollectionRepository, uid: Option<string>, c: string, q: string)
    ensures (exists i :: 0 <= i < |repo.QuotesInCollection(uid, c)| && repo.QuotesInCollection(uid, c)[i].id == q) <==>
      CollectionDao.IsQuoteInCollection(repo.db.memberships, c, q) && QuoteDao.QuoteById(repo.db.quotes, q).Some?
  {
    var r := repo.QuotesInCollection(uid, c);
    var es := CollectionDao.QuotesInCollection(repo.db.quotes, repo.db.memberships, c);
    CollectionDao.QuotesInCollectionSound(repo.db.quotes, repo.db.memberships, c);
    CollectionDao.QuotesInCollectionComplete(repo.db.quotes, repo.db.memberships, c, q);
    if i :| 0 <= i < |r| && r[i].id == q {
      assert es[i] in es && es[i].id == q;
    }
    if CollectionDao.IsQuoteInCollection(repo.db.memberships, c, q) && QuoteDao.QuoteById(repo.db.quotes, q).Some? {
      var k :| 0 <= k < |es| && es[k] == QuoteDao.QuoteById(repo.db.quotes, q).value;
      assert r[k].id == q;
    }
  }

  /** ... newest membership first. */
  lemma QuotesInCollectionOrdered(repo: CollectionRepository, uid: Option<string>, c: string)
    ensures CollectionDao.NewestMemberFirst(repo.db.memberships, c, Seqs.Map(repo.QuotesInCollection(uid, c), QuoteId))
  {
    var r := repo.QuotesInCollection(uid, c);
    var es := CollectionDao.QuotesInCollection(repo.db.quotes, repo.db.memberships, c);
    CollectionDao.QuotesInCollectionNewestFirst(repo.db.quotes, repo.db.memberships, c);
    assert Seqs.Map(r, QuoteId) == Seqs.Map(es, QuoteDao.QuoteKey);
  }
}
