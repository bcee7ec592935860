/** The `collections` and `collection_quotes` tables and the queries of their DAO. */
module CollectionDao {
  import opened Wrappers
  import opened Domain
  import opened Entities
  import opened TableOps
  import QuoteDao
  import Seqs

  // ---------------------------------------------------------------------
  // collections

  function CollectionKey(c: CollectionEntity): string { c.id }

  predicate CollectionConflict(row: CollectionEntity, x: CollectionEntity) { row.id == x.id }

  ghost predicate CollectionsValid(t: seq<CollectionEntity>) { Seqs.UniqueBy(t, CollectionKey) }

  function OwnedBy(u: string): CollectionEntity -> bool { (c: CollectionEntity) => c.userId == u }
  function NotOwnedBy(u: string): CollectionEntity -> bool { (c: CollectionEntity) => c.userId != u }
  function HasId(id: string): CollectionEntity -> bool { (c: CollectionEntity) => c.id == id }
  function NotId(id: string): CollectionEntity -> bool { (c: CollectionEntity) => c.id != id }

  /** `ORDER BY created_at DESC`. */
  predicate NewerCollection(a: CollectionEntity, b: CollectionEntity) { StampGe(a.createdAt, b.createdAt) }

  /** `getCollections(u)` / `getCollectionsSync(u)`. */
  function CollectionsOf(t: seq<CollectionEntity>, u: string): seq<CollectionEntity> {
    Seqs.SortBy(Seqs.Filter(t, OwnedBy(u)), NewerCollection)
  }

  /** `getCollectionById(id)` / `observeCollectionById(id)`. */
  function CollectionById(t: seq<CollectionEntity>, id: string): Option<CollectionEntity> {
    Seqs.First(t, HasId(id))
  }

  /** `insertCollection(c)`. */
  function ReplaceCollection(t: seq<CollectionEntity>, c: CollectionEntity): seq<CollectionEntity> {
    Replace(t, c, CollectionConflict)
  }

  /** `insertCollections(cs)`. */
  function ReplaceCollections(t: seq<CollectionEntity>, cs: seq<CollectionEntity>): seq<CollectionEntity> {
    ReplaceAll(t, cs, CollectionConflict)
  }

  /** One row of `UPDATE collections SET name, description, cover_color WHERE id = :id`. */
  function UpdatedRow(id: string, name: string, description: Option<string>, coverColor: string): CollectionEntity -> CollectionEntity {
    (c: CollectionEntity) =>
      if c.id == id then c.(name := name, description := description, coverColor := coverColor) else c
  }

  /** `updateCollection(id, name, description, coverColor)`. */
  function UpdateCollection(t: seq<CollectionEntity>, id: string, name: string, description: Option<string>,
                            coverColor: string): seq<CollectionEntity> {
    Seqs.Map(t, UpdatedRow(id, name, description, coverColor))
  }

  /** `deleteCollection(id)`. */
  function DeleteCollection(t: seq<CollectionEntity>, id: string): seq<CollectionEntity> {
    Seqs.Filter(t, NotId(id))
  }

  /** `deleteAllCollections(u)`. */
  function DeleteAllCollections(t: seq<CollectionEntity>, u: string): seq<CollectionEntity> {
    Seqs.Filter(t, NotOwnedBy(u))
  }

  // ---------------------------------------------------------------------
  // collection_quotes

  function MembershipKey(m: CollectionQuoteEntity): string { m.id }
  function MembershipPair(m: CollectionQuoteEntity): (string, string) { (m.collectionId, m.quoteId) }
  function MemberQuoteId(m: CollectionQuoteEntity): string { m.quoteId }
  function MemberCollectionId(m: CollectionQuoteEntity): string { m.collectionId }

  /** A new row conflicts on the primary key or on the unique (`collection_id`, `quote_id`) index. */
  predicate MembershipConflict(row: CollectionQuoteEntity, x: CollectionQuoteEntity) {
    row.id == x.id || (row.collectionId == x.collectionId && row.quoteId == x.quoteId)
  }

  ghost predicate MembershipsValid(t: seq<CollectionQuoteEntity>) {
    Seqs.UniqueBy(t, MembershipKey) && Seqs.UniqueBy(t, MembershipPair)
  }

  function InCollection(c: string): CollectionQuoteEntity -> bool { (m: CollectionQuoteEntity) => m.collectionId == c }
  function NotInCollection(c: string): CollectionQuoteEntity -> bool { (m: CollectionQuoteEntity) => m.collectionId != c }
  function ForQuote(q: string): CollectionQuoteEntity -> bool { (m: CollectionQuoteEntity) => m.quoteId == q }
  function InPair(c: string, q: string): CollectionQuoteEntity -> bool {
    (m: CollectionQuoteEntity) => m.collectionId == c && m.quoteId == q
  }
  function NotInPair(c: string, q: string): CollectionQuoteEntity -> bool {
    (m: CollectionQuoteEntity) => !(m.collectionId == c && m.quoteId == q)
  }

  /** The membership rows of a collection. */
  function MembersOf(t: seq<CollectionQuoteEntity>, c: string): seq<CollectionQuoteEntity> {
    Seqs.Filter(t, InCollection(c))
  }

  /** The rows for one (collection, quote) pair. */
  function MembershipRows(t: seq<CollectionQuoteEntity>, c: string, q: string): seq<CollectionQuoteEntity> {
    Seqs.Filter(t, InPair(c, q))
  }

  /** `ORDER BY cq.added_at DESC`. */
  predicate NewerMembership(a: CollectionQuoteEntity, b: CollectionQuoteEntity) { StampGe(a.addedAt, b.addedAt) }

  /** `getQuotesInCollection(c)`: c's memberships newest first, joined with the cached quotes. */
  function QuotesInCollection(quotes: seq<QuoteEntity>, t: seq<CollectionQuoteEntity>, c: string): seq<QuoteEntity> {
    QuoteDao.JoinQuotes(Seqs.Map(Seqs.SortBy(MembersOf(t, c), NewerMembership), MemberQuoteId), quotes)
  }

  /** `getQuotesInCollectionPaginated(c, limit, offset)`. */
  function QuotesInCollectionPaginated(quotes: seq<QuoteEntity>, t: seq<CollectionQuoteEntity>, c: string,
                                       limit: nat, offset: nat): seq<QuoteEntity> {
    Seqs.Page(QuotesInCollection(quotes, t, c), limit, offset)
  }

  /** `getQuoteCountInCollection(c)` / `getQuoteCountInCollectionSync(c)`. */
  function QuoteCountInCollection(t: seq<CollectionQuoteEntity>, c: string): nat {
    |MembersOf(t, c)|
  }

  /** `isQuoteInCollection(c, q)`: `SELECT EXISTS(...)`. */
  predicate IsQuoteInCollection(t: seq<CollectionQuoteEntity>, c: string, q: string) {
    MembershipRows(t, c, q) != []
  }

  /** The quote ids of c's memberships, in rowid order. */
  function QuoteIdsInCollection(t: seq<CollectionQuoteEntity>, c: string): seq<string> {
    Seqs.Map(MembersOf(t, c), MemberQuoteId)
  }

  /** `getCollectionIdsForQuote(q)`. */
  function CollectionIdsForQuote(t: seq<CollectionQuoteEntity>, q: string): seq<string> {
    Seqs.Map(Seqs.Filter(t, ForQuote(q)), MemberCollectionId)
  }

  /** `insertCollectionQuote(m)`. */
  function ReplaceMembership(t: seq<CollectionQuoteEntity>, m: CollectionQuoteEntity): seq<CollectionQuoteEntity> {
    Replace(t, m, MembershipConflict)
  }

  /** `insertCollectionQuotes(ms)`. */
  function ReplaceMemberships(t: seq<CollectionQuoteEntity>, ms: seq<CollectionQuoteEntity>): seq<CollectionQuoteEntity> {
    ReplaceAll(t, ms, MembershipConflict)
  }

  /** `removeQuoteFromCollection(c, q)`. */
  function RemoveMembership(t: seq<CollectionQuoteEntity>, c: string, q: string): seq<CollectionQuoteEntity> {
    Seqs.Filter(t, NotInPair(c, q))
  }

  /** `removeAllQuotesFromCollection(c)`. */
  function RemoveAllMemberships(t: seq<CollectionQuoteEntity>, c: string): seq<CollectionQuoteEntity> {
    Seqs.Filter(t, NotInCollection(c))
  }

  // ---------------------------------------------------------------------
  // properties

  /** `isQuoteInCollection(c, q)` is true exactly when a (c, q) row exists, and
      `getCollectionIdsForQuote(q)` lists exactly the collections holding q. */
  lemma MembershipQueriesMean(t: seq<CollectionQuoteEntity>, c: string, q: string)
    ensures IsQuoteInCollection(t, c, q) <==>
      exists i :: 0 <= i < |t| && t[i].collectionId == c && t[i].quoteId == q
    ensures c in CollectionIdsForQuote(t, q) <==> IsQuoteInCollection(t, c, q)
    ensures q in QuoteIdsInCollection(t, c) <==> IsQuoteInCollection(t, c, q)
  {
    Seqs.FilterNonEmpty(t, InPair(c, q));
    Seqs.MapFilterMembers(t, ForQuote(q), MemberCollectionId, c);
    Seqs.MapFilterMembers(t, InCollection(c), MemberQuoteId, q);
  }

  /** `getQuoteCountInCollectionSync(c)` counts c's rows: one more after adding a
      quote that was not in c, with a fresh row id. */
  lemma CountFollowsMemberships(t: seq<CollectionQuoteEntity>, m: CollectionQuoteEntity)
    ensures !IsQuoteInCollection(t, m.collectionId, m.quoteId) && (forall i :: 0 <= i < |t| ==> t[i].id != m.id) ==>
      QuoteCountInCollection(ReplaceMembership(t, m), m.collectionId) == QuoteCountInCollection(t, m.collectionId) + 1
  {
    if !IsQuoteInCollection(t, m.collectionId, m.quoteId) && (forall i :: 0 <= i < |t| ==> t[i].id != m.id) {
      forall i | 0 <= i < |t| && InCollection(m.collectionId)(t[i]) ensures !MembershipConflict(t[i], m) {
        assert t[i] !in MembershipRows(t, m.collectionId, m.quoteId);
      }
      ReplaceAddsOne(t, m, MembershipConflict, InCollection(m.collectionId));
    }
  }

  /** No quote is counted in c after removing all of c's rows. */
  lemma RemoveAllMembershipsCount(t: seq<CollectionQuoteEntity>, c: string)
    ensures QuoteCountInCollection(RemoveAllMemberships(t, c), c) == 0
  {
    Seqs.FilterNone(RemoveAllMemberships(t, c), InCollection(c));
  }

  /** A valid table has at most one row per (collection, quote) pair. */
  lemma AtMostOneMembershipPerPair(t: seq<CollectionQuoteEntity>, c: string, q: string)
    requires MembershipsValid(t)
    ensures |MembershipRows(t, c, q)| <= 1
  {
    Seqs.FilterOneKey(t, MembershipPair, InPair(c, q), (c, q));
  }

  /** `insertCollectionQuote` keeps both constraints. */
  lemma ReplaceMembershipValid(t: seq<CollectionQuoteEntity>, m: CollectionQuoteEntity)
    requires MembershipsValid(t)
    ensures MembershipsValid(ReplaceMembership(t, m))
  {
    ReplaceUnique(t, m, MembershipConflict, MembershipKey);
    ReplaceUnique(t, m, MembershipConflict, MembershipPair);
  }

  lemma {:induction false} ReplaceMembershipsValid(t: seq<CollectionQuoteEntity>, ms: seq<CollectionQuoteEntity>)
    requires MembershipsValid(t)
    ensures MembershipsValid(ReplaceMemberships(t, ms))
  {
    if ms != [] {
      ReplaceMembershipsValid(t, ms[..|ms| - 1]);
      ReplaceMembershipValid(ReplaceMemberships(t, ms[..|ms| - 1]), ms[|ms| - 1]);
    }
  }

  /** Adding the same quote twice leaves one row for the pair; removing it then leaves none. */
  lemma AddTwiceRemoveOnce(t: seq<CollectionQuoteEntity>, m1: CollectionQuoteEntity, m2: CollectionQuoteEntity)
    requires MembershipPair(m1) == MembershipPair(m2)
    ensures var c, q := m1.collectionId, m1.quoteId;
            var twice := ReplaceMembership(ReplaceMembership(t, m1), m2);
            MembershipRows(twice, c, q) == [m2] && !IsQuoteInCollection(RemoveMembership(twice, c, q), c, q)
  {
    var c, q := m1.collectionId, m1.quoteId;
    var once := ReplaceMembership(t, m1);
    var twice := ReplaceMembership(once, m2);
    ReplaceLeavesOne(once, m2, MembershipConflict, InPair(c, q));
    Seqs.FilterNone(RemoveMembership(twice, c, q), InPair(c, q));
  }

  /** `removeQuoteFromCollection(c, q)` deletes only the (c, q) row. */
  lemma RemoveMembershipEffect(t: seq<CollectionQuoteEntity>, c: string, q: string, d: string, p: string)
    ensures !IsQuoteInCollection(RemoveMembership(t, c, q), c, q)
    ensures (d, p) != (c, q) ==> MembershipRows(RemoveMembership(t, c, q), d, p) == MembershipRows(t, d, p)
  {
    Seqs.FilterNone(RemoveMembership(t, c, q), InPair(c, q));
    if (d, p) != (c, q) {
      Seqs.FilterFilter(t, NotInPair(c, q), InPair(d, p));
    }
  }

  /** `removeAllQuotesFromCollection(c)` deletes exactly c's rows. */
  lemma RemoveAllMembershipsEffect(t: seq<CollectionQuoteEntity>, c: string, d: string)
    ensures MembersOf(RemoveAllMemberships(t, c), c) == []
    ensures d != c ==> MembersOf(RemoveAllMemberships(t, c), d) == MembersOf(t, d)
    ensures MembershipsValid(t) ==> MembershipsValid(RemoveAllMemberships(t, c))
  {
    Seqs.FilterNone(RemoveAllMemberships(t, c), InCollection(c));
    if d != c {
      Seqs.FilterFilter(t, NotInCollection(c), InCollection(d));
    }
    if MembershipsValid(t) {
      Seqs.FilterUnique(t, NotInCollection(c), MembershipKey);
      Seqs.FilterUnique(t, NotInCollection(c), MembershipPair);
    }
  }

  /** `deleteCollection(id)` removes only that row. */
  lemma DeleteCollectionEffect(t: seq<CollectionEntity>, id: string)
    ensures CollectionById(DeleteCollection(t, id), id).None?
    ensures forall r :: r in DeleteCollection(t, id) <==> r in t && r.id != id
  {
    forall r ensures r in DeleteCollection(t, id) <==> r in t && r.id != id {
      Seqs.FilterMembers(t, NotId(id), r);
    }
  }

  /** `deleteAllCollections(u)` removes exactly u's rows. */
  lemma DeleteAllCollectionsEffect(t: seq<CollectionEntity>, u: string, v: string)
    ensures Seqs.Filter(DeleteAllCollections(t, u), OwnedBy(u)) == []
    ensures v != u ==> Seqs.Filter(DeleteAllCollections(t, u), OwnedBy(v)) == Seqs.Filter(t, OwnedBy(v))
  {
    Seqs.FilterNone(DeleteAllCollections(t, u), OwnedBy(u));
    if v != u {
      Seqs.FilterFilter(t, NotOwnedBy(u), OwnedBy(v));
    }
  }

  /** `updateCollection` changes name, description and cover colour of the row
      with that id and nothing else: no other row, and none of owner, visibility
      or timestamps; the ids, and so the constraint, stay as they were. */
  lemma UpdateCollectionEffect(t: seq<CollectionEntity>, id: string, name: string, description: Option<string>,
                               coverColor: string)
    ensures var r := UpdateCollection(t, id, name, description, coverColor);
            |r| == |t| &&
            (forall i :: 0 <= i < |t| ==>
               r[i].id == t[i].id && r[i].userId == t[i].userId && r[i].isPublic == t[i].isPublic &&
               r[i].createdAt == t[i].createdAt && r[i].updatedAt == t[i].updatedAt &&
               (t[i].id != id ==> r[i] == t[i]) &&
               (t[i].id == id ==> r[i].name == name && r[i].description == description && r[i].coverColor == coverColor))
    ensures CollectionsValid(t) ==> CollectionsValid(UpdateCollection(t, id, name, description, coverColor))
  {
  }

  /** Updating a missing id changes nothing, so the following lookup still finds nothing. */
  lemma UpdateMissingCollection(t: seq<CollectionEntity>, id: string, name: string, description: Option<string>,
                                coverColor: string)
    requires CollectionById(t, id).None?
    ensures UpdateCollection(t, id, name, description, coverColor) == t
    ensures CollectionById(UpdateCollection(t, id, name, description, coverColor), id).None?
  {
  }

  /** The quote ids, newest membership first, that `getQuotesInCollection(c)`
      joins: exactly the quotes in c. */
  lemma SortedMemberIdsMean(t: seq<CollectionQuoteEntity>, c: string, x: string)
    ensures x in Seqs.Map(Seqs.SortBy(MembersOf(t, c), NewerMembership), MemberQuoteId) <==> IsQuoteInCollection(t, c, x)
  {
    Seqs.MapSortByMembers(MembersOf(t, c), NewerMembership, MemberQuoteId, x);
    MembershipQueriesMean(t, c, x);
  }

  /** `getQuotesInCollection(c)` is an inner join: each listed quote is cached and in c. */
  lemma QuotesInCollectionSound(quotes: seq<QuoteEntity>, t: seq<CollectionQuoteEntity>, c: string)
    ensures forall e :: e in QuotesInCollection(quotes, t, c) ==>
      e in quotes && IsQuoteInCollection(t, c, e.id) && QuoteDao.QuoteById(quotes, e.id) == Some(e)
  {
    var ids := Seqs.Map(Seqs.SortBy(MembersOf(t, c), NewerMembership), MemberQuoteId);
    var r := QuotesInCollection(quotes, t, c);
    QuoteDao.JoinQuotesCached(ids, quotes);
    forall e | e in r
      ensures IsQuoteInCollection(t, c, e.id) && QuoteDao.QuoteById(quotes, e.id) == Some(e)
    {
      var i :| 0 <= i < |r| && r[i] == e;
      SortedMemberIdsMean(t, c, e.id);
    }
  }

  /** ... and every quote in c that is cached is listed. */
  lemma QuotesInCollectionComplete(quotes: seq<QuoteEntity>, t: seq<CollectionQuoteEntity>, c: string, q: string)
    ensures IsQuoteInCollection(t, c, q) && QuoteDao.QuoteById(quotes, q).Some? ==>
      QuoteDao.QuoteById(quotes, q).value in QuotesInCollection(quotes, t, c)
  {
    if IsQuoteInCollection(t, c, q) && QuoteDao.QuoteById(quotes, q).Some? {
      var ids := Seqs.Map(Seqs.SortBy(MembersOf(t, c), NewerMembership), MemberQuoteId);
      SortedMemberIdsMean(t, c, q);
      var k :| 0 <= k < |ids| && ids[k] == q;
      QuoteDao.JoinQuotesComplete(ids, quotes);
    }
  }

  /** `insertCollection` keeps the table keyed by id. */
  lemma ReplaceCollectionValid(t: seq<CollectionEntity>, c: CollectionEntity)
    requires CollectionsValid(t)
    ensures CollectionsValid(ReplaceCollection(t, c))
  {
    ReplaceUnique(t, c, CollectionConflict, CollectionKey);
  }

  /** `deleteCollection(id)` keeps the table keyed by id. */
  lemma DeleteCollectionValid(t: seq<CollectionEntity>, id: string)
    requires CollectionsValid(t)
    ensures CollectionsValid(DeleteCollection(t, id))
  {
    Seqs.FilterUnique(t, NotId(id), CollectionKey);
  }

  /** `deleteAllCollections(u)` keeps the table keyed by id. */
  lemma DeleteAllCollectionsValid(t: seq<CollectionEntity>, u: string)
    requires CollectionsValid(t)
    ensures CollectionsValid(DeleteAllCollections(t, u))
  {
    Seqs.FilterUnique(t, NotOwnedBy(u), CollectionKey);
  }

  /** `removeQuoteFromCollection` keeps both constraints. */
  lemma RemoveMembershipValid(t: seq<CollectionQuoteEntity>, c: string, q: string)
    requires MembershipsValid(t)
    ensures MembershipsValid(RemoveMembership(t, c, q))
  {
    Seqs.FilterUnique(t, NotInPair(c, q), MembershipKey);
    Seqs.FilterUnique(t, NotInPair(c, q), MembershipPair);
  }

  /** `getCollections(u)` lists exactly u's collections, newest first. */
  lemma CollectionsOfOwned(t: seq<CollectionEntity>, u: string)
    ensures forall i :: 0 <= i < |CollectionsOf(t, u)| ==> CollectionsOf(t, u)[i].userId == u
    ensures forall c :: c in CollectionsOf(t, u) <==> c in t && c.userId == u
    ensures Seqs.SortedBy(CollectionsOf(t, u), NewerCollection)
  {
    var mine := Seqs.Filter(t, OwnedBy(u));
    Seqs.SortByMembers(mine, NewerCollection);
    forall c ensures c in CollectionsOf(t, u) <==> c in t && c.userId == u {
      Seqs.FilterMembers(t, OwnedBy(u), c);
    }
    forall i | 0 <= i < |CollectionsOf(t, u)| ensures CollectionsOf(t, u)[i].userId == u {
      assert CollectionsOf(t, u)[i] in mine;
    }
    StampGeOrder();
    Seqs.SortBySorted(mine, NewerCollection);
  }

  /** Of two ids, the earlier one has a membership row in c at least as new as
      a membership row in c for the later one (with the unique (collection,
      quote) index, each has just one). */
  ghost predicate NewestMemberFirst(t: seq<CollectionQuoteEntity>, c: string, ids: seq<string>) {
    forall i, j :: 0 <= i < j < |ids| ==> NewerMemberPair(t, c, ids[i], ids[j])
  }

  /** Quote `a` has a membership row of c at least as new as one for quote `b`. */
  ghost predicate NewerMemberPair(t: seq<CollectionQuoteEntity>, c: string, a: string, b: string) {
    exists m, n :: (m in MembersOf(t, c) && n in MembersOf(t, c) &&
      m.quoteId == a && n.quoteId == b && NewerMembership(m, n))
  }

  /** `ORDER BY cq.added_at DESC`: the listed quotes are in that order. */
  lemma QuotesInCollectionNewestFirst(quotes: seq<QuoteEntity>, t: seq<CollectionQuoteEntity>, c: string)
    ensures NewestMemberFirst(t, c, Seqs.Map(QuotesInCollection(quotes, t, c), QuoteDao.QuoteKey))
  {
    var ks := Seqs.Map(QuotesInCollection(quotes, t, c), QuoteDao.QuoteKey);
    forall i, j | 0 <= i < j < |ks|
      ensures NewerMemberPair(t, c, ks[i], ks[j])
    {
      NewestMemberFirstAt(quotes, t, c, i, j);
    }
  }

  /** One pair of listed quotes is in that order. */
  lemma NewestMemberFirstAt(quotes: seq<QuoteEntity>, t: seq<CollectionQuoteEntity>, c: string, i: nat, j: nat)
    requires i < j < |QuotesInCollection(quotes, t, c)|
    ensures var ks := Seqs.Map(QuotesInCollection(quotes, t, c), QuoteDao.QuoteKey);
      NewerMemberPair(t, c, ks[i], ks[j])
  {
    var ids := Seqs.Map(Seqs.SortBy(MembersOf(t, c), NewerMembership), MemberQuoteId);
    var r := QuotesInCollection(quotes, t, c);
    assert QuoteDao.InIdOrder(r, ids) by {
      QuoteDao.JoinQuotesInOrder(ids, quotes);
    }
    var a, b :| 0 <= a < b < |ids| && ids[a] == r[i].id && ids[b] == r[j].id;
    var ks := Seqs.Map(r, QuoteDao.QuoteKey);
    assert ks[i] == r[i].id && ks[j] == r[j].id;
    NewestMemberFirstPair(t, c, a, b);
  }

  /** Two rows of the sorted list, in order, witness the order of their quote ids. */
  lemma NewestMemberFirstPair(t: seq<CollectionQuoteEntity>, c: string, a: nat, b: nat)
    requires a < b < |Seqs.SortBy(MembersOf(t, c), NewerMembership)|
    ensures var ss := Seqs.SortBy(MembersOf(t, c), NewerMembership);
      NewerMemberPair(t, c, ss[a].quoteId, ss[b].quoteId)
  {
    var ss := Seqs.SortBy(MembersOf(t, c), NewerMembership);
    Seqs.SortByMembers(MembersOf(t, c), NewerMembership);
    StampGeOrder();
    Seqs.SortBySorted(MembersOf(t, c), NewerMembership);
    assert ss[a] in ss && ss[b] in ss;
  }

  /** With ids unique, the lookup by id finds the one row with that id. */
  lemma CollectionByIdFinds(t: seq<CollectionEntity>, id: string, k: nat)
    requires CollectionsValid(t)
    requires k < |t| && t[k].id == id
    ensures CollectionById(t, id) == Some(t[k])
  {
    Seqs.FirstUnique(t, CollectionKey, HasId(id), k);
  }
}
