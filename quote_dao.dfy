/** The `quotes` table and the queries of its DAO, as functions of the table. */
module QuoteDao {
  import opened Wrappers
  import opened Text
  import opened Domain
  import opened Entities
  import opened TableOps
  import Seqs

  function QuoteKey(e: QuoteEntity): string { e.id }

  /** Two rows conflict on the primary key. */
  predicate QuoteConflict(row: QuoteEntity, x: QuoteEntity) { row.id == x.id }

  /** The table's constraint: ids are unique. */
  ghost predicate QuotesValid(t: seq<QuoteEntity>) { Seqs.UniqueBy(t, QuoteKey) }

  /** `ORDER BY created_at DESC`: `a` may precede `b`. */
  predicate NewerQuote(a: QuoteEntity, b: QuoteEntity) { StampGe(a.createdAt, b.createdAt) }

  lemma NewerQuoteOrder()
    ensures Seqs.Total(NewerQuote) && Seqs.Transitive(NewerQuote)
  {
    StampGeOrder();
  }

  /** `getAllQuotes()`. */
  function AllQuotes(t: seq<QuoteEntity>): seq<QuoteEntity> {
    Seqs.SortBy(t, NewerQuote)
  }

  /** `getQuotesPaginated(limit, offset)`. */
  function QuotesPaginated(t: seq<QuoteEntity>, limit: nat, offset: nat): seq<QuoteEntity> {
    Seqs.Page(AllQuotes(t), limit, offset)
  }

  /** `WHERE category_id = :categoryId`. */
  function InCategory(t: seq<QuoteEntity>, c: string): seq<QuoteEntity> {
    Seqs.Filter(t, (e: QuoteEntity) => e.categoryId == Some(c))
  }

  /** `getQuotesByCategory(c)`. */
  function QuotesByCategory(t: seq<QuoteEntity>, c: string): seq<QuoteEntity> {
    Seqs.SortBy(InCategory(t, c), NewerQuote)
  }

  /** `getQuotesByCategoryPaginated(c, limit, offset)`. */
  function QuotesByCategoryPaginated(t: seq<QuoteEntity>, c: string, limit: nat, offset: nat): seq<QuoteEntity> {
    Seqs.Page(QuotesByCategory(t, c), limit, offset)
  }

  /** `getQuoteCountByCategory(c)`. */
  function QuoteCountByCategory(t: seq<QuoteEntity>, c: string): nat {
    |InCategory(t, c)|
  }

  /** `getQuoteCount()`. */
  function QuoteCount(t: seq<QuoteEntity>): nat { |t| }

  /** `column LIKE '%' || pattern || '%'`: an ASCII case-insensitive substring
      test, for a pattern without `%` or `_`. */
  predicate Like(column: string, pattern: string) {
    Contains(Lower(column), Lower(pattern))
  }

  predicate Matches(e: QuoteEntity, query: string) {
    Like(e.text, query) || Like(e.author, query)
  }

  /** `searchQuotes(query)`. */
  function SearchQuotes(t: seq<QuoteEntity>, query: string): seq<QuoteEntity> {
    Seqs.SortBy(Seqs.Filter(t, (e: QuoteEntity) => Matches(e, query)), NewerQuote)
  }

  /** `getQuotesByAuthor(author)`. */
  function QuotesByAuthor(t: seq<QuoteEntity>, author: string): seq<QuoteEntity> {
    Seqs.SortBy(Seqs.Filter(t, (e: QuoteEntity) => Like(e.author, author)), NewerQuote)
  }

  /** `getQuoteById(id)`. */
  function QuoteById(t: seq<QuoteEntity>, id: string): Option<QuoteEntity> {
    Seqs.First(t, (e: QuoteEntity) => e.id == id)
  }

  /** `getFeaturedQuote()`: `LIMIT 1` without an order, so the first in rowid order. */
  function FeaturedQuote(t: seq<QuoteEntity>): Option<QuoteEntity> {
    Seqs.First(t, (e: QuoteEntity) => e.isFeatured)
  }

  /** `getRandomQuote()`: `ORDER BY RANDOM() LIMIT 1`; which row is drawn is the
      parameter `pick`. */
  function RandomQuote(t: seq<QuoteEntity>, pick: nat): (r: Option<QuoteEntity>)
    ensures r.None? <==> t == []
    ensures r.Some? ==> r.value in t
  {
    if t == [] then None else Some(t[pick % |t|])
  }

  /** `insertQuote(e)`: an upsert by id. */
  function ReplaceQuote(t: seq<QuoteEntity>, e: QuoteEntity): seq<QuoteEntity> {
    Replace(t, e, QuoteConflict)
  }

  /** `insertQuotes(es)`. */
  function ReplaceQuotes(t: seq<QuoteEntity>, es: seq<QuoteEntity>): seq<QuoteEntity> {
    ReplaceAll(t, es, QuoteConflict)
  }

  /** `deleteQuote(id)`. */
  function DeleteQuote(t: seq<QuoteEntity>, id: string): (r: seq<QuoteEntity>)
    ensures forall i :: 0 <= i < |r| ==> r[i].id != id && r[i] in t
    ensures forall i :: 0 <= i < |t| && t[i].id != id ==> t[i] in r
  {
    Seqs.Filter(t, QuoteNotId(id))
  }

  function QuoteNotId(id: string): QuoteEntity -> bool { (e: QuoteEntity) => e.id != id }

  /** `SELECT q.* FROM quotes q INNER JOIN ... ON q.id = x.quote_id`, for the
      quote ids of the other table already in the query's order: each id
      contributes its cached quote, and an id without one contributes nothing. */
  function JoinQuotes(ids: seq<string>, t: seq<QuoteEntity>): (r: seq<QuoteEntity>)
    ensures |r| <= |ids|
    ensures forall i :: 0 <= i < |r| ==> r[i] in t && r[i].id in ids
  {
    if ids == [] then [] else Cached(t, ids[0]) + JoinQuotes(ids[1..], t)
  }

  /** Of two rows of `r`, the earlier one's id comes before the later one's among `ids`. */
  ghost predicate InIdOrder(r: seq<QuoteEntity>, ids: seq<string>) {
    forall i, j :: 0 <= i < j < |r| ==>
      exists a, b :: 0 <= a < b < |ids| && ids[a] == r[i].id && ids[b] == r[j].id
  }

  /** The join keeps the order of the ids it is given. */
  lemma {:induction false} JoinQuotesInOrder(ids: seq<string>, t: seq<QuoteEntity>)
    ensures InIdOrder(JoinQuotes(ids, t), ids)
  {
    if ids != [] {
      var r := JoinQuotes(ids, t);
      var head := Cached(t, ids[0]);
      var rest := JoinQuotes(ids[1..], t);
      var tail := ids[1..];
      assert InIdOrder(rest, tail) by {
        JoinQuotesInOrder(tail, t);
      }
      assert r == head + rest;
      forall i, j | 0 <= i < j < |r|
        ensures exists a, b :: 0 <= a < b < |ids| && ids[a] == r[i].id && ids[b] == r[j].id
      {
        var h := |head|;
        assert |r| == h + |rest|;
        assert r[j] == rest[j - h];
        if i < h {
          assert r[i] == head[i];
          assert rest[j - h].id in tail;
          var b :| 0 <= b < |tail| && tail[b] == rest[j - h].id;
          assert ids[0] == r[i].id && ids[b + 1] == r[j].id;
        } else {
          assert r[i] == rest[i - h];
          assert 0 <= i - h < j - h < |rest|;
          var a, b :| 0 <= a < b < |tail| && tail[a] == rest[i - h].id && tail[b] == rest[j - h].id;
          assert ids[a + 1] == r[i].id && ids[b + 1] == r[j].id;
        }
      }
    }
  }

  /** The cached quote with an id, as a list of zero or one rows. */
  function Cached(t: seq<QuoteEntity>, id: string): (r: seq<QuoteEntity>)
    ensures |r| <= 1
    ensures forall i :: 0 <= i < |r| ==> r[i] in t && r[i].id == id
  {
    match QuoteById(t, id)
    case Some(e) => [e]
    case None => []
  }

  // ---------------------------------------------------------------------
  // properties

  /** `getAllQuotes` lists every row once, newest first, rows without a timestamp last. */
  lemma AllQuotesOrdered(t: seq<QuoteEntity>)
    ensures multiset(AllQuotes(t)) == multiset(t)
    ensures Seqs.SortedBy(AllQuotes(t), NewerQuote)
  {
    NewerQuoteOrder();
    Seqs.SortBySorted(t, NewerQuote);
  }

  /** Pages `0..k-1` of size `n` are together the first `k * n` quotes, so
      consecutive pages neither overlap nor skip. */
  lemma QuotePagesContiguous(t: seq<QuoteEntity>, n: nat, k: nat)
    ensures Seqs.Pages(AllQuotes(t), n, k) == AllQuotes(t)[..Seqs.Min(k * n, |t|)]
  {
    Seqs.PagesArePrefix(AllQuotes(t), n, k);
  }

  /** With 45 quotes and pages of 20, pages 0, 1 and 2 are items 0-19, 20-39 and 40-44. */
  lemma FortyFiveQuotes(t: seq<QuoteEntity>)
    requires |t| == 45
    ensures QuotesPaginated(t, 20, 0 * 20) == AllQuotes(t)[0..20]
    ensures QuotesPaginated(t, 20, 1 * 20) == AllQuotes(t)[20..40]
    ensures QuotesPaginated(t, 20, 2 * 20) == AllQuotes(t)[40..45]
    ensures QuotesPaginated(t, 20, 3 * 20) == []
  {
  }

  /** `getQuotesByCategory(c)` holds exactly the quotes of category `c`, and
      `getQuoteCountByCategory(c)` is its length. */
  lemma QuotesByCategoryMeans(t: seq<QuoteEntity>, c: string)
    ensures forall e :: e in QuotesByCategory(t, c) <==> e in t && e.categoryId == Some(c)
    ensures |QuotesByCategory(t, c)| == QuoteCountByCategory(t, c)
  {
    var f := InCategory(t, c);
    Seqs.SortByMembers(f, NewerQuote);
    forall e ensures e in f <==> e in t && e.categoryId == Some(c) {
      if e in t && e.categoryId == Some(c) {
        var i :| 0 <= i < |t| && t[i] == e;
      }
    }
  }

  /** Any filtered ORDER BY created_at DESC is newest first. */
  lemma NewestFirst(s: seq<QuoteEntity>)
    ensures Seqs.SortedBy(Seqs.SortBy(s, NewerQuote), NewerQuote)
  {
    NewerQuoteOrder();
    Seqs.SortBySorted(s, NewerQuote);
  }

  /** `searchQuotes(q)` holds exactly the quotes whose text or author contains `q`, ignoring case. */
  lemma SearchQuotesMeans(t: seq<QuoteEntity>, query: string)
    ensures forall e :: e in SearchQuotes(t, query) <==> e in t && (Like(e.text, query) || Like(e.author, query))
  {
    Seqs.SortByMembers(Seqs.Filter(t, (e: QuoteEntity) => Matches(e, query)), NewerQuote);
  }

  /** `getQuotesByAuthor` finds a row iff its author matches the query under LIKE `%q%`. */
  lemma QuotesByAuthorMeans(t: seq<QuoteEntity>, author: string)
    ensures forall e :: e in QuotesByAuthor(t, author) <==> e in t && Like(e.author, author)
  {
    Seqs.SortByMembers(Seqs.Filter(t, (e: QuoteEntity) => Like(e.author, author)), NewerQuote);
  }

  /** `getQuoteById` is null exactly when no row has the id; otherwise it is that row. */
  lemma QuoteByIdMeans(t: seq<QuoteEntity>, id: string)
    requires QuotesValid(t)
    ensures QuoteById(t, id).None? <==> forall i :: 0 <= i < |t| ==> t[i].id != id
    ensures forall i :: 0 <= i < |t| && t[i].id == id ==> QuoteById(t, id) == Some(t[i])
  {
    forall i | 0 <= i < |t| && t[i].id == id ensures QuoteById(t, id) == Some(t[i]) {
      Seqs.FirstUnique(t, QuoteKey, (e: QuoteEntity) => e.id == id, i);
    }
  }

  /** An upsert keeps the table's ids unique. */
  lemma ReplaceQuoteValid(t: seq<QuoteEntity>, e: QuoteEntity)
    requires QuotesValid(t)
    ensures QuotesValid(ReplaceQuote(t, e))
  {
    ReplaceUnique(t, e, QuoteConflict, QuoteKey);
  }

  /** After `insertQuote(e)` the row with e's id is `e`, and every other row is kept. */
  lemma ReplaceQuoteUpserts(t: seq<QuoteEntity>, e: QuoteEntity)
    ensures QuoteById(ReplaceQuote(t, e), e.id) == Some(e)
    ensures forall r :: r in ReplaceQuote(t, e) <==> r == e || (r in t && r.id != e.id)
  {
    var r := ReplaceQuote(t, e);
    Seqs.FirstIsLast(r, (x: QuoteEntity) => x.id == e.id);
    forall x ensures x in r <==> x == e || (x in t && x.id != e.id) {
      ReplaceMembers(t, e, QuoteConflict, x);
    }
  }

  /** `insertQuotes(es)`: every fetched quote is present afterwards, and a
      local quote whose id was not fetched is never deleted. */
  lemma {:induction false} ReplaceQuotesAdditive(t: seq<QuoteEntity>, es: seq<QuoteEntity>)
    ensures forall i :: 0 <= i < |t| && (forall j :: 0 <= j < |es| ==> es[j].id != t[i].id) ==>
      t[i] in ReplaceQuotes(t, es)
    ensures forall j :: 0 <= j < |es| ==> exists r :: r in ReplaceQuotes(t, es) && r.id == es[j].id
  {
    if es != [] {
      var init := es[..|es| - 1];
      var last := es[|es| - 1];
      ReplaceQuotesAdditive(t, init);
      var mid := ReplaceQuotes(t, init);
      assert ReplaceQuotes(t, es) == ReplaceQuote(mid, last);
      forall x | x in mid && x.id != last.id ensures x in ReplaceQuote(mid, last) {
        ReplaceMembers(mid, last, QuoteConflict, x);
      }
      ReplaceMembers(mid, last, QuoteConflict, last);
      forall j | 0 <= j < |es| ensures exists r :: r in ReplaceQuotes(t, es) && r.id == es[j].id {
        if j < |es| - 1 && es[j].id != last.id {
          assert es[j] == init[j];
          var r :| r in mid && r.id == init[j].id;
          assert r in ReplaceQuote(mid, last);
        } else {
          assert es[j].id == last.id;
        }
      }
      forall i | 0 <= i < |t| && (forall j :: 0 <= j < |es| ==> es[j].id != t[i].id)
        ensures t[i] in ReplaceQuotes(t, es)
      {
        assert forall j :: 0 <= j < |init| ==> init[j] == es[j];
        assert t[i] in mid;
      }
    }
  }

  /** A list upsert keeps the table's ids unique. */
  lemma {:induction false} ReplaceQuotesValid(t: seq<QuoteEntity>, es: seq<QuoteEntity>)
    requires QuotesValid(t)
    ensures QuotesValid(ReplaceQuotes(t, es))
  {
    if es != [] {
      ReplaceQuotesValid(t, es[..|es| - 1]);
      ReplaceQuoteValid(ReplaceQuotes(t, es[..|es| - 1]), es[|es| - 1]);
    }
  }

  /** Every joined quote is the cached quote for its own id. */
  lemma {:induction false} JoinQuotesCached(ids: seq<string>, t: seq<QuoteEntity>)
    ensures forall i :: 0 <= i < |JoinQuotes(ids, t)| ==>
      QuoteById(t, JoinQuotes(ids, t)[i].id) == Some(JoinQuotes(ids, t)[i])
  {
    if ids != [] {
      JoinQuotesCached(ids[1..], t);
      var head := Cached(t, ids[0]);
      var tail := JoinQuotes(ids[1..], t);
      var r := head + tail;
      assert JoinQuotes(ids, t) == r;
      forall i | 0 <= i < |r| ensures QuoteById(t, r[i].id) == Some(r[i]) {
        if i >= |head| {
          assert r[i] == tail[i - |head|];
        } else {
          assert QuoteById(t, ids[0]) == Some(r[i]);
        }
      }
    }
  }

  /** Every id whose quote is cached contributes that quote to the join. */
  lemma {:induction false} JoinQuotesComplete(ids: seq<string>, t: seq<QuoteEntity>)
    ensures forall k :: 0 <= k < |ids| && QuoteById(t, ids[k]).Some? ==>
      QuoteById(t, ids[k]).value in JoinQuotes(ids, t)
  {
    if ids != [] {
      JoinQuotesComplete(ids[1..], t);
      var head := Cached(t, ids[0]);
      var tail := JoinQuotes(ids[1..], t);
      assert JoinQuotes(ids, t) == head + tail;
      forall k | 0 <= k < |ids| && QuoteById(t, ids[k]).Some?
        ensures QuoteById(t, ids[k]).value in head + tail
      {
        if k > 0 {
          assert ids[k] == ids[1..][k - 1];
          assert QuoteById(t, ids[k]).value in tail;
        } else {
          assert head == [QuoteById(t, ids[0]).value];
        }
      }
    }
  }

  /** `deleteQuote(id)` keeps the table keyed by id. */
  lemma DeleteQuoteValid(t: seq<QuoteEntity>, id: string)
    requires QuotesValid(t)
    ensures QuotesValid(DeleteQuote(t, id))
  {
    Seqs.FilterUnique(t, QuoteNotId(id), QuoteKey);
  }
}
