/** `QuoteRepositoryImpl`: quote and category reads from the local tables, each
    quote flagged against the current user's favourites, and the refreshes
    that copy the remote tables into the local ones. */
module QuoteRepo {
  import opened Wrappers
  import opened Domain
  import opened Entities
  import opened Dtos
  import opened Mappers
  import opened Store
  import QuoteDao
  import CategoryDao
  import FavoriteDao
  import Flags
  import Seqs

  /** `r` is `es` mapped to domain quotes, each flagged exactly when the user
      has a favourite row for it; without a user no quote is flagged. */
  ghost predicate FlaggedFrom(r: seq<Quote>, es: seq<QuoteEntity>, favorites: seq<FavoriteEntity>, uid: Option<string>) {
    |r| == |es| &&
    forall i :: 0 <= i < |r| ==>
      QuoteToEntity(r[i]) == es[i].(updatedAt := None) &&
      (r[i].isFavorite <==> uid.Some? && FavoriteDao.IsFavorite(favorites, uid.value, es[i].id))
  }

  /** Flagging keeps every quote's category. */
  lemma FlaggedInCategory(es: seq<QuoteEntity>, ids: set<string>, c: string)
    requires forall e :: e in es ==> e.categoryId == Some(c)
    ensures forall i :: 0 <= i < |Flags.WithFlags(es, ids)| ==> Flags.WithFlags(es, ids)[i].categoryId == Some(c)
  {
    var r := Flags.WithFlags(es, ids);
    forall i | 0 <= i < |r| ensures r[i].categoryId == Some(c) {
      assert es[i] in es && QuoteToEntity(r[i]).categoryId == r[i].categoryId;
    }
  }

  /** Flagging keeps every quote's text and author. */
  lemma FlaggedMatching(es: seq<QuoteEntity>, ids: set<string>, query: string)
    requires forall e :: e in es ==> QuoteDao.Like(e.text, query) || QuoteDao.Like(e.author, query)
    ensures forall i :: 0 <= i < |Flags.WithFlags(es, ids)| ==>
      QuoteDao.Like(Flags.WithFlags(es, ids)[i].text, query) || QuoteDao.Like(Flags.WithFlags(es, ids)[i].author, query)
  {
    var r := Flags.WithFlags(es, ids);
    forall i | 0 <= i < |r| ensures QuoteDao.Like(r[i].text, query) || QuoteDao.Like(r[i].author, query) {
      assert es[i] in es;
      assert QuoteToEntity(r[i]).text == r[i].text && QuoteToEntity(r[i]).author == r[i].author;
    }
  }

  /** The flag join meets `FlaggedFrom`. */
  lemma WithFlagsFlagged(es: seq<QuoteEntity>, favorites: seq<FavoriteEntity>, uid: Option<string>)
    ensures FlaggedFrom(Flags.WithFlags(es, Flags.FavoriteIds(favorites, uid)), es, favorites, uid)
  {
    forall i | 0 <= i < |es| {
      Flags.FavoriteIdsMean(favorites, uid, es[i].id);
    }
  }

  function CountedWith(quotes: seq<QuoteEntity>): CategoryEntity -> Category {
    (e: CategoryEntity) => CategoryEntityToDomain(e, QuoteDao.QuoteCountByCategory(quotes, e.id))
  }

  /** `entity.toDomain(quoteDao.getQuoteCountByCategory(entity.id))` for each
      category: every field is copied and the count is the number of local
      quotes in that category. */
  function WithQuoteCounts(cs: seq<CategoryEntity>, quotes: seq<QuoteEntity>): (r: seq<Category>)
    ensures |r| == |cs|
    ensures forall i :: 0 <= i < |r| ==>
      r[i] == CategoryEntityToDomain(cs[i], r[i].quoteCount) &&
      r[i].quoteCount == |QuoteDao.QuotesByCategory(quotes, cs[i].id)|
  {
    assert forall i :: 0 <= i < |cs| ==> QuoteDao.QuoteCountByCategory(quotes, cs[i].id) == |QuoteDao.QuotesByCategory(quotes, cs[i].id)| by {
      forall i | 0 <= i < |cs| {
        QuoteDao.QuotesByCategoryMeans(quotes, cs[i].id);
      }
    }
    Seqs.Map(cs, CountedWith(quotes))
  }

  /** The answer of the remote `quote_of_day` select: a failure, no row, or a
      row that may carry its joined quote. `getQuoteOfDay` takes the joined
      quote when there is one and otherwise falls back on `local`, the random
      local pick, whether the select failed or found nothing. */
  function QuoteOfDayChoice(remote: Result<Option<QuoteOfDayDto>>, ids: set<string>, local: Option<QuoteEntity>): (r: Option<Quote>)
    ensures remote.Success? && remote.value.Some? && remote.value.value.quote.Some? ==>
      var d := remote.value.value.quote.value;
      r == Some(QuoteDtoToDomain(d, d.id in ids))
    ensures !(remote.Success? && remote.value.Some? && remote.value.value.quote.Some?) ==>
      r == Flags.FlagOne(local, ids)
    ensures r.None? <==> !(remote.Success? && remote.value.Some? && remote.value.value.quote.Some?) && local.None?
  {
    match remote
    case Success(Some(QuoteOfDayDto(_, _, _, _, Some(d)))) => Some(QuoteDtoToDomain(d, d.id in ids))
    case _ => Flags.FlagOne(local, ids)
  }

  class QuoteRepository {
    const db: Database

    constructor (db: Database)
      ensures this.db == db
    {
      this.db := db;
    }

    /** `getFavoriteIds()`. */
    function FavoriteIds(uid: Option<string>): (r: set<string>)
      reads db
      ensures forall q :: q in r <==> uid.Some? && FavoriteDao.IsFavorite(db.favorites, uid.value, q)
    {
      assert forall q :: q in Flags.FavoriteIds(db.favorites, uid) <==> uid.Some? && FavoriteDao.IsFavorite(db.favorites, uid.value, q) by {
        forall q ensures q in Flags.FavoriteIds(db.favorites, uid) <==> uid.Some? && FavoriteDao.IsFavorite(db.favorites, uid.value, q) {
          Flags.FavoriteIdsMean(db.favorites, uid, q);
        }
      }
      Flags.FavoriteIds(db.favorites, uid)
    }

    /** `getQuotes()`: every local quote, newest first, flagged. */
    function Quotes(uid: Option<string>): (r: seq<Quote>)
      reads db
      ensures FlaggedFrom(r, QuoteDao.AllQuotes(db.quotes), db.favorites, uid)
    {
      WithFlagsFlagged(QuoteDao.AllQuotes(db.quotes), db.favorites, uid);
      Flags.WithFlags(QuoteDao.AllQuotes(db.quotes), FavoriteIds(uid))
    }

    /** `getQuotesPaginated(page, pageSize)`: the slice at offset `page * pageSize` of `getQuotes()`. */
    function QuotesPaginated(uid: Option<string>, page: nat, pageSize: nat): (r: seq<Quote>)
      reads db
      ensures r == Seqs.Page(Quotes(uid), pageSize, page * pageSize)
    {
      Flags.WithFlagsPage(QuoteDao.AllQuotes(db.quotes), FavoriteIds(uid), pageSize, page * pageSize);
      Flags.WithFlags(QuoteDao.QuotesPaginated(db.quotes, pageSize, page * pageSize), FavoriteIds(uid))
    }

    /** `getQuotesByCategory(c)`: the quotes of category c, newest first, flagged. */
    function QuotesByCategory(uid: Option<string>, c: string): (r: seq<Quote>)
      reads db
      ensures FlaggedFrom(r, QuoteDao.QuotesByCategory(db.quotes, c), db.favorites, uid)
      ensures forall i :: 0 <= i < |r| ==> r[i].categoryId == Some(c)
    {
      QuoteDao.QuotesByCategoryMeans(db.quotes, c);
      var es := QuoteDao.QuotesByCategory(db.quotes, c);
      FlaggedInCategory(es, FavoriteIds(uid), c);
      WithFlagsFlagged(es, db.favorites, uid);
      Flags.WithFlags(es, FavoriteIds(uid))
    }

    /** `getQuotesByCategoryPaginated(c, page, pageSize)`. */
    function QuotesByCategoryPaginated(uid: Option<string>, c: string, page: nat, pageSize: nat): (r: seq<Quote>)
      reads db
      ensures r == Seqs.Page(QuotesByCategory(uid, c), pageSize, page * pageSize)
    {
      Flags.WithFlagsPage(QuoteDao.QuotesByCategory(db.quotes, c), FavoriteIds(uid), pageSize, page * pageSize);
      Flags.WithFlags(QuoteDao.QuotesByCategoryPaginated(db.quotes, c, pageSize, page * pageSize), FavoriteIds(uid))
    }

    /** `searchQuotes(query)`: the quotes whose text or author contains the query, ignoring case. */
    function SearchQuotes(uid: Option<string>, query: string): (r: seq<Quote>)
      reads db
      ensures FlaggedFrom(r, QuoteDao.SearchQuotes(db.quotes, query), db.favorites, uid)
      ensures forall i :: 0 <= i < |r| ==> QuoteDao.Like(r[i].text, query) || QuoteDao.Like(r[i].author, query)
    {
      QuoteDao.SearchQuotesMeans(db.quotes, query);
      var es := QuoteDao.SearchQuotes(db.quotes, query);
      FlaggedMatching(es, FavoriteIds(uid), query);
      WithFlagsFlagged(es, db.favorites, uid);
      Flags.WithFlags(es, FavoriteIds(uid))
    }

    /** `getQuotesByAuthor(author)`. */
    function QuotesByAuthor(uid: Option<string>, author: string): (r: seq<Quote>)
      reads db
      ensures FlaggedFrom(r, QuoteDao.QuotesByAuthor(db.quotes, author), db.favorites, uid)
    {
      WithFlagsFlagged(QuoteDao.QuotesByAuthor(db.quotes, author), db.favorites, uid);
      Flags.WithFlags(QuoteDao.QuotesByAuthor(db.quotes, author), FavoriteIds(uid))
    }

    /** `getQuoteById(id)` and `observeQuoteById(id)`: null for an absent id,
        otherwise that row with its favourite flag. */
    function QuoteById(uid: Option<string>, id: string): (r: Option<Quote>)
      reads db
      ensures r.None? <==> forall i :: 0 <= i < |db.quotes| ==> db.quotes[i].id != id
      ensures r.Some? ==> r.value.id == id && QuoteToEntity(r.value) == QuoteDao.QuoteById(db.quotes, id).value.(updatedAt := None) &&
                          (r.value.isFavorite <==> uid.Some? && FavoriteDao.IsFavorite(db.favorites, uid.value, id))
    {
      Flags.FlagOne(QuoteDao.QuoteById(db.quotes, id), FavoriteIds(uid))
    }

    /** `getRandomQuote()`: null exactly when the table is empty, otherwise
        some row of it, flagged; `pick` stands for the random draw. */
    function RandomQuote(uid: Option<string>, pick: nat): (r: Option<Quote>)
      reads db
      ensures r.None? <==> db.quotes == []
      ensures r.Some? ==> exists e :: e in db.quotes && QuoteToEntity(r.value) == e.(updatedAt := None)
      ensures r.Some? ==> (r.value.isFavorite <==> uid.Some? && FavoriteDao.IsFavorite(db.favorites, uid.value, r.value.id))
    {
      var e := QuoteDao.RandomQuote(db.quotes, pick);
      assert e.Some? ==> e.value in db.quotes;
      Flags.FlagOne(e, FavoriteIds(uid))
    }

    /** `getQuoteOfDay()`: today's remote quote, flagged, when the select
        returns a row with a quote; otherwise, and on any exception, a random
        local quote; null when there is neither. */
    function QuoteOfDay(uid: Option<string>, remote: Result<Option<QuoteOfDayDto>>, pick: nat): (r: Option<Quote>)
      reads db
      ensures remote.Success? && remote.value.Some? && remote.value.value.quote.Some? ==>
        var d := remote.value.value.quote.value;
        r == Some(QuoteDtoToDomain(d, uid.Some? && FavoriteDao.IsFavorite(db.favorites, uid.value, d.id)))
      ensures !(remote.Success? && remote.value.Some? && remote.value.value.quote.Some?) ==> r == RandomQuote(uid, pick)
      ensures r.None? <==> !(remote.Success? && remote.value.Some? && remote.value.value.quote.Some?) && db.quotes == []
    {
      QuoteOfDayChoice(remote, FavoriteIds(uid), QuoteDao.RandomQuote(db.quotes, pick))
    }

    /** `getCategories()`: every category in ascending sort order, each with
        the number of local quotes in it. */
    function Categories(): (r: seq<Category>)
      reads db
      ensures |r| == |db.categories|
      ensures forall i :: 0 <= i < |r| ==>
        r[i] == CategoryEntityToDomain(CategoryDao.AllCategories(db.categories)[i], r[i].quoteCount) &&
        r[i].quoteCount == |QuoteDao.QuotesByCategory(db.quotes, r[i].id)|
      ensures forall i, j :: 0 <= i < j < |r| ==> r[i].sortOrder <= r[j].sortOrder
    {
      CategoryDao.AllCategoriesOrdered(db.categories);
      assert |CategoryDao.AllCategories(db.categories)| == |db.categories| by {
        assert |multiset(CategoryDao.AllCategories(db.categories))| == |multiset(db.categories)|;
      }
      WithQuoteCounts(CategoryDao.AllCategories(db.categories), db.quotes)
    }

    /** `getCategoryById(id)`: null for an absent id, otherwise that category with its quote count. */
    function CategoryById(id: string): (r: Option<Category>)
      reads db
      ensures r.None? <==> forall i :: 0 <= i < |db.categories| ==> db.categories[i].id != id
      ensures r.Some? ==> r.value == CategoryEntityToDomain(CategoryDao.CategoryById(db.categories, id).value, r.value.quoteCount) &&
                          r.value.id == id && r.value.quoteCount == |QuoteDao.QuotesByCategory(db.quotes, id)|
    {
      CategoryDao.CategoryLookupsMean(db.categories, id, "");
      match CategoryDao.CategoryById(db.categories, id)
      case None => None
      case Some(e) =>
        QuoteDao.QuotesByCategoryMeans(db.quotes, e.id);
        Some(CategoryEntityToDomain(e, QuoteDao.QuoteCountByCategory(db.quotes, e.id)))
    }

    /** `refreshQuotes()`: a failed fetch changes nothing; a successful one
        upserts every fetched quote, keeping the local quotes it did not fetch. */
    method RefreshQuotes(fetched: Result<seq<QuoteDto>>) returns (r: Result<()>)
      requires db.Valid()
      modifies db
      ensures db.Valid()
      ensures fetched.Failure? ==> r == Failure(fetched.message) && db.quotes == old(db.quotes)
      ensures fetched.Success? ==>
        r == Success(()) && db.quotes == QuoteDao.ReplaceQuotes(old(db.quotes), Seqs.Map(fetched.value, QuoteDtoToEntity))
      ensures fetched.Success? ==> forall j :: 0 <= j < |fetched.value| ==>
        exists e :: e in db.quotes && e.id == fetched.value[j].id
      ensures fetched.Success? ==>
        forall i :: 0 <= i < |old(db.quotes)| && (forall j :: 0 <= j < |fetched.value| ==> fetched.value[j].id != old(db.quotes)[i].id) ==>
          old(db.quotes)[i] in db.quotes
      ensures db.categories == old(db.categories) && db.favorites == old(db.favorites)
      ensures db.collections == old(db.collections) && db.memberships == old(db.memberships)
    {
      match fetched {
        case Failure(m) =>
          r := Failure(m);
        case Success(rows) =>
          var es := Seqs.Map(rows, QuoteDtoToEntity);
          QuoteDao.ReplaceQuotesAdditive(db.quotes, es);
          db.InsertQuotes(es);
          r := Success(());
      }
    }

    /** `refreshCategories()`: like `refreshQuotes`, on the categories table. */
    method RefreshCategories(fetched: Result<seq<CategoryDto>>) returns (r: Result<()>)
      requires db.Valid()
      modifies db
      ensures db.Valid()
      ensures fetched.Failure? ==> r == Failure(fetched.message) && db.categories == old(db.categories)
      ensures fetched.Success? ==>
        r == Success(()) && db.categories == CategoryDao.ReplaceCategories(old(db.categories), Seqs.Map(fetched.value, CategoryDtoToEntity))
      ensures fetched.Success? ==> forall j :: 0 <= j < |fetched.value| ==>
        exists c :: c in db.categories && c.id == fetched.value[j].id
      ensures fetched.Success? ==>
        forall i :: 0 <= i < |old(db.categories)| && (forall j :: 0 <= j < |fetched.value| ==> fetched.value[j].id != old(db.categories)[i].id) ==>
          old(db.categories)[i] in db.categories
      ensures db.quotes == old(db.quotes) && db.favorites == old(db.favorites)
      ensures db.collections == old(db.collections) && db.memberships == old(db.memberships)
    {
      match fetched {
        case Failure(m) =>
          r := Failure(m);
        case Success(rows) =>
          var cs := Seqs.Map(rows, CategoryDtoToEntity);
          CategoryDao.ReplaceCategoriesAdditive(db.categories, cs);
          db.InsertCategories(cs);
          r := Success(());
      }
    }
  }

  // ---------------------------------------------------------------------
  // properties

  /** For 45 local quotes at page size 20, pages 0, 1 and 2 hold items 0-19,
      20-39 and 40-44 of `getQuotes()`, and page 3 is empty. */
  lemma FortyFiveQuotePages(repo: QuoteRepository, uid: Option<string>)
    requires |repo.db.quotes| == 45
    ensures repo.QuotesPaginated(uid, 0, 20) == repo.Quotes(uid)[0..20]
    ensures repo.QuotesPaginated(uid, 1, 20) == repo.Quotes(uid)[20..40]
    ensures repo.QuotesPaginated(uid, 2, 20) == repo.Quotes(uid)[40..45]
    ensures repo.QuotesPaginated(uid, 3, 20) == []
  {
    assert |repo.Quotes(uid)| == 45;
  }

  /** With no user no quote read carries a favourite flag. */
  lemma NoUserNoFavorites(repo: QuoteRepository, c: string, query: string, id: string, pick: nat)
    ensures forall i :: 0 <= i < |repo.Quotes(None)| ==> !repo.Quotes(None)[i].isFavorite
    ensures forall i :: 0 <= i < |repo.QuotesByCategory(None, c)| ==> !repo.QuotesByCategory(None, c)[i].isFavorite
    ensures forall i :: 0 <= i < |repo.SearchQuotes(None, query)| ==> !repo.SearchQuotes(None, query)[i].isFavorite
    ensures repo.QuoteById(None, id).Some? ==> !repo.QuoteById(None, id).value.isFavorite
    ensures repo.RandomQuote(None, pick).Some? ==> !repo.RandomQuote(None, pick).value.isFavorite
  {
  }
}
