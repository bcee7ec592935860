/** The Room database as one object: five tables, each a sequence of rows in
    rowid order, changed in place by the DAOs' write methods. The SELECTs are
    the functions of QuoteDao, CategoryDao, FavoriteDao and CollectionDao
    applied to the current contents. */
module Store {
  import opened Wrappers
  import opened Entities
  import QuoteDao
  import CategoryDao
  import FavoriteDao
  import CollectionDao

  class Database {
    var quotes: seq<QuoteEntity>
    var categories: seq<CategoryEntity>
    var favorites: seq<FavoriteEntity>
    var collections: seq<CollectionEntity>
    var memberships: seq<CollectionQuoteEntity>

    /** Every table satisfies its primary key and unique indices. */
    ghost predicate Valid()
      reads this
    {
      QuoteDao.QuotesValid(quotes) && CategoryDao.CategoriesValid(categories) &&
      FavoriteDao.FavoritesValid(favorites) && CollectionDao.CollectionsValid(collections) &&
      CollectionDao.MembershipsValid(memberships)
    }

    constructor ()
      ensures Valid()
      ensures quotes == [] && categories == [] && favorites == [] && collections == [] && memberships == []
    {
      quotes, categories, favorites, collections, memberships := [], [], [], [], [];
    }

    // -------------------------------------------------------------------
    // QuoteDao

    /** `insertQuote(e)`. */
    method InsertQuote(e: QuoteEntity)
      requires Valid()
      modifies this
      ensures Valid()
      ensures quotes == QuoteDao.ReplaceQuote(old(quotes), e)
      ensures categories == old(categories) && favorites == old(favorites)
      ensures collections == old(collections) && memberships == old(memberships)
    {
      QuoteDao.ReplaceQuoteValid(quotes, e);
      quotes := QuoteDao.ReplaceQuote(quotes, e);
    }

    /** `insertQuotes(es)`: one REPLACE per element, in list order. */
    method InsertQuotes(es: seq<QuoteEntity>)
      requires Valid()
      modifies this
      ensures Valid()
      ensures quotes == QuoteDao.ReplaceQuotes(old(quotes), es)
      ensures categories == old(categories) && favorites == old(favorites)
      ensures collections == old(collections) && memberships == old(memberships)
    {
      var i := 0;
      while i < |es|
        invariant 0 <= i <= |es|
        invariant Valid()
        invariant quotes == QuoteDao.ReplaceQuotes(old(quotes), es[..i])
        invariant categories == old(categories) && favorites == old(favorites)
        invariant collections == old(collections) && memberships == old(memberships)
      {
        assert es[..i + 1][..i] == es[..i];
        InsertQuote(es[i]);
        i := i + 1;
      }
      assert es[..|es|] == es;
    }

    /** `deleteQuote(id)`. */
    method DeleteQuote(id: string)
      requires Valid()
      modifies this
      ensures Valid()
      ensures quotes == QuoteDao.DeleteQuote(old(quotes), id)
      ensures categories == old(categories) && favorites == old(favorites)
      ensures collections == old(collections) && memberships == old(memberships)
    {
      QuoteDao.DeleteQuoteValid(quotes, id);
      quotes := QuoteDao.DeleteQuote(quotes, id);
    }

    /** `deleteAllQuotes()`. */
    method DeleteAllQuotes()
      requires Valid()
      modifies this
      ensures Valid()
      ensures quotes == []
      ensures categories == old(categories) && favorites == old(favorites)
      ensures collections == old(collections) && memberships == old(memberships)
    {
      quotes := [];
    }

    // -------------------------------------------------------------------
    // CategoryDao

    /** `insertCategory(c)`. */
    method InsertCategory(c: CategoryEntity)
      requires Valid()
      modifies this
      ensures Valid()
      ensures categories == CategoryDao.ReplaceCategory(old(categories), c)
      ensures quotes == old(quotes) && favorites == old(favorites)
      ensures collections == old(collections) && memberships == old(memberships)
    {
      CategoryDao.ReplaceCategoryUpserts(categories, c, c.id);
      categories := CategoryDao.ReplaceCategory(categories, c);
    }

    /** `insertCategories(cs)`. */
    method InsertCategories(cs: seq<CategoryEntity>)
      requires Valid()
      modifies this
      ensures Valid()
      ensures categories == CategoryDao.ReplaceCategories(old(categories), cs)
      ensures quotes == old(quotes) && favorites == old(favorites)
      ensures collections == old(collections) && memberships == old(memberships)
    {
      var i := 0;
      while i < |cs|
        invariant 0 <= i <= |cs|
        invariant Valid()
        invariant categories == CategoryDao.ReplaceCategories(old(categories), cs[..i])
        invariant quotes == old(quotes) && favorites == old(favorites)
        invariant collections == old(collections) && memberships == old(memberships)
      {
        assert cs[..i + 1][..i] == cs[..i];
        InsertCategory(cs[i]);
        i := i + 1;
      }
      assert cs[..|cs|] == cs;
    }

    /** `deleteCategory(id)`. */
    method DeleteCategory(id: string)
      requires Valid()
      modifies this
      ensures Valid()
      ensures categories == CategoryDao.DeleteCategory(old(categories), id)
      ensures quotes == old(quotes) && favorites == old(favorites)
      ensures collections == old(collections) && memberships == old(memberships)
    {
      CategoryDao.DeleteCategoryValid(categories, id);
      categories := CategoryDao.DeleteCategory(categories, id);
    }

    /** `deleteAllCategories()`. */
    method DeleteAllCategories()
      requires Valid()
      modifies this
      ensures Valid()
      ensures categories == []
      ensures quotes == old(quotes) && favorites == old(favorites)
      ensures collections == old(collections) && memberships == old(memberships)
    {
      categories := [];
    }

    // -------------------------------------------------------------------
    // FavoriteDao

    /** `insertFavorite(f)`. */
    method InsertFavorite(f: FavoriteEntity)
      requires Valid()
      modifies this
      ensures Valid()
      ensures favorites == FavoriteDao.ReplaceFavorite(old(favorites), f)
      ensures quotes == old(quotes) && categories == old(categories)
      ensures collections == old(collections) && memberships == old(memberships)
    {
      FavoriteDao.ReplaceFavoriteValid(favorites, f);
      favorites := FavoriteDao.ReplaceFavorite(favorites, f);
    }

    /** `insertFavorites(fs)`. */
    method InsertFavorites(fs: seq<FavoriteEntity>)
      requires Valid()
      modifies this
      ensures Valid()
      ensures favorites == FavoriteDao.ReplaceFavorites(old(favorites), fs)
      ensures quotes == old(quotes) && categories == old(categories)
      ensures collections == old(collections) && memberships == old(memberships)
    {
      var i := 0;
      while i < |fs|
        invariant 0 <= i <= |fs|
        invariant Valid()
        invariant favorites == FavoriteDao.ReplaceFavorites(old(favorites), fs[..i])
        invariant quotes == old(quotes) && categories == old(categories)
        invariant collections == old(collections) && memberships == old(memberships)
      {
        assert fs[..i + 1][..i] == fs[..i];
        InsertFavorite(fs[i]);
        i := i + 1;
      }
      assert fs[..|fs|] == fs;
    }

    /** `deleteFavorite(u, q)`. */
    method DeleteFavorite(u: string, q: string)
      requires Valid()
      modifies this
      ensures Valid()
      ensures favorites == FavoriteDao.DeleteFavorite(old(favorites), u, q)
      ensures quotes == old(quotes) && categories == old(categories)
      ensures collections == old(collections) && memberships == old(memberships)
    {
      FavoriteDao.DeleteFavoriteEffect(favorites, u, q, u, q);
      favorites := FavoriteDao.DeleteFavorite(favorites, u, q);
    }

    /** `deleteAllFavorites(u)`. */
    method DeleteAllFavorites(u: string)
      requires Valid()
      modifies this
      ensures Valid()
      ensures favorites == FavoriteDao.DeleteAllFavorites(old(favorites), u)
      ensures quotes == old(quotes) && categories == old(categories)
      ensures collections == old(collections) && memberships == old(memberships)
    {
      FavoriteDao.DeleteAllFavoritesEffect(favorites, u, u);
      favorites := FavoriteDao.DeleteAllFavorites(favorites, u);
    }

    // -------------------------------------------------------------------
    // CollectionDao

    /** `insertCollection(c)`. */
    method InsertCollection(c: CollectionEntity)
      requires Valid()
      modifies this
      ensures Valid()
      ensures collections == CollectionDao.ReplaceCollection(old(collections), c)
      ensures quotes == old(quotes) && categories == old(categories)
      ensures favorites == old(favorites) && memberships == old(memberships)
    {
      CollectionDao.ReplaceCollectionValid(collections, c);
      collections := CollectionDao.ReplaceCollection(collections, c);
    }

    /** `insertCollections(cs)`. */
    method InsertCollections(cs: seq<CollectionEntity>)
      requires Valid()
      modifies this
      ensures Valid()
      ensures collections == CollectionDao.ReplaceCollections(old(collections), cs)
      ensures quotes == old(quotes) && categories == old(categories)
      ensures favorites == old(favorites) && memberships == old(memberships)
    {
      var i := 0;
      while i < |cs|
        invariant 0 <= i <= |cs|
        invariant Valid()
        invariant collections == CollectionDao.ReplaceCollections(old(collections), cs[..i])
        invariant quotes == old(quotes) && categories == old(categories)
        invariant favorites == old(favorites) && memberships == old(memberships)
      {
        assert cs[..i + 1][..i] == cs[..i];
        InsertCollection(cs[i]);
        i := i + 1;
      }
      assert cs[..|cs|] == cs;
    }

    /** `updateCollection(id, name, description, coverColor)`. */
    method UpdateCollection(id: string, name: string, description: Option<string>, coverColor: string)
      requires Valid()
      modifies this
      ensures Valid()
      ensures collections == CollectionDao.UpdateCollection(old(collections), id, name, description, coverColor)
      ensures quotes == old(quotes) && categories == old(categories)
      ensures favorites == old(favorites) && memberships == old(memberships)
    {
      CollectionDao.UpdateCollectionEffect(collections, id, name, description, coverColor);
      collections := CollectionDao.UpdateCollection(collections, id, name, description, coverColor);
    }

    /** `deleteCollection(id)`. */
    method DeleteCollection(id: string)
      requires Valid()
      modifies this
      ensures Valid()
      ensures collections == CollectionDao.DeleteCollection(old(collections), id)
      ensures quotes == old(quotes) && categories == old(categories)
      ensures favorites == old(favorites) && memberships == old(memberships)
    {
      CollectionDao.DeleteCollectionValid(collections, id);
      collections := CollectionDao.DeleteCollection(collections, id);
    }

    /** `deleteAllCollections(u)`: membership rows are not touched. */
    method DeleteAllCollections(u: string)
      requires Valid()
      modifies this
      ensures Valid()
      ensures collections == CollectionDao.DeleteAllCollections(old(collections), u)
      ensures quotes == old(quotes) && categories == old(categories)
      ensures favorites == old(favorites) && memberships == old(memberships)
    {
      CollectionDao.DeleteAllCollectionsValid(collections, u);
      collections := CollectionDao.DeleteAllCollections(collections, u);
    }

    /** `insertCollectionQuote(m)`. */
    method InsertCollectionQuote(m: CollectionQuoteEntity)
      requires Valid()
      modifies this
      ensures Valid()
      ensures memberships == CollectionDao.ReplaceMembership(old(memberships), m)
      ensures quotes == old(quotes) && categories == old(categories)
      ensures favorites == old(favorites) && collections == old(collections)
    {
      CollectionDao.ReplaceMembershipValid(memberships, m);
      memberships := CollectionDao.ReplaceMembership(memberships, m);
    }

    /** `insertCollectionQuotes(ms)`. */
    method InsertCollectionQuotes(ms: seq<CollectionQuoteEntity>)
      requires Valid()
      modifies this
      ensures Valid()
      ensures memberships == CollectionDao.ReplaceMemberships(old(memberships), ms)
      ensures quotes == old(quotes) && categories == old(categories)
      ensures favorites == old(favorites) && collections == old(collections)
    {
      var i := 0;
      while i < |ms|
        invariant 0 <= i <= |ms|
        invariant Valid()
        invariant memberships == CollectionDao.ReplaceMemberships(old(memberships), ms[..i])
        invariant quotes == old(quotes) && categories == old(categories)
        invariant favorites == old(favorites) && collections == old(collections)
      {
        assert ms[..i + 1][..i] == ms[..i];
        InsertCollectionQuote(ms[i]);
        i := i + 1;
      }
      assert ms[..|ms|] == ms;
    }

    /** `removeQuoteFromCollection(c, q)`. */
    method RemoveQuoteFromCollection(c: string, q: string)
      requires Valid()
      modifies this
      ensures Valid()
      ensures memberships == CollectionDao.RemoveMembership(old(memberships), c, q)
      ensures quotes == old(quotes) && categories == old(categories)
      ensures favorites == old(favorites) && collections == old(collections)
    {
      CollectionDao.RemoveMembershipValid(memberships, c, q);
      memberships := CollectionDao.RemoveMembership(memberships, c, q);
    }

    /** `removeAllQuotesFromCollection(c)`. */
    method RemoveAllQuotesFromCollection(c: string)
      requires Valid()
      modifies this
      ensures Valid()
      ensures memberships == CollectionDao.RemoveAllMemberships(old(memberships), c)
      ensures quotes == old(quotes) && categories == old(categories)
      ensures favorites == old(favorites) && collections == old(collections)
    {
      CollectionDao.RemoveAllMembershipsEffect(memberships, c, c);
      memberships := CollectionDao.RemoveAllMemberships(memberships, c);
    }
  }
}
