/** `BrowseViewModel`: the category list and one category's quotes. The
    category screen loads the whole category at once yet pages on from offset
    20, so its first `loadMore` repeats quotes already shown. */
module BrowseScreen {
  import opened Wrappers
  import opened Domain
  import opened QuoteLists
  import Seqs

  const PageSize := 20

  datatype BrowseUiState = BrowseUiState(isLoading: bool, categories: seq<Category>, error: Option<string>)

  const InitialBrowse := BrowseUiState(false, [], None)

  datatype CategoryQuotesUiState = CategoryQuotesUiState(
    isLoading: bool,
    isRefreshing: bool,
    category: Option<Category>,
    quotes: seq<Quote>,
    error: Option<string>,
    currentPage: int,
    hasMorePages: bool,
    isLoadingMore: bool)

  const InitialCategoryQuotes := CategoryQuotesUiState(false, false, None, [], None, 0, true, false)

  /** The state a successful `loadMoreCategoryQuotes` leaves. It repeats
      `HomeScreen.AfterLoadMore` over this screen's own state record, as the
      two view models repeat the same code. */
  function AfterLoadMore(s: CategoryQuotesUiState, page: seq<Quote>): (r: CategoryQuotesUiState)
    ensures r.quotes == s.quotes + page && r.currentPage == s.currentPage + 1
    ensures r.hasMorePages <==> |page| == PageSize
    ensures !r.isLoadingMore
    ensures r.(quotes := s.quotes, currentPage := s.currentPage, hasMorePages := s.hasMorePages, isLoadingMore := s.isLoadingMore) == s
  {
    s.(isLoadingMore := false, quotes := s.quotes + page, currentPage := s.currentPage + 1,
       hasMorePages := |page| == PageSize)
  }

  /** The state a successful `loadCategoryQuotes` leaves: the whole category,
      more pages expected from 20 quotes on, and the page counter untouched. */
  function AfterLoad(s: CategoryQuotesUiState, category: Option<Category>, quotes: seq<Quote>): (r: CategoryQuotesUiState)
    ensures r.quotes == quotes && r.category == category && !r.isLoading
    ensures r.hasMorePages <==> |quotes| >= PageSize
    ensures r.currentPage == s.currentPage
  {
    s.(isLoading := false, category := category, quotes := quotes, hasMorePages := |quotes| >= PageSize)
  }

  class BrowseViewModel {
    var uiState: BrowseUiState
    var categoryQuotesState: CategoryQuotesUiState

    constructor ()
      ensures uiState == InitialBrowse && categoryQuotesState == InitialCategoryQuotes
    {
      uiState := InitialBrowse;
      categoryQuotesState := InitialCategoryQuotes;
    }

    /** `loadCategories()`, for one emission of the categories stream. */
    method LoadCategories(categories: Result<seq<Category>>)
      modifies this
      ensures categoryQuotesState == old(categoryQuotesState)
      ensures categories.Success? ==> uiState == old(uiState).(isLoading := false, categories := categories.value)
      ensures categories.Failure? ==> uiState == old(uiState).(isLoading := false, error := categories.message)
    {
      uiState := uiState.(isLoading := true);
      match categories {
        case Success(cs) => uiState := uiState.(isLoading := false, categories := cs);
        case Failure(e) => uiState := uiState.(isLoading := false, error := e);
      }
    }

    /** `loadCategoryQuotes(id)`. `loaded` is the category and the first value
        of its quotes stream; the list is emptied first, so a failure leaves it empty. */
    method LoadCategoryQuotes(loaded: Result<(Option<Category>, seq<Quote>)>)
      modifies this
      ensures uiState == old(uiState)
      ensures loaded.Success? ==> categoryQuotesState == AfterLoad(old(categoryQuotesState), loaded.value.0, loaded.value.1)
      ensures loaded.Failure? ==>
        categoryQuotesState == old(categoryQuotesState).(isLoading := false, quotes := [], error := loaded.message)
    {
      categoryQuotesState := categoryQuotesState.(isLoading := true, quotes := []);
      match loaded {
        case Success((category, quotes)) =>
          categoryQuotesState := categoryQuotesState.(isLoading := false, category := category, quotes := quotes,
                                                      hasMorePages := |quotes| >= PageSize);
        case Failure(e) =>
          categoryQuotesState := categoryQuotesState.(isLoading := false, error := e);
      }
    }

    /** `refreshCategoryQuotes(id)`: the whole category again, and page 0. */
    method RefreshCategoryQuotes(quotes: Result<seq<Quote>>)
      modifies this
      ensures uiState == old(uiState)
      ensures !categoryQuotesState.isRefreshing
      ensures quotes.Success? ==>
        categoryQuotesState == old(categoryQuotesState).(isRefreshing := false, quotes := quotes.value, currentPage := 0,
                                                         hasMorePages := |quotes.value| >= PageSize)
      ensures quotes.Failure? ==> categoryQuotesState == old(categoryQuotesState).(isRefreshing := false, error := quotes.message)
    {
      categoryQuotesState := categoryQuotesState.(isRefreshing := true);
      match quotes {
        case Success(qs) =>
          categoryQuotesState := categoryQuotesState.(isRefreshing := false, quotes := qs, currentPage := 0,
                                                      hasMorePages := |qs| >= PageSize);
        case Failure(e) =>
          categoryQuotesState := categoryQuotesState.(isRefreshing := false, error := e);
      }
    }

    /** `loadMoreCategoryQuotes(id)`: `requested` is the page asked for, none
        when the guard returns early. */
    method LoadMoreCategoryQuotes(page: Result<seq<Quote>>) returns (requested: Option<int>)
      modifies this
      ensures uiState == old(uiState)
      ensures old(categoryQuotesState).isLoadingMore || !old(categoryQuotesState).hasMorePages ==>
        requested.None? && categoryQuotesState == old(categoryQuotesState)
      ensures !old(categoryQuotesState).isLoadingMore && old(categoryQuotesState).hasMorePages ==>
        requested == Some(old(categoryQuotesState).currentPage + 1)
      ensures !old(categoryQuotesState).isLoadingMore && old(categoryQuotesState).hasMorePages && page.Success? ==>
        categoryQuotesState == AfterLoadMore(old(categoryQuotesState), page.value)
      ensures page.Failure? ==> categoryQuotesState == old(categoryQuotesState)
    {
      if categoryQuotesState.isLoadingMore || !categoryQuotesState.hasMorePages {
        return None;
      }
      categoryQuotesState := categoryQuotesState.(isLoadingMore := true);
      var nextPage := categoryQuotesState.currentPage + 1;
      requested := Some(nextPage);
      match page {
        case Success(newQuotes) =>
          categoryQuotesState := categoryQuotesState.(isLoadingMore := false, quotes := categoryQuotesState.quotes + newQuotes,
                                                      currentPage := nextPage, hasMorePages := |newQuotes| == PageSize);
        case Failure(_) =>
          categoryQuotesState := categoryQuotesState.(isLoadingMore := false);
      }
    }

    /** `toggleFavorite(quoteId)`: patches the category list only. */
    method ToggleFavorite(quoteId: string, toggled: Result<bool>)
      modifies this
      ensures uiState == old(uiState)
      ensures toggled.Failure? ==> categoryQuotesState == old(categoryQuotesState)
      ensures toggled.Success? ==>
        categoryQuotesState == old(categoryQuotesState).(quotes := PatchFavorite(old(categoryQuotesState).quotes, quoteId, toggled.value))
    {
      match toggled {
        case Success(f) =>
          categoryQuotesState := categoryQuotesState.(quotes := PatchFavorite(categoryQuotesState.quotes, quoteId, f));
        case Failure(_) =>
      }
    }

    /** `clearError()`: clears the error of both states. */
    method ClearError()
      modifies this
      ensures uiState == old(uiState).(error := None)
      ensures categoryQuotesState == old(categoryQuotesState).(error := None)
    {
      uiState := uiState.(error := None);
      categoryQuotesState := categoryQuotesState.(error := None);
    }
  }

  // ---------------------------------------------------------------------
  // properties

  /** After the category's whole list `all` is loaded, with the page counter
      at `p`, the next `loadMore` asks for the page at offset `(p + 1) * 20`
      of that same list, and every quote it appends is already shown. */
  lemma LoadMoreRepeats(s: CategoryQuotesUiState, category: Option<Category>, all: seq<Quote>, p: nat)
    requires s.currentPage == p
    ensures var loaded := AfterLoad(s, category, all);
      var r := AfterLoadMore(loaded, Seqs.Page(all, PageSize, (loaded.currentPage + 1) * PageSize));
      forall i :: |all| <= i < |r.quotes| ==> r.quotes[i] in all
  {
  }

  /** In particular a fresh screen whose category has more than 20 quotes
      shows its 21st quote twice after the first `loadMore`. */
  lemma FirstLoadMoreDuplicates(category: Option<Category>, all: seq<Quote>)
    requires |all| > PageSize
    ensures var loaded := AfterLoad(InitialCategoryQuotes, category, all);
      loaded.hasMorePages && !loaded.isLoadingMore &&
      var r := AfterLoadMore(loaded, Seqs.Page(all, PageSize, (loaded.currentPage + 1) * PageSize));
      |r.quotes| > |all| && r.quotes[|all|] == r.quotes[PageSize] == all[PageSize]
  {
  }
}
