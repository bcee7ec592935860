/** `HomeViewModel`: the home feed, its first page, the pages appended by
    scrolling, and the favourite toggle. Each launched block is one step; the
    repository answers are parameters, a `Failure` standing for an exception. */
module HomeScreen {
  import opened Wrappers
  import opened Domain
  import opened QuoteLists
  import Seqs

  const PageSize := 20
  const NoQuotesAvailable := "No quotes available"
  const FailedToLoad := "Failed to load quotes"

  datatype HomeUiState = HomeUiState(
    isLoading: bool,
    isRefreshing: bool,
    quoteOfDay: Option<Quote>,
    quotes: seq<Quote>,
    error: Option<string>,
    isLoggedIn: bool,
    currentPage: int,
    hasMorePages: bool,
    isLoadingMore: bool)

  /** `HomeUiState()`. */
  const InitialHome := HomeUiState(false, false, None, [], None, false, 0, true, false)

  /** What the `try` block of `loadData` and `refresh` reads: the quote of the
      day and the first value of `getQuotes()`. */
  datatype Feed = Feed(quoteOfDay: Option<Quote>, quotes: seq<Quote>)

  /** The state a successful `loadMore` leaves: the page appended, the page
      number advanced, and more pages expected only after a full page. */
  function AfterLoadMore(s: HomeUiState, page: seq<Quote>): (r: HomeUiState)
    ensures r.quotes == s.quotes + page && r.currentPage == s.currentPage + 1
    ensures r.hasMorePages <==> |page| == PageSize
    ensures !r.isLoadingMore
    ensures r.(quotes := s.quotes, currentPage := s.currentPage, hasMorePages := s.hasMorePages, isLoadingMore := s.isLoadingMore) == s
  {
    s.(isLoadingMore := false, quotes := s.quotes + page, currentPage := s.currentPage + 1,
       hasMorePages := |page| == PageSize)
  }

  /** The state a successful `loadData` or `refresh` leaves, before the flag
      of the one that ran is cleared: the first page of the feed, whether more
      exists, and page 0. */
  function FirstPage(s: HomeUiState, feed: Feed): (r: HomeUiState)
    ensures r.quotes == Seqs.Take(feed.quotes, PageSize) && |r.quotes| <= PageSize
    ensures r.hasMorePages <==> |r.quotes| < |feed.quotes|
    ensures r.currentPage == 0 && r.quoteOfDay == feed.quoteOfDay && r.error.None?
  {
    s.(quoteOfDay := feed.quoteOfDay, quotes := Seqs.Take(feed.quotes, PageSize), currentPage := 0,
       hasMorePages := |feed.quotes| > PageSize, error := None)
  }

  class HomeViewModel {
    var state: HomeUiState

    constructor ()
      ensures state == InitialHome
    {
      state := InitialHome;
    }

    /** `observeAuthState`: one emission of the login stream. */
    method ObserveAuth(isLoggedIn: bool)
      modifies this
      ensures state == old(state).(isLoggedIn := isLoggedIn)
    {
      state := state.(isLoggedIn := isLoggedIn);
    }

    /** `loadData()`. `feed` is the outcome of the refreshes and reads of the
        `try` block, `cached` that of the fallback read of `getQuotes()`. */
    method LoadData(feed: Result<Feed>, cached: Result<seq<Quote>>)
      modifies this
      ensures !state.isLoading
      ensures feed.Success? ==> state == FirstPage(old(state), feed.value).(isLoading := false)
      ensures feed.Failure? && cached.Success? ==>
        state == old(state).(isLoading := false, quoteOfDay := if cached.value == [] then None else Some(cached.value[0]),
                             quotes := cached.value,
                             error := if cached.value == [] then Some(NoQuotesAvailable) else None)
      ensures feed.Failure? && cached.Failure? ==>
        state == old(state).(isLoading := false, error := Some(feed.message.GetOr(FailedToLoad)))
    {
      state := state.(isLoading := true, error := None);
      match feed {
        case Success(f) =>
          state := state.(isLoading := false, quoteOfDay := f.quoteOfDay, quotes := Seqs.Take(f.quotes, PageSize),
                          currentPage := 0, hasMorePages := |f.quotes| > PageSize);
        case Failure(e) =>
          match cached {
            case Success(quotes) =>
              var qod := if quotes == [] then None else Some(quotes[0]);
              state := state.(isLoading := false, quoteOfDay := qod, quotes := quotes,
                              error := if quotes == [] then Some(NoQuotesAvailable) else None);
            case Failure(_) =>
              state := state.(isLoading := false, error := Some(e.GetOr(FailedToLoad)));
          }
      }
    }

    /** `refresh()`: like the `try` block of `loadData`; an exception only
        stores its (possibly null) message. */
    method Refresh(feed: Result<Feed>)
      modifies this
      ensures !state.isRefreshing
      ensures feed.Success? ==> state == FirstPage(old(state), feed.value).(isRefreshing := false)
      ensures feed.Failure? ==> state == old(state).(isRefreshing := false, error := feed.message)
    {
      state := state.(isRefreshing := true, error := None);
      match feed {
        case Success(f) =>
          state := state.(isRefreshing := false, quoteOfDay := f.quoteOfDay, quotes := Seqs.Take(f.quotes, PageSize),
                          currentPage := 0, hasMorePages := |f.quotes| > PageSize);
        case Failure(e) =>
          state := state.(isRefreshing := false, error := e);
      }
    }

    /** `loadMore()`. `requested` is the page asked of the repository, none
        when the guard returns early; `page` is the repository's answer. */
    method LoadMore(page: Result<seq<Quote>>) returns (requested: Option<int>)
      modifies this
      ensures old(state).isLoadingMore || !old(state).hasMorePages ==> requested.None? && state == old(state)
      ensures !old(state).isLoadingMore && old(state).hasMorePages ==> requested == Some(old(state).currentPage + 1)
      ensures !old(state).isLoadingMore && old(state).hasMorePages && page.Success? ==>
        state == AfterLoadMore(old(state), page.value)
      ensures page.Failure? ==> state == old(state)
    {
      if state.isLoadingMore || !state.hasMorePages {
        return None;
      }
      state := state.(isLoadingMore := true);
      var nextPage := state.currentPage + 1;
      requested := Some(nextPage);
      match page {
        case Success(newQuotes) =>
          state := state.(isLoadingMore := false, quotes := state.quotes + newQuotes, currentPage := nextPage,
                          hasMorePages := |newQuotes| == PageSize);
        case Failure(_) =>
          state := state.(isLoadingMore := false);
      }
    }

    /** `toggleFavorite(quoteId)`: on success the new flag is patched into the
        list and the quote of the day; a failure changes nothing. */
    method ToggleFavorite(quoteId: string, toggled: Result<bool>)
      modifies this
      ensures toggled.Failure? ==> state == old(state)
      ensures toggled.Success? ==>
        state == old(state).(quoteOfDay := PatchFavoriteOne(old(state).quoteOfDay, quoteId, toggled.value),
                             quotes := PatchFavorite(old(state).quotes, quoteId, toggled.value))
    {
      match toggled {
        case Success(f) =>
          state := state.(quoteOfDay := PatchFavoriteOne(state.quoteOfDay, quoteId, f),
                          quotes := PatchFavorite(state.quotes, quoteId, f));
        case Failure(_) =>
      }
    }

    method ClearError()
      modifies this
      ensures state == old(state).(error := None)
    {
      state := state.(error := None);
    }
  }

  // ---------------------------------------------------------------------
  // properties

  /** The first page of the feed is page 0 of the repository's pagination. */
  lemma FirstPageIsPageZero(feed: Feed, s: HomeUiState)
    ensures FirstPage(s, feed).quotes == Seqs.Pages(feed.quotes, PageSize, 1)
  {
    assert Seqs.Pages(feed.quotes, PageSize, 0) == [];
  }

  /** Home's scrolling neither skips nor repeats: when the list holds pages
      `0..k` of the feed `all` and the page counter is `k`, appending the page
      at offset `(k + 1) * 20` makes the list exactly the first `(k + 2) * 20`
      quotes of the feed. */
  lemma {:induction false} LoadMoreContiguous(all: seq<Quote>, s: HomeUiState, k: nat)
    requires s.quotes == Seqs.Pages(all, PageSize, k + 1) && s.currentPage == k
    ensures var r := AfterLoadMore(s, Seqs.Page(all, PageSize, (k + 1) * PageSize));
      r.currentPage == k + 1 &&
      r.quotes == Seqs.Pages(all, PageSize, k + 2) &&
      r.quotes == all[..Seqs.Min((k + 2) * PageSize, |all|)]
  {
    Seqs.PagesArePrefix(all, PageSize, k + 2);
  }

  /** A short page ends the scrolling: after it `loadMore` does nothing. */
  lemma ShortPageStops(s: HomeUiState, page: seq<Quote>)
    requires |page| != PageSize
    ensures !AfterLoadMore(s, page).hasMorePages
  {
  }
}
