/** `SearchViewModel`: the query, its results, and the pending debounced
    search. The debounce delay is not modelled: `searchJob` is the query a
    launched job will search for, `None` when no job is pending. */
module SearchScreen {
  import opened Wrappers
  import opened Domain
  import opened QuoteLists
  import Text

  datatype SearchUiState = SearchUiState(
    query: string,
    isSearching: bool,
    results: seq<Quote>,
    error: Option<string>,
    hasSearched: bool)

  /** `SearchUiState()`. */
  const InitialSearch := SearchUiState("", false, [], None, false)

  /** The state a `search(query)` that was not skipped leaves. */
  function AfterSearch(s: SearchUiState, found: Result<seq<Quote>>): (r: SearchUiState)
    ensures !r.isSearching && r.hasSearched && r.query == s.query
    ensures found.Success? ==> r.results == found.value && r.error.None?
    ensures found.Failure? ==> r.results == s.results && r.error == found.message
  {
    match found
    case Success(results) => s.(isSearching := false, error := None, results := results, hasSearched := true)
    case Failure(e) => s.(isSearching := false, error := e, hasSearched := true)
  }

  class SearchViewModel {
    var state: SearchUiState
    var searchJob: Option<string>

    /** A job is only ever pending for a query that is not blank. */
    ghost predicate Valid()
      reads this
    {
      searchJob.Some? ==> !Text.IsBlank(searchJob.value)
    }

    constructor ()
      ensures Valid()
      ensures state == InitialSearch && searchJob.None?
    {
      state := InitialSearch;
      searchJob := None;
    }

    /** `onQueryChange(query)`: the query is stored whatever it is; the old
        job is cancelled; a blank query empties the results and launches
        nothing, any other query launches a job for itself. */
    method OnQueryChange(query: string)
      modifies this
      ensures Valid()
      ensures state.query == query
      ensures Text.IsBlank(query) ==>
        searchJob.None? && state == old(state).(query := query, results := [], hasSearched := false)
      ensures !Text.IsBlank(query) ==> searchJob == Some(query) && state == old(state).(query := query)
    {
      state := state.(query := query);
      searchJob := None;
      if Text.IsBlank(query) {
        state := state.(results := [], hasSearched := false);
        return;
      }
      searchJob := Some(query);
    }

    /** `search(query)`: `found` is the first value of `searchQuotes(query)`,
        a `Failure` standing for its exception. A blank query does nothing. */
    method Search(query: string, found: Result<seq<Quote>>)
      modifies this
      ensures searchJob == old(searchJob)
      ensures Text.IsBlank(query) ==> state == old(state)
      ensures !Text.IsBlank(query) ==> state == AfterSearch(old(state), found)
    {
      if Text.IsBlank(query) {
        return;
      }
      state := state.(isSearching := true, error := None);
      match found {
        case Success(results) => state := state.(isSearching := false, results := results, hasSearched := true);
        case Failure(e) => state := state.(isSearching := false, error := e, hasSearched := true);
      }
    }

    /** The pending job runs: it searches for the query it was launched for,
        which may no longer be the current one. */
    method RunSearchJob(found: Result<seq<Quote>>)
      requires Valid()
      modifies this
      ensures Valid()
      ensures searchJob.None?
      ensures old(searchJob).None? ==> state == old(state)
      ensures old(searchJob).Some? ==> state == AfterSearch(old(state), found)
    {
      match searchJob {
        case None =>
        case Some(q) => Search(q, found);
      }
      searchJob := None;
    }

    /** `toggleFavorite(quoteId)`: patches the matching results only. */
    method ToggleFavorite(quoteId: string, toggled: Result<bool>)
      modifies this
      ensures searchJob == old(searchJob)
      ensures toggled.Failure? ==> state == old(state)
      ensures toggled.Success? ==> state == old(state).(results := PatchFavorite(old(state).results, quoteId, toggled.value))
    {
      match toggled {
        case Success(f) => state := state.(results := PatchFavorite(state.results, quoteId, f));
        case Failure(_) =>
      }
    }

    /** `clearSearch()`: every field back to its default. */
    method ClearSearch()
      modifies this
      ensures state == InitialSearch && searchJob == old(searchJob)
    {
      state := InitialSearch;
    }

    method ClearError()
      modifies this
      ensures state == old(state).(error := None) && searchJob == old(searchJob)
    {
      state := state.(error := None);
    }
  }

  // ---------------------------------------------------------------------
  // properties

  /** Searching never forgets that a search happened, and a failed search
      after a successful one still shows the earlier results. */
  lemma FailureKeepsResults(s: SearchUiState, found: seq<Quote>, e: Option<string>)
    ensures var r := AfterSearch(AfterSearch(s, Success(found)), Failure(e));
      r.results == found && r.hasSearched && r.error == e
  {
  }
}
