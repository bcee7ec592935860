/** `CollectionsViewModel`: the collection list, one collection's detail, and
    their dialogs. */
module CollectionsScreen {
  import opened Wrappers
  import opened Domain
  import opened QuoteLists

  datatype CollectionsUiState = CollectionsUiState(
    isLoading: bool,
    isRefreshing: bool,
    collections: seq<Collection>,
    error: Option<string>,
    isLoggedIn: bool,
    showCreateDialog: bool,
    isCreating: bool)

  const InitialCollections := CollectionsUiState(false, false, [], None, false, false, false)

  datatype CollectionDetailUiState = CollectionDetailUiState(
    isLoading: bool,
    isRefreshing: bool,
    collection: Option<Collection>,
    quotes: seq<Quote>,
    error: Option<string>,
    showEditDialog: bool,
    showDeleteDialog: bool)

  const InitialDetail := CollectionDetailUiState(false, false, None, [], None, false, false)

  class CollectionsViewModel {
    var uiState: CollectionsUiState
    var detailState: CollectionDetailUiState

    constructor ()
      ensures uiState == InitialCollections && detailState == InitialDetail
    {
      uiState := InitialCollections;
      detailState := InitialDetail;
    }

    /** `observeAuthState`: one emission of the login stream; `sync` tells
        whether a background `syncCollections()` was started, whose outcome is
        ignored. */
    method ObserveAuth(isLoggedIn: bool) returns (sync: bool)
      modifies this
      ensures uiState == old(uiState).(isLoggedIn := isLoggedIn) && detailState == old(detailState)
      ensures sync == isLoggedIn
    {
      uiState := uiState.(isLoggedIn := isLoggedIn);
      sync := isLoggedIn;
    }

    /** `observeCollections`: one emission of the collections stream. */
    method ObserveCollections(collections: seq<Collection>)
      modifies this
      ensures uiState == old(uiState).(isLoading := false, collections := collections) && detailState == old(detailState)
    {
      uiState := uiState.(isLoading := true);
      uiState := uiState.(isLoading := false, collections := collections);
    }

    /** `refresh()`. `syncCollections` reports failure as a `Result` and never
        throws, so the `catch` that would store an error is never reached: the
        outcome `synced` has no effect on the state. */
    method Refresh(synced: Result<()>)
      modifies this
      ensures uiState == old(uiState).(isRefreshing := false) && detailState == old(detailState)
    {
      uiState := uiState.(isRefreshing := true);
      uiState := uiState.(isRefreshing := false);
    }

    method ShowCreateDialog()
      modifies this
      ensures uiState == old(uiState).(showCreateDialog := true) && detailState == old(detailState)
    {
      uiState := uiState.(showCreateDialog := true);
    }

    method HideCreateDialog()
      modifies this
      ensures uiState == old(uiState).(showCreateDialog := false) && detailState == old(detailState)
    {
      uiState := uiState.(showCreateDialog := false);
    }

    /** `createCollection(...)`: success closes the dialog, failure keeps it
        open and stores the message; `isCreating` ends false either way. */
    method CreateCollection(created: Result<Collection>)
      modifies this
      ensures detailState == old(detailState)
      ensures !uiState.isCreating
      ensures created.Success? ==> uiState == old(uiState).(isCreating := false, showCreateDialog := false)
      ensures created.Failure? ==> uiState == old(uiState).(isCreating := false, error := created.message)
    {
      uiState := uiState.(isCreating := true);
      match created {
        case Success(_) => uiState := uiState.(isCreating := false, showCreateDialog := false);
        case Failure(e) => uiState := uiState.(isCreating := false, error := e);
      }
    }

    /** `loadCollectionDetail(id)`: `loaded` is the collection and the first
        value of its quotes stream. */
    method LoadCollectionDetail(loaded: Result<(Option<Collection>, seq<Quote>)>)
      modifies this
      ensures uiState == old(uiState)
      ensures loaded.Success? ==>
        detailState == old(detailState).(isLoading := false, collection := loaded.value.0, quotes := loaded.value.1)
      ensures loaded.Failure? ==> detailState == old(detailState).(isLoading := false, error := loaded.message)
    {
      detailState := detailState.(isLoading := true);
      match loaded {
        case Success((c, qs)) => detailState := detailState.(isLoading := false, collection := c, quotes := qs);
        case Failure(e) => detailState := detailState.(isLoading := false, error := e);
      }
    }

    /** `refreshCollectionDetail(id)`. */
    method RefreshCollectionDetail(quotes: Result<seq<Quote>>)
      modifies this
      ensures uiState == old(uiState)
      ensures quotes.Success? ==> detailState == old(detailState).(isRefreshing := false, quotes := quotes.value)
      ensures quotes.Failure? ==> detailState == old(detailState).(isRefreshing := false, error := quotes.message)
    {
      detailState := detailState.(isRefreshing := true);
      match quotes {
        case Success(qs) => detailState := detailState.(isRefreshing := false, quotes := qs);
        case Failure(e) => detailState := detailState.(isRefreshing := false, error := e);
      }
    }

    /** `deleteCollection(id, onSuccess)`: `calledBack` tells whether
        `onSuccess` ran. */
    method DeleteCollection(deleted: Result<()>) returns (calledBack: bool)
      modifies this
      ensures uiState == old(uiState)
      ensures calledBack <==> deleted.Success?
      ensures deleted.Success? ==> detailState == old(detailState).(showDeleteDialog := false)
      ensures deleted.Failure? ==> detailState == old(detailState).(error := deleted.message)
    {
      match deleted {
        case Success(_) =>
          detailState := detailState.(showDeleteDialog := false);
          calledBack := true;
        case Failure(e) =>
          detailState := detailState.(error := e);
          calledBack := false;
      }
    }

    /** `removeQuoteFromCollection(c, q)`: success drops every shown quote with
        that id; a failure changes nothing. */
    method RemoveQuoteFromCollection(quoteId: string, removed: Result<()>)
      modifies this
      ensures uiState == old(uiState)
      ensures removed.Failure? ==> detailState == old(detailState)
      ensures removed.Success? ==> detailState == old(detailState).(quotes := WithoutId(old(detailState).quotes, quoteId))
    {
      match removed {
        case Success(_) => detailState := detailState.(quotes := WithoutId(detailState.quotes, quoteId));
        case Failure(_) =>
      }
    }

    /** `toggleFavorite(quoteId)`: patches the detail list only. */
    method ToggleFavorite(quoteId: string, toggled: Result<bool>)
      modifies this
      ensures uiState == old(uiState)
      ensures toggled.Failure? ==> detailState == old(detailState)
      ensures toggled.Success? ==>
        detailState == old(detailState).(quotes := PatchFavorite(old(detailState).quotes, quoteId, toggled.value))
    {
      match toggled {
        case Success(f) => detailState := detailState.(quotes := PatchFavorite(detailState.quotes, quoteId, f));
        case Failure(_) =>
      }
    }

    method ShowDeleteDialog()
      modifies this
      ensures detailState == old(detailState).(showDeleteDialog := true) && uiState == old(uiState)
    {
      detailState := detailState.(showDeleteDialog := true);
    }

    method HideDeleteDialog()
      modifies this
      ensures detailState == old(detailState).(showDeleteDialog := false) && uiState == old(uiState)
    {
      detailState := detailState.(showDeleteDialog := false);
    }

    /** `clearError()`: clears the error of both states. */
    method ClearError()
      modifies this
      ensures uiState == old(uiState).(error := None) && detailState == old(detailState).(error := None)
    {
      uiState := uiState.(error := None);
      detailState := detailState.(error := None);
    }
  }
}
