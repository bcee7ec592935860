/** `QuoteDetailViewModel`: one quote, the collections it is in, and its sheets. */
module QuoteDetailScreen {
  import opened Wrappers
  import opened Domain
  import opened QuoteLists

  datatype QuoteDetailUiState = QuoteDetailUiState(
    isLoading: bool,
    quote: Option<Quote>,
    collections: seq<Collection>,
    quoteCollectionIds: seq<string>,
    error: Option<string>,
    showShareSheet: bool,
    showCollectionSheet: bool)

  const InitialDetail := QuoteDetailUiState(false, None, [], [], None, false, false)

  /** What `loadQuote` reads: the quote, the user's collections and the ids
      of the collections holding the quote. */
  datatype QuoteDetails = QuoteDetails(quote: Option<Quote>, collections: seq<Collection>, collectionIds: seq<string>)

  class QuoteDetailViewModel {
    var state: QuoteDetailUiState

    constructor ()
      ensures state == InitialDetail
    {
      state := InitialDetail;
    }

    /** `loadQuote(quoteId)`. */
    method LoadQuote(loaded: Result<QuoteDetails>)
      modifies this
      ensures loaded.Success? ==>
        state == old(state).(isLoading := false, quote := loaded.value.quote, collections := loaded.value.collections,
                             quoteCollectionIds := loaded.value.collectionIds)
      ensures loaded.Failure? ==> state == old(state).(isLoading := false, error := loaded.message)
    {
      state := state.(isLoading := true);
      match loaded {
        case Success(d) =>
          state := state.(isLoading := false, quote := d.quote, collections := d.collections,
                          quoteCollectionIds := d.collectionIds);
        case Failure(e) =>
          state := state.(isLoading := false, error := e);
      }
    }

    /** `toggleFavorite()`: without a loaded quote nothing is asked; otherwise
        `asked` is the quote id sent to the repository, and success sets the
        quote's flag to the value returned. */
    method ToggleFavorite(toggled: Result<bool>) returns (asked: Option<string>)
      modifies this
      ensures old(state).quote.None? ==> asked.None? && state == old(state)
      ensures old(state).quote.Some? ==> asked == Some(old(state).quote.value.id)
      ensures old(state).quote.Some? && toggled.Success? ==>
        state == old(state).(quote := Some(old(state).quote.value.(isFavorite := toggled.value)))
      ensures toggled.Failure? ==> state == old(state)
    {
      if state.quote.None? {
        return None;
      }
      asked := Some(state.quote.value.id);
      match toggled {
        case Success(f) => state := state.(quote := Some(state.quote.value.(isFavorite := f)));
        case Failure(_) =>
      }
    }

    method ShowShareSheet()
      modifies this
      ensures state == old(state).(showShareSheet := true)
    {
      state := state.(showShareSheet := true);
    }

    method HideShareSheet()
      modifies this
      ensures state == old(state).(showShareSheet := false)
    {
      state := state.(showShareSheet := false);
    }

    method ShowCollectionSheet()
      modifies this
      ensures state == old(state).(showCollectionSheet := true)
    {
      state := state.(showCollectionSheet := true);
    }

    method HideCollectionSheet()
      modifies this
      ensures state == old(state).(showCollectionSheet := false)
    {
      state := state.(showCollectionSheet := false);
    }

    /** `addToCollection(collectionId)`: success appends the id, even when it
        is already listed, and closes the sheet. */
    method AddToCollection(collectionId: string, added: Result<()>) returns (asked: Option<string>)
      modifies this
      ensures old(state).quote.None? ==> asked.None? && state == old(state)
      ensures old(state).quote.Some? ==> asked == Some(old(state).quote.value.id)
      ensures old(state).quote.Some? && added.Success? ==>
        state == old(state).(quoteCollectionIds := old(state).quoteCollectionIds + [collectionId], showCollectionSheet := false)
      ensures added.Failure? ==> state == old(state)
    {
      if state.quote.None? {
        return None;
      }
      asked := Some(state.quote.value.id);
      match added {
        case Success(_) =>
          state := state.(quoteCollectionIds := state.quoteCollectionIds + [collectionId], showCollectionSheet := false);
        case Failure(_) =>
      }
    }

    /** `removeFromCollection(collectionId)`: success removes the first
        occurrence of the id only (`List.minus`). */
    method RemoveFromCollection(collectionId: string, removed: Result<()>) returns (asked: Option<string>)
      modifies this
      ensures old(state).quote.None? ==> asked.None? && state == old(state)
      ensures old(state).quote.Some? ==> asked == Some(old(state).quote.value.id)
      ensures old(state).quote.Some? && removed.Success? ==>
        state == old(state).(quoteCollectionIds := Minus(old(state).quoteCollectionIds, collectionId))
      ensures removed.Failure? ==> state == old(state)
    {
      if state.quote.None? {
        return None;
      }
      asked := Some(state.quote.value.id);
      match removed {
        case Success(_) => state := state.(quoteCollectionIds := Minus(state.quoteCollectionIds, collectionId));
        case Failure(_) =>
      }
    }

    method ClearError()
      modifies this
      ensures state == old(state).(error := None)
    {
      state := state.(error := None);
    }
  }

  // ---------------------------------------------------------------------
  // properties

  /** Adding a collection twice lists it twice, and one removal then still
      lists it once: the id list is a multiset, not a set. */
  lemma AddTwiceRemoveOnce(ids: seq<string>, c: string)
    requires c !in ids
    ensures multiset(Minus(ids + [c] + [c], c))[c] == 1
  {
    MinusMultiset(ids + [c] + [c], c);
  }
}
