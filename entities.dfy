/** The rows of the local Room tables. */
module Entities {
  import opened Wrappers
  import opened Domain

  /** A row of `quotes`, keyed by `id`. */
  datatype QuoteEntity = QuoteEntity(
    id: string,
    text: string,
    author: string,
    authorImageUrl: Option<string>,
    categoryId: Option<string>,
    categoryName: Option<string>,
    source: Option<string>,
    isFeatured: bool,
    createdAt: Stamp,
    updatedAt: Stamp)

  /** A row of `categories`, keyed by `id`. */
  datatype CategoryEntity = CategoryEntity(
    id: string,
    name: string,
    displayName: string,
    iconName: Option<string>,
    colorHex: Option<string>,
    sortOrder: int,
    createdAt: Stamp)

  /** A row of `favorites`, keyed by `id`, unique on (`user_id`, `quote_id`). */
  datatype FavoriteEntity = FavoriteEntity(id: string, userId: string, quoteId: string, createdAt: Stamp)

  /** A row of `collections`, keyed by `id`. */
  datatype CollectionEntity = CollectionEntity(
    id: string,
    userId: string,
    name: string,
    description: Option<string>,
    coverColor: string,
    isPublic: bool,
    createdAt: Stamp,
    updatedAt: Stamp)

  /** A row of `collection_quotes`, keyed by `id`, unique on (`collection_id`, `quote_id`). */
  datatype CollectionQuoteEntity = CollectionQuoteEntity(id: string, collectionId: string, quoteId: string, addedAt: Stamp)
}

/** The rows the Supabase tables return, and the bodies the app sends. */
module Dtos {
  import opened Wrappers
  import opened Domain

  datatype CategoryDto = CategoryDto(
    id: string,
    name: string,
    displayName: string,
    iconName: Option<string>,
    colorHex: Option<string>,
    sortOrder: int,
    createdAt: Stamp)

  /** `quotes`, with the joined `category` row when the select asked for it. */
  datatype QuoteDto = QuoteDto(
    id: string,
    text: string,
    author: string,
    authorImageUrl: Option<string>,
    categoryId: Option<string>,
    source: Option<string>,
    isFeatured: bool,
    createdAt: Stamp,
    updatedAt: Stamp,
    category: Option<CategoryDto>)

  /** `quote_of_day`, with the joined quote. */
  datatype QuoteOfDayDto = QuoteOfDayDto(id: string, quoteId: string, displayDate: string, createdAt: Stamp,
                                         quote: Option<QuoteDto>)

  datatype FavoriteDto = FavoriteDto(id: string, userId: string, quoteId: string, createdAt: Stamp,
                                     quote: Option<QuoteDto>)

  datatype FavoriteInsertDto = FavoriteInsertDto(userId: string, quoteId: string)

  datatype CollectionDto = CollectionDto(
    id: string,
    userId: string,
    name: string,
    description: Option<string>,
    coverColor: string,
    isPublic: bool,
    createdAt: Stamp,
    updatedAt: Stamp)

  datatype CollectionInsertDto = CollectionInsertDto(userId: string, name: string, description: Option<string>,
                                                     coverColor: string, isPublic: bool)

  datatype CollectionUpdateDto = CollectionUpdateDto(name: Option<string>, description: Option<string>,
                                                     coverColor: Option<string>, isPublic: Option<bool>)

  datatype CollectionQuoteDto = CollectionQuoteDto(id: string, collectionId: string, quoteId: string,
                                                   addedAt: Stamp, quote: Option<QuoteDto>)

  datatype CollectionQuoteInsertDto = CollectionQuoteInsertDto(collectionId: string, quoteId: string)
}
