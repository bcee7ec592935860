/** Field-copying conversions between remote rows, local rows and domain records. */
module Mappers {
  import opened Wrappers
  import opened Domain
  import opened Entities
  import opened Dtos

  // ---------------------------------------------------------------------
  // quotes

  /** The joined category's display name, or none without a join. */
  function JoinedCategoryName(d: QuoteDto): Option<string> {
    match d.category
    case Some(c) => Some(c.displayName)
    case None => None
  }

  /** `QuoteDto.toEntity()`. */
  function QuoteDtoToEntity(d: QuoteDto): QuoteEntity {
    QuoteEntity(d.id, d.text, d.author, d.authorImageUrl, d.categoryId, JoinedCategoryName(d),
                d.source, d.isFeatured, d.createdAt, d.updatedAt)
  }

  /** `QuoteDto.toDomain(isFavorite)`. */
  function QuoteDtoToDomain(d: QuoteDto, isFavorite: bool): Quote {
    Quote(d.id, d.text, d.author, d.authorImageUrl, d.categoryId, JoinedCategoryName(d),
          d.source, d.isFeatured, isFavorite, d.createdAt)
  }

  /** `QuoteEntity.toDomain(isFavorite)`. */
  function QuoteEntityToDomain(e: QuoteEntity, isFavorite: bool): Quote {
    Quote(e.id, e.text, e.author, e.authorImageUrl, e.categoryId, e.categoryName,
          e.source, e.isFeatured, isFavorite, e.createdAt)
  }

  /** `Quote.toEntity()`: `updatedAt` is left at its default, null. */
  function QuoteToEntity(q: Quote): QuoteEntity {
    QuoteEntity(q.id, q.text, q.author, q.authorImageUrl, q.categoryId, q.categoryName,
                q.source, q.isFeatured, q.createdAt, None)
  }

  /** Both DTO mappings give the same category name: none exactly when the
      row came without a joined category, otherwise that category's display name. */
  lemma QuoteDtoCategoryName(d: QuoteDto, f: bool)
    ensures QuoteDtoToEntity(d).categoryName == QuoteDtoToDomain(d, f).categoryName
    ensures QuoteDtoToEntity(d).categoryName.None? <==> d.category.None?
    ensures d.category.Some? ==> QuoteDtoToEntity(d).categoryName == Some(d.category.value.displayName)
  {
  }

  /** An entity turned into a domain quote copies every shared field and takes the flag given. */
  lemma QuoteEntityToDomainCopies(e: QuoteEntity, f: bool)
    ensures var q := QuoteEntityToDomain(e, f);
            q.id == e.id && q.text == e.text && q.author == e.author &&
            q.authorImageUrl == e.authorImageUrl && q.categoryId == e.categoryId &&
            q.categoryName == e.categoryName && q.source == e.source &&
            q.isFeatured == e.isFeatured && q.createdAt == e.createdAt && q.isFavorite == f
  {
  }

  /** Entity to domain and back loses only `updatedAt`. */
  lemma QuoteEntityRoundTrip(e: QuoteEntity, f: bool)
    ensures QuoteToEntity(QuoteEntityToDomain(e, f)) == e.(updatedAt := None)
  {
  }

  /** Domain to entity and back, with the quote's own flag, is the identity. */
  lemma QuoteDomainRoundTrip(q: Quote)
    ensures QuoteEntityToDomain(QuoteToEntity(q), q.isFavorite) == q
  {
  }

  /** A quote built with defaults survives the trip through the local row as
      a non-favourite: every default it carries is one the row stores. */
  lemma NewQuoteRoundTrip(id: string, text: string, author: string)
    ensures QuoteEntityToDomain(QuoteToEntity(NewQuote(id, text, author)), false) == NewQuote(id, text, author)
  {
    QuoteDomainRoundTrip(NewQuote(id, text, author));
  }

  /** Mapping a remote quote directly equals mapping it through the local row. */
  lemma QuoteDtoCommutes(d: QuoteDto, f: bool)
    ensures QuoteDtoToDomain(d, f) == QuoteEntityToDomain(QuoteDtoToEntity(d), f)
  {
  }

  /** Every quote mapping keeps the id. */
  lemma QuoteMappingsKeepId(d: QuoteDto, e: QuoteEntity, q: Quote, f: bool)
    ensures QuoteDtoToEntity(d).id == d.id && QuoteDtoToDomain(d, f).id == d.id
    ensures QuoteEntityToDomain(e, f).id == e.id && QuoteToEntity(q).id == q.id
  {
  }

  // ---------------------------------------------------------------------
  // collections

  /** `CollectionDto.toEntity()`. */
  function CollectionDtoToEntity(d: CollectionDto): CollectionEntity {
    CollectionEntity(d.id, d.userId, d.name, d.description, d.coverColor, d.isPublic, d.createdAt, d.updatedAt)
  }

  /** `CollectionDto.toDomain(quoteCount, quotes)`. */
  function CollectionDtoToDomain(d: CollectionDto, quoteCount: int, quotes: seq<Quote>): Collection {
    Collection(d.id, d.userId, d.name, d.description, d.coverColor, d.isPublic, quoteCount, quotes,
               d.createdAt, d.updatedAt)
  }

  /** `CollectionEntity.toDomain(quoteCount, quotes)`. */
  function CollectionEntityToDomain(e: CollectionEntity, quoteCount: int, quotes: seq<Quote>): Collection {
    Collection(e.id, e.userId, e.name, e.description, e.coverColor, e.isPublic, quoteCount, quotes,
               e.createdAt, e.updatedAt)
  }

  /** `CollectionEntity.toDomain()` with both defaults. */
  function CollectionEntityToDomainDefaults(e: CollectionEntity): Collection {
    CollectionEntityToDomain(e, 0, [])
  }

  /** `Collection.toEntity()`. */
  function CollectionToEntity(c: Collection): CollectionEntity {
    CollectionEntity(c.id, c.userId, c.name, c.description, c.coverColor, c.isPublic, c.createdAt, c.updatedAt)
  }

  /** Entity to domain and back is the identity, whatever count and quotes were attached. */
  lemma CollectionEntityRoundTrip(e: CollectionEntity, n: int, qs: seq<Quote>)
    ensures CollectionToEntity(CollectionEntityToDomain(e, n, qs)) == e
  {
  }

  /** The domain collection carries exactly the count and quotes given, 0 and none by default. */
  lemma CollectionToDomainAttaches(e: CollectionEntity, d: CollectionDto, n: int, qs: seq<Quote>)
    ensures CollectionEntityToDomain(e, n, qs).quoteCount == n && CollectionEntityToDomain(e, n, qs).quotes == qs
    ensures CollectionDtoToDomain(d, n, qs).quoteCount == n && CollectionDtoToDomain(d, n, qs).quotes == qs
    ensures CollectionEntityToDomainDefaults(e).quoteCount == 0 && CollectionEntityToDomainDefaults(e).quotes == []
  {
  }

  /** Mapping a remote collection directly equals mapping it through the local row. */
  lemma CollectionDtoCommutes(d: CollectionDto, n: int, qs: seq<Quote>)
    ensures CollectionDtoToDomain(d, n, qs) == CollectionEntityToDomain(CollectionDtoToEntity(d), n, qs)
  {
  }

  /** Colour, visibility, owner and timestamps are copied verbatim by all four mappings. */
  lemma CollectionMappingsCopy(d: CollectionDto, e: CollectionEntity, c: Collection, n: int, qs: seq<Quote>)
    ensures var x := CollectionDtoToEntity(d);
            x.coverColor == d.coverColor && x.isPublic == d.isPublic && x.userId == d.userId &&
            x.createdAt == d.createdAt && x.updatedAt == d.updatedAt
    ensures var x := CollectionDtoToDomain(d, n, qs);
            x.coverColor == d.coverColor && x.isPublic == d.isPublic && x.userId == d.userId &&
            x.createdAt == d.createdAt && x.updatedAt == d.updatedAt
    ensures var x := CollectionEntityToDomain(e, n, qs);
            x.coverColor == e.coverColor && x.isPublic == e.isPublic && x.userId == e.userId &&
            x.createdAt == e.createdAt && x.updatedAt == e.updatedAt
    ensures var x := CollectionToEntity(c);
            x.coverColor == c.coverColor && x.isPublic == c.isPublic && x.userId == c.userId &&
            x.createdAt == c.createdAt && x.updatedAt == c.updatedAt
  {
  }

  // ---------------------------------------------------------------------
  // categories

  /** `CategoryDto.toEntity()`. */
  function CategoryDtoToEntity(d: CategoryDto): CategoryEntity {
    CategoryEntity(d.id, d.name, d.displayName, d.iconName, d.colorHex, d.sortOrder, d.createdAt)
  }

  /** `CategoryDto.toDomain(quoteCount)`: `createdAt` has no domain field. */
  function CategoryDtoToDomain(d: CategoryDto, quoteCount: int): Category {
    Category(d.id, d.name, d.displayName, d.iconName, d.colorHex, d.sortOrder, quoteCount)
  }

  /** `CategoryEntity.toDomain(quoteCount)`. */
  function CategoryEntityToDomain(e: CategoryEntity, quoteCount: int): Category {
    Category(e.id, e.name, e.displayName, e.iconName, e.colorHex, e.sortOrder, quoteCount)
  }

  /** The domain category carries the count given (0 by default), and mapping a
      remote category directly equals mapping it through the local row. */
  lemma CategoryMappings(d: CategoryDto, e: CategoryEntity, n: int)
    ensures CategoryEntityToDomain(e, n).quoteCount == n && CategoryEntityToDomain(e, 0).quoteCount == 0
    ensures CategoryDtoToDomain(d, n) == CategoryEntityToDomain(CategoryDtoToEntity(d), n)
  {
  }

  /** id, name, displayName, iconName, colorHex and sortOrder are copied by all
      three mappings; createdAt reaches the local row but not the domain. */
  lemma CategoryMappingsCopy(d: CategoryDto, e: CategoryEntity, n: int)
    ensures var x := CategoryDtoToEntity(d);
            x.id == d.id && x.name == d.name && x.displayName == d.displayName &&
            x.iconName == d.iconName && x.colorHex == d.colorHex && x.sortOrder == d.sortOrder &&
            x.createdAt == d.createdAt
    ensures var x := CategoryDtoToDomain(d, n);
            x.id == d.id && x.name == d.name && x.displayName == d.displayName &&
            x.iconName == d.iconName && x.colorHex == d.colorHex && x.sortOrder == d.sortOrder
    ensures var x := CategoryEntityToDomain(e, n);
            x.id == e.id && x.name == e.name && x.displayName == e.displayName &&
            x.iconName == e.iconName && x.colorHex == e.colorHex && x.sortOrder == e.sortOrder
    ensures forall d2: CategoryDto :: d2 == d.(createdAt := d2.createdAt) ==> CategoryDtoToDomain(d2, n) == CategoryDtoToDomain(d, n)
  {
  }
}
