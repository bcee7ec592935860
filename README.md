# QuoteVault core, modelled in Dafny

QuoteVault is an Android app for browsing, searching, favouriting and collecting quotes. This project models the logic underneath its UI:

- **Settings.** The settings codec and preference store: enum/string encoders, the `HH:MM` time format, defaults per key, `updateSettings` and `syncSettings`.
- **Local store.** The Room tables for quotes, categories, favorites, collections and collection_quotes. Each table keeps its primary key, its unique indices and its REPLACE-on-conflict inserts.
- **Repositories.**
  - The local write is authoritative.
  - Remote errors are swallowed.
  - Sync deletes only after a successful fetch.
  - Refresh is an additive upsert.
  - Pagination uses `offset = page * pageSize`.
  - Every quote read joins the favourite flag.
- **Mappers.** The DTO/Entity/Domain mapping functions.
- **Reminder delay.** The daily-reminder delay arithmetic and `doWork`'s decisions.
- **View models.** Seven view models, each as a state machine over its UI-state record.
- **Small helpers.** Initials, display name, category icon and colour, quote formatting, `capitalizeWords`, and the navigation routes.

### How the model is laid out

**Remote answers are parameters.** The remote backend (Supabase) is never modelled. Whatever an operation would receive from it is passed in as a `Result<T>`: `Success(value)` or `Failure(message)`, where the message is optional like Kotlin's `Throwable.message`.

**Remote writes cannot change the result.** For a best-effort remote write the model still takes the outcome as a parameter, so a contract that does not mention it states the result and the local state for every outcome.

Other platform inputs are parameters too:
- fresh UUIDs and clock readings;
- the repository answers a view model receives;
- the pick made by `ORDER BY RANDOM()`.

**Tables.** The local database is the class `Store.Database`, holding one `seq` per table in rowid order. Every write method states the new value of its own table and that the other tables are unchanged.

SQL is written as functions over those sequences:
- `WHERE` is `Seqs.Filter`.
- `ORDER BY` is the stable sort `Seqs.SortBy`, so ties keep rowid order.
- `LIMIT/OFFSET` is `Seqs.Page`.
- `INSERT OR REPLACE` is `TableOps.Replace`. It drops every row that conflicts on the primary key or a unique index, then appends the new row.

**View models.** Each view model is a class with a `state` field.
- Each method is one launched coroutine run to completion.
- Where the source guards a repository call, the method returns what it asked for: `requested`, `asked`, `called` or `sent`.
- Pagination steps are related by lemmas to reference functions (`AfterLoadMore`, `FirstPage`, `AfterLoad`, `AfterSearch`).


## Model

| member | source | states |
|---|---|---|
| Settings.DefaultSettings | app/src/main/java/com/example/quotevault/domain/model/UserSettings.kt:8-14 | the default settings are SYSTEM theme, DEFAULT accent, MEDIUM font, notifications on, 09:00 |
| Settings.ThemeModeString | app/src/main/java/com/example/quotevault/domain/model/UserSettings.kt:26-30 | every storage string of a theme mode is lower-case letters |
| Settings.AccentColorString | app/src/main/java/com/example/quotevault/domain/model/UserSettings.kt:40-46 | every storage string of an accent colour is lower-case letters |
| Settings.FontSizeString | app/src/main/java/com/example/quotevault/domain/model/UserSettings.kt:55-60 | every storage string of a font size is lower-case letters or `_` |
| Settings.ThemeModeRoundTrip | app/src/main/java/com/example/quotevault/domain/model/UserSettings.kt:20-30 | parsing a theme mode's storage string gives the mode back, for all three modes |
| Settings.AccentColorRoundTrip | app/src/main/java/com/example/quotevault/domain/model/UserSettings.kt:32-46 | parsing an accent colour's storage string gives the colour back, for all five colours |
| Settings.FontSizeRoundTrip | app/src/main/java/com/example/quotevault/domain/model/UserSettings.kt:48-60 | parsing a font size's storage string gives the size back, for all four sizes including `extra_large` |
| Settings.StorageStringsInjective | app/src/main/java/com/example/quotevault/domain/model/UserSettings.kt:26-60 | each of the three `toStorageString` encoders is injective |
| Settings.ParsersIgnoreCase | app/src/main/java/com/example/quotevault/domain/model/UserSettings.kt:20-48 | the three parsers give the same answer for a string and its upper-cased form |
| Settings.UpperCaseRoundTrip | app/src/main/java/com/example/quotevault/domain/model/UserSettings.kt:20-60 | the upper-cased storage string, such as "DARK", still parses back to its value |
| Settings.UnknownStringsReadAsDefaults | app/src/main/java/com/example/quotevault/domain/model/UserSettings.kt:23-52 | a string that is no storage string once lower-cased parses to SYSTEM, DEFAULT and MEDIUM respectively |
| SettingsStore.FormatTimeShape | app/src/main/java/com/example/quotevault/data/repository/SettingsRepositoryImpl.kt:147-149 | `formatTime` always gives five characters: two digits, `:`, two digits |
| SettingsStore.ParseFormatTime | app/src/main/java/com/example/quotevault/data/repository/SettingsRepositoryImpl.kt:138-149 | parsing a formatted time gives the same hour and minute with zero seconds, so any time without seconds round-trips, 00:00 and 23:59 included |
| SettingsStore.ParseTimeHourOnly | app/src/main/java/com/example/quotevault/data/repository/SettingsRepositoryImpl.kt:140-141 | with no `:` the string is the hour and the minute is 0 |
| SettingsStore.ParseTimeIgnoresSeconds | app/src/main/java/com/example/quotevault/data/repository/SettingsRepositoryImpl.kt:140-141 | parts after the second are ignored, so "09:00:00" parses as "09:00" |
| SettingsStore.ParseTimeFallback | app/src/main/java/com/example/quotevault/data/repository/SettingsRepositoryImpl.kt:139-144 | a non-integer part, or an hour or minute out of range, gives 09:00; this covers the `LocalTime` constructor's exception |
| SettingsStore.MissingKeysReadAsDefaults | app/src/main/java/com/example/quotevault/data/repository/SettingsRepositoryImpl.kt:45-53 | each missing preference key independently reads as its default, and an empty store reads as the default settings |
| SettingsStore.ReadEncodeSettings | app/src/main/java/com/example/quotevault/data/repository/SettingsRepositoryImpl.kt:45-67 | reading back the five keys `updateSettings` wrote gives exactly the settings written, when the time has no seconds |
| SettingsStore.RemoteTimeTruncates | app/src/main/java/com/example/quotevault/data/repository/SettingsRepositoryImpl.kt:85-128 | the remote time is `formatTime` plus ":00", eight characters, and its first five characters are `formatTime` again |
| SettingsStore.SyncAfterUpdate | app/src/main/java/com/example/quotevault/data/repository/SettingsRepositoryImpl.kt:77-129 | syncing from the row that `updateSettings` sent writes the same preferences that `updateSettings` wrote locally |
| SettingsStore.SettingsRepository.constructor | app/src/main/java/com/example/quotevault/data/repository/SettingsRepositoryImpl.kt:45-53 | a fresh store holds no keys |
| SettingsStore.SettingsRepository.UpdateSettings | app/src/main/java/com/example/quotevault/data/repository/SettingsRepositoryImpl.kt:59-112 | all five keys are rewritten; the result is success whatever the remote outcome; nothing is sent with no user or when the lookup fails; otherwise an update is sent when a remote row exists and an insert when none does |
| SettingsStore.SettingsRepository.SyncSettings | app/src/main/java/com/example/quotevault/data/repository/SettingsRepositoryImpl.kt:114-136 | no user gives "Not logged in" with the store unchanged; a failed fetch fails with its message and no change; no remote row leaves the store unchanged; a row overwrites the keys with the time cut to five characters |
| SettingsStore.UpdateThenRead | app/src/main/java/com/example/quotevault/data/repository/SettingsRepositoryImpl.kt:55-67 | `updateSettings(s)` then `getSettings()` returns exactly `s` when its time has no seconds |
| Mappers.QuoteDtoCategoryName | app/src/main/java/com/example/quotevault/data/mapper/QuoteMapper.kt:7-35 | `toEntity()` and `toDomain(f)` give a DTO the same category name: none iff there is no joined category, otherwise its display name |
| Mappers.QuoteEntityToDomainCopies | app/src/main/java/com/example/quotevault/data/mapper/QuoteMapper.kt:37-50 | entity to domain copies every shared field and sets `isFavorite` to the flag given |
| Mappers.QuoteEntityRoundTrip | app/src/main/java/com/example/quotevault/data/mapper/QuoteMapper.kt:37-64 | entity to domain to entity gives the entity back with `updatedAt` dropped to null |
| Mappers.QuoteDomainRoundTrip | app/src/main/java/com/example/quotevault/data/mapper/QuoteMapper.kt:37-64 | domain to entity to domain, with the quote's own flag, gives the quote back |
| Mappers.QuoteDtoCommutes | app/src/main/java/com/example/quotevault/data/mapper/QuoteMapper.kt:7-50 | DTO to domain equals DTO to entity to domain |
| Mappers.QuoteMappingsKeepId | app/src/main/java/com/example/quotevault/data/mapper/QuoteMapper.kt:9-54 | all four quote mappings keep the id |
| Mappers.CollectionEntityRoundTrip | app/src/main/java/com/example/quotevault/data/mapper/CollectionMapper.kt:36-62 | entity to domain to entity is the identity, whatever count and quotes were attached |
| Mappers.CollectionToDomainAttaches | app/src/main/java/com/example/quotevault/data/mapper/CollectionMapper.kt:21-49 | both `toDomain`s carry the count and quotes given, and the defaults are 0 and empty |
| Mappers.CollectionDtoCommutes | app/src/main/java/com/example/quotevault/data/mapper/CollectionMapper.kt:8-49 | DTO to domain equals DTO to entity to domain |
| Mappers.CollectionMappingsCopy | app/src/main/java/com/example/quotevault/data/mapper/CollectionMapper.kt:8-62 | coverColor, isPublic, userId and both timestamps are copied verbatim by all four functions |
| Mappers.CategoryMappings | app/src/main/java/com/example/quotevault/data/mapper/CategoryMapper.kt:7-41 | entity to domain carries the count given, default 0, and DTO to domain equals DTO to entity to domain |
| Mappers.CategoryMappingsCopy | app/src/main/java/com/example/quotevault/data/mapper/CategoryMapper.kt:7-41 | id, name, displayName, iconName, colorHex and sortOrder are copied by all three functions; createdAt reaches the entity but not the domain object |
| QuoteDao.NewerQuoteOrder | app/src/main/java/com/example/quotevault/data/local/database/dao/QuoteDao.kt:13 | `created_at DESC`, with null sorting last, is a total preorder |
| QuoteDao.RandomQuote | app/src/main/java/com/example/quotevault/data/local/database/dao/QuoteDao.kt:45-46 | the random quote is null iff the table is empty, and otherwise a row of the table |
| QuoteDao.DeleteQuote | app/src/main/java/com/example/quotevault/data/local/database/dao/QuoteDao.kt:54-55 | deleting an id removes exactly the rows with that id and keeps every other row |
| QuoteDao.JoinQuotes | app/src/main/java/com/example/quotevault/data/local/database/dao/FavoriteDao.kt:15-21 | an inner join's rows are cached quotes whose id is among the joined ids, at most one per id |
| QuoteDao.JoinQuotesInOrder | app/src/main/java/com/example/quotevault/data/local/database/dao/FavoriteDao.kt:15-21 | the inner join keeps the order of the joined ids: of two result rows the earlier one's id comes first among the ids |
| QuoteDao.Cached | app/src/main/java/com/example/quotevault/data/local/database/dao/QuoteDao.kt:36-37 | the cached row for an id is at most one row of the table, with that id |
| QuoteDao.AllQuotesOrdered | app/src/main/java/com/example/quotevault/data/local/database/dao/QuoteDao.kt:13-14 | `getAllQuotes` is a permutation of the table sorted newest first |
| QuoteDao.QuotePagesContiguous | app/src/main/java/com/example/quotevault/data/local/database/dao/QuoteDao.kt:16-17 | the first k pages of `getQuotesPaginated`, concatenated, are the prefix of the ordered list |
| QuoteDao.FortyFiveQuotes | app/src/main/java/com/example/quotevault/data/local/database/dao/QuoteDao.kt:16-17 | with 45 rows and limit 20, offsets 0, 20, 40 and 60 give items 0-19, 20-39, 40-44 and nothing |
| QuoteDao.QuotesByCategoryMeans | app/src/main/java/com/example/quotevault/data/local/database/dao/QuoteDao.kt:19-64 | `getQuotesByCategory(c)` holds exactly the rows of category c, and the count query equals its length |
| QuoteDao.NewestFirst | app/src/main/java/com/example/quotevault/data/local/database/dao/QuoteDao.kt:13-33 | the sort every quote query applies yields newest-first order |
| QuoteDao.SearchQuotesMeans | app/src/main/java/com/example/quotevault/data/local/database/dao/QuoteDao.kt:25-31 | a row is found iff its text or its author matches the query under LIKE `%q%` |
| QuoteDao.QuotesByAuthorMeans | app/src/main/java/com/example/quotevault/data/local/database/dao/QuoteDao.kt:33-34 | a row is found iff its author matches the query under LIKE `%q%` |
| QuoteDao.QuoteByIdMeans | app/src/main/java/com/example/quotevault/data/local/database/dao/QuoteDao.kt:36-37 | lookup by id is null iff no row has the id, and otherwise is that row |
| QuoteDao.ReplaceQuoteValid | app/src/main/java/com/example/quotevault/data/local/database/dao/QuoteDao.kt:48-49 | REPLACE keeps the primary key unique |
| QuoteDao.ReplaceQuoteUpserts | app/src/main/java/com/example/quotevault/data/local/database/dao/QuoteDao.kt:48-49 | after `insertQuote(e)` the id finds e, and the table is e plus every old row with another id |
| QuoteDao.ReplaceQuotesAdditive | app/src/main/java/com/example/quotevault/data/local/database/dao/QuoteDao.kt:51-52 | `insertQuotes` keeps every row whose id is not inserted, and every inserted id is present afterwards |
| QuoteDao.ReplaceQuotesValid | app/src/main/java/com/example/quotevault/data/local/database/dao/QuoteDao.kt:51-52 | a batch REPLACE keeps the primary key unique |
| QuoteDao.JoinQuotesCached | app/src/main/java/com/example/quotevault/data/local/database/dao/FavoriteDao.kt:15-21 | every joined row is the cached row for its id |
| QuoteDao.JoinQuotesComplete | app/src/main/java/com/example/quotevault/data/local/database/dao/FavoriteDao.kt:15-21 | every joined id that is cached appears in the join |
| QuoteDao.DeleteQuoteValid | app/src/main/java/com/example/quotevault/data/local/database/dao/QuoteDao.kt:54-55 | deleting keeps the primary key unique |
| CategoryDao.AllCategoriesOrdered | app/src/main/java/com/example/quotevault/data/local/database/dao/CategoryDao.kt:13-17 | all categories, as a permutation of the table, sorted by `sort_order` ascending |
| CategoryDao.CategoryLookupsMean | app/src/main/java/com/example/quotevault/data/local/database/dao/CategoryDao.kt:19-23 | lookup by id or by name is null iff no row matches, and otherwise a matching row |
| CategoryDao.ReplaceCategoryUpserts | app/src/main/java/com/example/quotevault/data/local/database/dao/CategoryDao.kt:25-26 | REPLACE keeps ids unique, makes the id find the new row, and leaves every other id's lookup as it was |
| CategoryDao.ReplaceCategoriesValid | app/src/main/java/com/example/quotevault/data/local/database/dao/CategoryDao.kt:28-29 | a batch REPLACE keeps ids unique |
| CategoryDao.ReplaceCategoriesAdditive | app/src/main/java/com/example/quotevault/data/local/database/dao/CategoryDao.kt:28-29 | every inserted id is present afterwards, and every row whose id is not inserted is kept |
| CategoryDao.DeleteCategoryEffect | app/src/main/java/com/example/quotevault/data/local/database/dao/CategoryDao.kt:31-32 | deleting an id removes exactly the rows with that id |
| CategoryDao.DeleteCategoryValid | app/src/main/java/com/example/quotevault/data/local/database/dao/CategoryDao.kt:31-32 | deleting keeps ids unique |
| FavoriteDao.IsFavoriteMeans | app/src/main/java/com/example/quotevault/data/local/database/dao/FavoriteDao.kt:41-42 | `isFavoriteSync(u, q)` iff a row for (u, q) exists |
| FavoriteDao.FavoriteQuoteIdsMeans | app/src/main/java/com/example/quotevault/data/local/database/dao/FavoriteDao.kt:44-60 | q is among u's favourite quote ids iff (u, q) is a favourite, and the count query is the length of that id list |
| FavoriteDao.SortedFavoriteIdsMean | app/src/main/java/com/example/quotevault/data/local/database/dao/FavoriteDao.kt:15-21 | ordering the user's favourites newest first neither adds nor drops a quote id: an id is in the ordered list iff (u, id) is a favourite |
| FavoriteDao.AtMostOneRowPerPair | app/src/main/java/com/example/quotevault/data/local/database/entity/FavoriteEntity.kt:12 | the unique index allows at most one row per (user, quote) |
| FavoriteDao.ReplaceFavoriteValid | app/src/main/java/com/example/quotevault/data/local/database/dao/FavoriteDao.kt:47-48 | REPLACE keeps the primary key and the (user, quote) index unique |
| FavoriteDao.ReplaceFavoritesValid | app/src/main/java/com/example/quotevault/data/local/database/dao/FavoriteDao.kt:50-51 | a batch REPLACE keeps both keys unique, however many rows are inserted |
| FavoriteDao.ReplaceFavoriteEffect | app/src/main/java/com/example/quotevault/data/local/database/dao/FavoriteDao.kt:47-48 | after the insert the row is the only one for its pair, and every other pair's rows are unchanged when the new id is fresh |
| FavoriteDao.DeleteFavoriteEffect | app/src/main/java/com/example/quotevault/data/local/database/dao/FavoriteDao.kt:53-54 | `deleteFavorite(u, q)` removes the (u, q) row, leaves every other pair's rows, and keeps keys unique |
| FavoriteDao.DeleteAllFavoritesEffect | app/src/main/java/com/example/quotevault/data/local/database/dao/FavoriteDao.kt:56-57 | `deleteAllFavorites(u)` removes exactly u's rows and leaves every other user's rows |
| FavoriteDao.FavoriteQuotesMeans | app/src/main/java/com/example/quotevault/data/local/database/dao/FavoriteDao.kt:15-21 | the favourite-quotes join holds exactly the cached quotes of u's favourite rows; favourites of uncached quotes are omitted |
| FavoriteDao.FavoriteQuotesNewestFirst | app/src/main/java/com/example/quotevault/data/local/database/dao/FavoriteDao.kt:15-21 | `ORDER BY f.created_at DESC`: of two listed quotes, the earlier one has a favourite row of u at least as new as the later one's |
| CollectionDao.MembershipQueriesMean | app/src/main/java/com/example/quotevault/data/local/database/dao/CollectionDao.kt:51-58 | `isQuoteInCollection(c, q)` iff a (c, q) row exists, and the id lists for a quote and for a collection agree with it |
| CollectionDao.SortedMemberIdsMean | app/src/main/java/com/example/quotevault/data/local/database/dao/CollectionDao.kt:28-34 | ordering a collection's memberships by `added_at` neither adds nor drops a quote id: an id is in the ordered list iff the (c, id) row exists |
| CollectionDao.CountFollowsMemberships | app/src/main/java/com/example/quotevault/data/local/database/dao/CollectionDao.kt:45-49 | adding a membership for a quote not yet in the collection, with a fresh row id, raises the collection's count by one |
| CollectionDao.RemoveAllMembershipsCount | app/src/main/java/com/example/quotevault/data/local/database/dao/CollectionDao.kt:45-49 | after `removeAllQuotesFromCollection(c)` the count for c is 0 |
| CollectionDao.AtMostOneMembershipPerPair | app/src/main/java/com/example/quotevault/data/local/database/entity/CollectionEntity.kt:42 | the unique index allows at most one row per (collection, quote) |
| CollectionDao.ReplaceMembershipValid | app/src/main/java/com/example/quotevault/data/local/database/dao/CollectionDao.kt:76-77 | REPLACE keeps the membership id and the (collection, quote) index unique |
| CollectionDao.ReplaceMembershipsValid | app/src/main/java/com/example/quotevault/data/local/database/dao/CollectionDao.kt:79-80 | a batch REPLACE keeps both keys unique |
| CollectionDao.AddTwiceRemoveOnce | app/src/main/java/com/example/quotevault/data/local/database/dao/CollectionDao.kt:76-83 | inserting the same pair twice leaves only the second row, and one removal leaves none |
| CollectionDao.RemoveMembershipEffect | app/src/main/java/com/example/quotevault/data/local/database/dao/CollectionDao.kt:82-83 | `removeQuoteFromCollection(c, q)` deletes the (c, q) row and leaves every other pair's rows |
| CollectionDao.RemoveAllMembershipsEffect | app/src/main/java/com/example/quotevault/data/local/database/dao/CollectionDao.kt:85-86 | `removeAllQuotesFromCollection(c)` deletes exactly c's rows |
| CollectionDao.DeleteCollectionEffect | app/src/main/java/com/example/quotevault/data/local/database/dao/CollectionDao.kt:69-70 | `deleteCollection(id)` removes exactly the rows with that id, so the id is no longer found |
| CollectionDao.DeleteAllCollectionsEffect | app/src/main/java/com/example/quotevault/data/local/database/dao/CollectionDao.kt:72-73 | `deleteAllCollections(u)` leaves u no collection and keeps every other user's collections |
| CollectionDao.UpdateCollectionEffect | app/src/main/java/com/example/quotevault/data/local/database/dao/CollectionDao.kt:66-67 | the update changes only name, description and cover colour of the matching row; ids, owner, visibility, timestamps and the other rows stay |
| CollectionDao.UpdateMissingCollection | app/src/main/java/com/example/quotevault/data/local/database/dao/CollectionDao.kt:66-67 | updating an absent id changes nothing |
| CollectionDao.QuotesInCollectionSound | app/src/main/java/com/example/quotevault/data/local/database/dao/CollectionDao.kt:28-34 | every quote in a collection's join is cached and has a membership row |
| CollectionDao.QuotesInCollectionComplete | app/src/main/java/com/example/quotevault/data/local/database/dao/CollectionDao.kt:28-34 | every cached quote with a membership row appears in the join |
| CollectionDao.QuotesInCollectionNewestFirst | app/src/main/java/com/example/quotevault/data/local/database/dao/CollectionDao.kt:28-34 | `ORDER BY cq.added_at DESC`: of two listed quotes, the earlier one has a membership row in c at least as new as the later one's |
| CollectionDao.ReplaceCollectionValid | app/src/main/java/com/example/quotevault/data/local/database/dao/CollectionDao.kt:60-61 | `insertCollection` keeps collection ids unique |
| CollectionDao.DeleteCollectionValid | app/src/main/java/com/example/quotevault/data/local/database/dao/CollectionDao.kt:69-70 | `deleteCollection` keeps collection ids unique |
| CollectionDao.DeleteAllCollectionsValid | app/src/main/java/com/example/quotevault/data/local/database/dao/CollectionDao.kt:72-73 | `deleteAllCollections` keeps collection ids unique |
| CollectionDao.RemoveMembershipValid | app/src/main/java/com/example/quotevault/data/local/database/dao/CollectionDao.kt:82-83 | removing a membership keeps both keys unique |
| CollectionDao.CollectionsOfOwned | app/src/main/java/com/example/quotevault/data/local/database/dao/CollectionDao.kt:16-20 | a user's collections are exactly those rows with that owner, newest first |
| CollectionDao.CollectionByIdFinds | app/src/main/java/com/example/quotevault/data/local/database/dao/CollectionDao.kt:22-23 | with unique ids, `getCollectionById(id)` returns the one row with that id |
| Store.Database.constructor | app/src/main/java/com/example/quotevault/data/local/database/dao/QuoteDao.kt:10-11 | a new database has empty tables that satisfy every key constraint |
| Store.Database.InsertQuote | app/src/main/java/com/example/quotevault/data/local/database/dao/QuoteDao.kt:48-49 | the quotes table becomes its REPLACE with the row; other tables unchanged; keys stay unique |
| Store.Database.InsertQuotes | app/src/main/java/com/example/quotevault/data/local/database/dao/QuoteDao.kt:51-52 | the quotes table becomes the batch REPLACE; other tables unchanged |
| Store.Database.DeleteQuote | app/src/main/java/com/example/quotevault/data/local/database/dao/QuoteDao.kt:54-55 | the quotes table loses that id's rows; other tables unchanged |
| Store.Database.DeleteAllQuotes | app/src/main/java/com/example/quotevault/data/local/database/dao/QuoteDao.kt:57-58 | the quotes table becomes empty; other tables unchanged |
| Store.Database.InsertCategory | app/src/main/java/com/example/quotevault/data/local/database/dao/CategoryDao.kt:25-26 | the categories table becomes its REPLACE with the row; other tables unchanged |
| Store.Database.InsertCategories | app/src/main/java/com/example/quotevault/data/local/database/dao/CategoryDao.kt:28-29 | the categories table becomes the batch REPLACE; other tables unchanged |
| Store.Database.DeleteCategory | app/src/main/java/com/example/quotevault/data/local/database/dao/CategoryDao.kt:31-32 | the categories table loses that id's rows; other tables unchanged |
| Store.Database.DeleteAllCategories | app/src/main/java/com/example/quotevault/data/local/database/dao/CategoryDao.kt:34-35 | the categories table becomes empty; other tables unchanged |
| Store.Database.InsertFavorite | app/src/main/java/com/example/quotevault/data/local/database/dao/FavoriteDao.kt:47-48 | the favorites table becomes its REPLACE with the row; other tables unchanged |
| Store.Database.InsertFavorites | app/src/main/java/com/example/quotevault/data/local/database/dao/FavoriteDao.kt:50-51 | the favorites table becomes the batch REPLACE; other tables unchanged |
| Store.Database.DeleteFavorite | app/src/main/java/com/example/quotevault/data/local/database/dao/FavoriteDao.kt:53-54 | the favorites table loses the (u, q) rows; other tables unchanged |
| Store.Database.DeleteAllFavorites | app/src/main/java/com/example/quotevault/data/local/database/dao/FavoriteDao.kt:56-57 | the favorites table loses u's rows; other tables unchanged |
| Store.Database.InsertCollection | app/src/main/java/com/example/quotevault/data/local/database/dao/CollectionDao.kt:60-61 | the collections table becomes its REPLACE with the row; other tables unchanged |
| Store.Database.InsertCollections | app/src/main/java/com/example/quotevault/data/local/database/dao/CollectionDao.kt:63-64 | the collections table becomes the batch REPLACE; other tables unchanged |
| Store.Database.UpdateCollection | app/src/main/java/com/example/quotevault/data/local/database/dao/CollectionDao.kt:66-67 | the collections table becomes the UPDATE of the three columns; other tables unchanged |
| Store.Database.DeleteCollection | app/src/main/java/com/example/quotevault/data/local/database/dao/CollectionDao.kt:69-70 | the collections table loses that id; memberships and other tables unchanged |
| Store.Database.DeleteAllCollections | app/src/main/java/com/example/quotevault/data/local/database/dao/CollectionDao.kt:72-73 | the collections table loses u's rows; no membership row is touched |
| Store.Database.InsertCollectionQuote | app/src/main/java/com/example/quotevault/data/local/database/dao/CollectionDao.kt:76-77 | the memberships table becomes its REPLACE with the row; other tables unchanged |
| Store.Database.InsertCollectionQuotes | app/src/main/java/com/example/quotevault/data/local/database/dao/CollectionDao.kt:79-80 | the memberships table becomes the batch REPLACE; other tables unchanged |
| Store.Database.RemoveQuoteFromCollection | app/src/main/java/com/example/quotevault/data/local/database/dao/CollectionDao.kt:82-83 | the memberships table loses the (c, q) row; other tables unchanged |
| Store.Database.RemoveAllQuotesFromCollection | app/src/main/java/com/example/quotevault/data/local/database/dao/CollectionDao.kt:85-86 | the memberships table loses c's rows; other tables unchanged |
| Flags.FavoriteIdsMean | app/src/main/java/com/example/quotevault/data/repository/QuoteRepositoryImpl.kt:174-186 | a quote id is in the favourite-id set iff a user is signed in and has that favourite; with no user the set is empty |
| Flags.WithFlags | app/src/main/java/com/example/quotevault/data/repository/QuoteRepositoryImpl.kt:41-48 | each entity maps to its domain quote, in order, flagged iff its id is in the set |
| Flags.WithFlagsPage | app/src/main/java/com/example/quotevault/data/repository/QuoteRepositoryImpl.kt:50-55 | flagging a page gives the page of the flagged list |
| Flags.NoUserNoFlags | app/src/main/java/com/example/quotevault/data/repository/QuoteRepositoryImpl.kt:174-186 | with no user no quote is flagged |
| Flags.FlagOne | app/src/main/java/com/example/quotevault/data/repository/QuoteRepositoryImpl.kt:91-94 | a missing row stays missing; a present one maps to its quote flagged iff its id is in the set |
| QuoteRepo.WithFlagsFlagged | app/src/main/java/com/example/quotevault/data/repository/QuoteRepositoryImpl.kt:41-186 | the flag join marks a quote iff the current user has it as a favourite |
| QuoteRepo.WithQuoteCounts | app/src/main/java/com/example/quotevault/data/repository/QuoteRepositoryImpl.kt:143-150 | each category, in order, carries as its count the number of cached quotes in it |
| QuoteRepo.QuoteOfDayChoice | app/src/main/java/com/example/quotevault/data/repository/QuoteRepositoryImpl.kt:105-121 | the remote record's quote when there is one; otherwise, also on any exception, the local random quote; none only when both are missing |
| QuoteRepo.QuoteRepository.constructor | app/src/main/java/com/example/quotevault/data/repository/QuoteRepositoryImpl.kt:30-36 | the repository reads and writes the given database |
| QuoteRepo.QuoteRepository.FavoriteIds | app/src/main/java/com/example/quotevault/data/repository/QuoteRepositoryImpl.kt:174-186 | the ids of the current user's favourites, empty with no user |
| QuoteRepo.QuoteRepository.Quotes | app/src/main/java/com/example/quotevault/data/repository/QuoteRepositoryImpl.kt:41-48 | all cached quotes newest first, each flagged iff it is the user's favourite |
| QuoteRepo.QuoteRepository.QuotesPaginated | app/src/main/java/com/example/quotevault/data/repository/QuoteRepositoryImpl.kt:50-55 | the page at offset page*pageSize of `Quotes` |
| QuoteRepo.QuoteRepository.QuotesByCategory | app/src/main/java/com/example/quotevault/data/repository/QuoteRepositoryImpl.kt:57-64 | the category's quotes only, newest first and flagged |
| QuoteRepo.FlaggedInCategory | app/src/main/java/com/example/quotevault/data/repository/QuoteRepositoryImpl.kt:57-64 | attaching the favourite flags keeps every quote's category |
| QuoteRepo.QuoteRepository.QuotesByCategoryPaginated | app/src/main/java/com/example/quotevault/data/repository/QuoteRepositoryImpl.kt:66-71 | the page at offset page*pageSize of the category's quotes |
| QuoteRepo.QuoteRepository.SearchQuotes | app/src/main/java/com/example/quotevault/data/repository/QuoteRepositoryImpl.kt:73-80 | the quotes whose text or author matches, flagged |
| QuoteRepo.FlaggedMatching | app/src/main/java/com/example/quotevault/data/repository/QuoteRepositoryImpl.kt:73-80 | attaching the favourite flags keeps every quote matching the search |
| QuoteRepo.QuoteRepository.QuotesByAuthor | app/src/main/java/com/example/quotevault/data/repository/QuoteRepositoryImpl.kt:82-89 | the quotes whose author matches, flagged |
| QuoteRepo.QuoteRepository.QuoteById | app/src/main/java/com/example/quotevault/data/repository/QuoteRepositoryImpl.kt:91-94 | null for an absent id; otherwise the mapped row with its favourite flag |
| QuoteRepo.QuoteRepository.RandomQuote | app/src/main/java/com/example/quotevault/data/repository/QuoteRepositoryImpl.kt:123-126 | null iff the table is empty; otherwise some cached row, flagged |
| QuoteRepo.QuoteRepository.QuoteOfDay | app/src/main/java/com/example/quotevault/data/repository/QuoteRepositoryImpl.kt:105-121 | the remote quote of the day flagged from the local favourites if it has one; otherwise the random local quote; null iff neither exists |
| QuoteRepo.QuoteRepository.Categories | app/src/main/java/com/example/quotevault/data/repository/QuoteRepositoryImpl.kt:143-150 | every category in `sort_order` order, with its count of cached quotes |
| QuoteRepo.QuoteRepository.CategoryById | app/src/main/java/com/example/quotevault/data/repository/QuoteRepositoryImpl.kt:152-157 | null for an absent id; otherwise the category with its quote count |
| QuoteRepo.QuoteRepository.RefreshQuotes | app/src/main/java/com/example/quotevault/data/repository/QuoteRepositoryImpl.kt:128-141 | a failed fetch fails with its message and leaves the table; success upserts every fetched quote and never deletes a local quote missing remotely |
| QuoteRepo.QuoteRepository.RefreshCategories | app/src/main/java/com/example/quotevault/data/repository/QuoteRepositoryImpl.kt:159-172 | a failed fetch fails and leaves the table; success upserts every fetched category and keeps the others |
| QuoteRepo.FortyFiveQuotePages | app/src/main/java/com/example/quotevault/data/repository/QuoteRepositoryImpl.kt:50-55 | with 45 quotes at size 20, pages 0, 1, 2 and 3 are items 0-19, 20-39, 40-44 and nothing |
| QuoteRepo.NoUserNoFavorites | app/src/main/java/com/example/quotevault/data/repository/QuoteRepositoryImpl.kt:174-186 | with no user every quote read returns only unflagged quotes |
| FavoriteRepo.SyncFavoritesMeans | app/src/main/java/com/example/quotevault/data/repository/FavoriteRepositoryImpl.kt:134-142 | after a successful sync, q is one of the user's favourites iff some fetched row names q |
| FavoriteRepo.AllFavorite | app/src/main/java/com/example/quotevault/data/repository/FavoriteRepositoryImpl.kt:34-39 | every favourite quote read is mapped in order with `isFavorite = true` |
| FavoriteRepo.SyncFavoritesReplacesOwn | app/src/main/java/com/example/quotevault/data/repository/FavoriteRepositoryImpl.kt:134-142 | after a successful sync the user's rows are exactly the fetched rows, in order |
| FavoriteRepo.SyncFavoritesKeepsOthers | app/src/main/java/com/example/quotevault/data/repository/FavoriteRepositoryImpl.kt:134-142 | a sync leaves every other user's rows as they were |
| FavoriteRepo.FavoriteRepository.constructor | app/src/main/java/com/example/quotevault/data/repository/FavoriteRepositoryImpl.kt:24-30 | the repository works on the given database |
| FavoriteRepo.FavoriteRepository.FavoriteQuotes | app/src/main/java/com/example/quotevault/data/repository/FavoriteRepositoryImpl.kt:34-39 | empty with no user; otherwise, position by position, the rows of the favourites join mapped with `isFavorite = true`, each one of the user's favourites |
| FavoriteRepo.AllFavoriteJoined | app/src/main/java/com/example/quotevault/data/repository/FavoriteRepositoryImpl.kt:34-39 | every quote of the favourites join, flagged, is one of the user's favourites |
| FavoriteRepo.FavoriteQuotesListed | app/src/main/java/com/example/quotevault/data/repository/FavoriteRepositoryImpl.kt:34-39 | for a signed-in user a quote is listed iff the user has it as a favourite and it is cached |
| FavoriteRepo.FavoriteQuotesOrdered | app/src/main/java/com/example/quotevault/data/repository/FavoriteRepositoryImpl.kt:34-39 | for a signed-in user the list is newest favourite first |
| FavoriteRepo.FavoriteRepository.FavoriteQuotesPaginated | app/src/main/java/com/example/quotevault/data/repository/FavoriteRepositoryImpl.kt:41-46 | the page at offset page*pageSize of the favourite quotes |
| FavoriteRepo.FavoriteRepository.FavoriteQuoteIds | app/src/main/java/com/example/quotevault/data/repository/FavoriteRepositoryImpl.kt:58-61 | an id is listed iff `isFavoriteSync` holds for it |
| FavoriteRepo.FavoriteRepository.AddFavorite | app/src/main/java/com/example/quotevault/data/repository/FavoriteRepositoryImpl.kt:63-88 | no user gives "Not logged in" with nothing written or sent; otherwise success whatever the remote outcome, the row REPLACEd locally and the insert sent |
| FavoriteRepo.FavoriteRepository.RemoveFavorite | app/src/main/java/com/example/quotevault/data/repository/FavoriteRepositoryImpl.kt:90-114 | no user gives "Not logged in" with nothing changed; otherwise success whatever the remote outcome, with the (user, quote) row deleted |
| FavoriteRepo.FavoriteRepository.ToggleFavorite | app/src/main/java/com/example/quotevault/data/repository/FavoriteRepositoryImpl.kt:116-123 | no user fails and changes nothing; otherwise the result is the negation of the prior state, the table then agrees with it, and other pairs are untouched |
| FavoriteRepo.FavoriteRepository.SyncFavorites | app/src/main/java/com/example/quotevault/data/repository/FavoriteRepositoryImpl.kt:125-148 | no user or a failed fetch leaves the table untouched and fails; success replaces the user's rows with the fetched ones |
| CollectionRepo.SyncedMembersOf | app/src/main/java/com/example/quotevault/data/repository/CollectionRepositoryImpl.kt:244-252 | after a successful loop step the collection's rows are exactly the fetched memberships, in fetched order |
| CollectionRepo.SyncedMembershipsMeans | app/src/main/java/com/example/quotevault/data/repository/CollectionRepositoryImpl.kt:244-252 | after a successful loop step, q is in the collection iff some fetched membership names q |
| CollectionRepo.WithCounts | app/src/main/java/com/example/quotevault/data/repository/CollectionRepositoryImpl.kt:41-48 | each collection, in order, carries its membership-row count and no quotes |
| CollectionRepo.SucceededPrefix | app/src/main/java/com/example/quotevault/data/repository/CollectionRepositoryImpl.kt:239-253 | the number of collections whose membership fetch succeeded before the first that failed |
| CollectionRepo.SyncedMembershipsStep | app/src/main/java/com/example/quotevault/data/repository/CollectionRepositoryImpl.kt:244-252 | one loop step deletes the collection's memberships, then inserts the fetched ones |
| CollectionRepo.SyncStopsAtFirstFailure | app/src/main/java/com/example/quotevault/data/repository/CollectionRepositoryImpl.kt:239-258 | when the first membership fetch fails, no membership row has been rewritten |
| CollectionRepo.SyncRewritesCollectionsFirst | app/src/main/java/com/example/quotevault/data/repository/CollectionRepositoryImpl.kt:235-236 | after the collection rewrite every fetched collection id is present |
| CollectionRepo.CollectionRepository.constructor | app/src/main/java/com/example/quotevault/data/repository/CollectionRepositoryImpl.kt:31-36 | the repository works on the given database |
| CollectionRepo.CollectionRepository.Collections | app/src/main/java/com/example/quotevault/data/repository/CollectionRepositoryImpl.kt:41-49 | empty with no user; otherwise, position by position, the rows of `getCollections(u)`, each owned by the user with its membership-row count and no quotes |
| CollectionRepo.CollectionRepository.CollectionById | app/src/main/java/com/example/quotevault/data/repository/CollectionRepositoryImpl.kt:51-56 | null for an absent id; otherwise the row with its membership count |
| CollectionRepo.CollectionRepository.QuotesInCollection | app/src/main/java/com/example/quotevault/data/repository/CollectionRepositoryImpl.kt:67-81 | position by position the rows of the collection join, each flagged iff it is the user's favourite, and all unflagged with no user |
| CollectionRepo.CollectionRepository.QuotesInCollectionPaginated | app/src/main/java/com/example/quotevault/data/repository/CollectionRepositoryImpl.kt:83-92 | the page at offset page*pageSize of the collection's quotes |
| CollectionRepo.CollectionsListed | app/src/main/java/com/example/quotevault/data/repository/CollectionRepositoryImpl.kt:41-49 | for a signed-in user exactly the user's collections are listed, newest first |
| CollectionRepo.QuotesInCollectionListed | app/src/main/java/com/example/quotevault/data/repository/CollectionRepositoryImpl.kt:67-81 | a quote is listed iff it is in the collection and cached |
| CollectionRepo.QuotesInCollectionOrdered | app/src/main/java/com/example/quotevault/data/repository/CollectionRepositoryImpl.kt:67-81 | the list is newest membership first |
| CollectionRepo.CollectionRepository.CreateCollection | app/src/main/java/com/example/quotevault/data/repository/CollectionRepositoryImpl.kt:102-138 | no user gives "Not logged in" with nothing inserted; otherwise one row owned by the user with the given fields, returned with count 0, whatever the remote outcome; the remote insert carries no id |
| CollectionRepo.CollectionRepository.UpdateCollection | app/src/main/java/com/example/quotevault/data/repository/CollectionRepositoryImpl.kt:140-159 | the local UPDATE runs; an absent id gives "Collection not found"; otherwise the result is the re-read `getCollectionById(id)`: the new name, description and colour, owner, visibility and timestamps as before, and its count, whatever the remote outcome |
| CollectionRepo.CollectionRepository.DeleteCollection | app/src/main/java/com/example/quotevault/data/repository/CollectionRepositoryImpl.kt:161-178 | memberships are removed and then the row; afterwards the count is 0 and the id is not found; always success |
| CollectionRepo.CollectionRepository.AddQuoteToCollection | app/src/main/java/com/example/quotevault/data/repository/CollectionRepositoryImpl.kt:180-202 | the membership is REPLACEd, so the pair has exactly the new row; success whatever the remote outcome |
| CollectionRepo.CollectionRepository.RemoveQuoteFromCollection | app/src/main/java/com/example/quotevault/data/repository/CollectionRepositoryImpl.kt:204-225 | the pair's row is deleted; success whatever the remote outcome |
| CollectionRepo.CollectionRepository.SyncCollections | app/src/main/java/com/example/quotevault/data/repository/CollectionRepositoryImpl.kt:227-259 | no user or a failed first fetch changes nothing; otherwise the user's collections are rewritten and memberships are synced up to the first failing fetch, which is returned, leaving partial state |
| CollectionRepo.CollectionRepository.SyncMemberships | app/src/main/java/com/example/quotevault/data/repository/CollectionRepositoryImpl.kt:239-253 | the loop rewrites each collection's memberships in order and stops at the first failed fetch with its message |
| DailyQuoteWorker.MinuteOfDay | app/src/main/java/com/example/quotevault/notification/DailyQuoteWorker.kt:57-58 | the minute of the day of a valid time lies in 0..1439 |
| DailyQuoteWorker.DelayMinutes | app/src/main/java/com/example/quotevault/notification/DailyQuoteWorker.kt:57-62 | 0 <= delay < 1440, the current minute plus the delay is the target modulo 1440, and the delay is 0 iff the times' minutes agree |
| DailyQuoteWorker.DelayIsUnique | app/src/main/java/com/example/quotevault/notification/DailyQuoteWorker.kt:57-62 | the delay is the only value in 0..1439 that reaches the target |
| DailyQuoteWorker.Schedule | app/src/main/java/com/example/quotevault/notification/DailyQuoteWorker.kt:53-75 | the request is the unique periodic work `daily_quote_notification`, every 24 hours, policy UPDATE, with that delay |
| DailyQuoteWorker.DoWork | app/src/main/java/com/example/quotevault/notification/DailyQuoteWorker.kt:30-48 | notifications off gives success without fetching; otherwise the quote of the day is notified iff there is one; any exception gives retry |
| Mappers.NewQuoteRoundTrip | app/src/main/java/com/example/quotevault/domain/model/Quote.kt:5-15 | a quote built with its defaults comes back unchanged, as a non-favourite, from the local row |
| Domain.FormattedQuote | app/src/main/java/com/example/quotevault/domain/model/Quote.kt:17-18 | the text between two double quotes, so |text| + 2 characters |
| Domain.ShareTextShape | app/src/main/java/com/example/quotevault/domain/model/Quote.kt:20-21 | the share text is the formatted quote, the literal separator characters and the author: it starts with the formatted quote and ends with the author |
| Domain.NewCategoryIcon | app/src/main/java/com/example/quotevault/domain/model/Category.kt:10-37 | a category built with the default icon name shows the built-in icon of its lower-cased name, whatever the case, id or display name |
| Domain.IconLookup | app/src/main/java/com/example/quotevault/domain/model/Category.kt:29-37 | the icon name wins when set; otherwise the lookup ignores case, gives the bulb for unknown names and another icon for the five known names |
| Domain.ColorLookup | app/src/main/java/com/example/quotevault/domain/model/Category.kt:19-27 | the colour lookup ignores case, and an unknown name gets the colour of "wisdom" |
| Domain.FirstLetters | app/src/main/java/com/example/quotevault/domain/model/User.kt:13-16 | at most one letter per piece |
| Domain.FirstLettersOfNonEmpty | app/src/main/java/com/example/quotevault/domain/model/User.kt:13-16 | one letter for each non-empty piece, in order: the upper-cased first character of that piece |
| Domain.InitialsOfDisplayName | app/src/main/java/com/example/quotevault/domain/model/User.kt:12-16 | with a display name the initials are, in order, the upper-cased first characters of the non-empty pieces among the first two pieces: at most 2 characters, independent of the email, and "" gives "" |
| Domain.InitialsOfWords | app/src/main/java/com/example/quotevault/domain/model/User.kt:12-16 | "a b" gives the two upper-cased first letters and "a" gives one |
| Domain.InitialsSkipEmptyPieces | app/src/main/java/com/example/quotevault/domain/model/User.kt:12-16 | a doubled space after the first word, or a leading space, leaves a single initial |
| Domain.InitialsOfEmail | app/src/main/java/com/example/quotevault/domain/model/User.kt:17-18 | without a display name: the upper-cased first letter of the email, or "U" for an empty email |
| Domain.DisplayNameOrEmailMeans | app/src/main/java/com/example/quotevault/domain/model/User.kt:20-21 | the display name if set, else the email up to its first "@", or the whole email without one |
| Extensions.CapitalizeWordsPointwise | app/src/main/java/com/example/quotevault/core/common/Extensions.kt:81-85 | same length; a character is capitalised iff it starts the string or follows a space; every other character is kept |
| Extensions.CapitalizeWordsPieces | app/src/main/java/com/example/quotevault/core/common/Extensions.kt:81-85 | the " "-pieces of the result are the pieces of the input with their first letter capitalised, so the piece count is kept |
| Extensions.CapitalizeWordsIdempotent | app/src/main/java/com/example/quotevault/core/common/Extensions.kt:81-85 | capitalising twice is capitalising once |
| Extensions.OrEmptyNotBlank | app/src/main/java/com/example/quotevault/core/common/Extensions.kt:87-89 | `isNotNullOrBlank()` holds iff `orEmpty()` is not blank, and `orEmpty()` is "" iff the string is null or empty |
| Extensions.IsNotNullOrBlankMeans | app/src/main/java/com/example/quotevault/core/common/Extensions.kt:89 | true iff the string is present and has a non-whitespace character |
| QuoteLists.PatchFavorite | app/src/main/java/com/example/quotevault/presentation/home/HomeViewModel.kt:153-160 | length and order kept; quotes with the id get the new flag; all other quotes and fields are unchanged |
| QuoteLists.PatchFavoriteOne | app/src/main/java/com/example/quotevault/presentation/home/HomeViewModel.kt:156-158 | the quote of the day is patched only when its id matches |
| Seqs.Take | app/src/main/java/com/example/quotevault/presentation/home/HomeViewModel.kt:66-75 | `take(n)` is the prefix of length min(n, size), for lists and the time string alike |
| QuoteLists.PatchFavoriteLastWins | app/src/main/java/com/example/quotevault/presentation/home/HomeViewModel.kt:149-166 | two toggles' patches compose to the last one's |
| QuoteLists.PatchFavoriteUndo | app/src/main/java/com/example/quotevault/presentation/home/HomeViewModel.kt:149-166 | patching to the opposite flag and back restores the list |
| QuoteLists.WithoutId | app/src/main/java/com/example/quotevault/presentation/collections/CollectionsViewModel.kt:165-173 | exactly the quotes with another id remain, and a list without the id is kept as is |
| QuoteLists.WithoutIdKeepsOrder | app/src/main/java/com/example/quotevault/presentation/collections/CollectionsViewModel.kt:165-173 | the filter distributes over concatenation, so the order of the remaining quotes is kept |
| QuoteLists.Minus | app/src/main/java/com/example/quotevault/presentation/quotedetail/QuoteDetailViewModel.kt:111-115 | `List.minus(x)` is one shorter when x occurs and the identity otherwise |
| QuoteLists.IndexOf | app/src/main/java/com/example/quotevault/presentation/quotedetail/QuoteDetailViewModel.kt:111-115 | the index of the first occurrence, or the length when absent |
| QuoteLists.MinusRemovesFirst | app/src/main/java/com/example/quotevault/presentation/quotedetail/QuoteDetailViewModel.kt:111-115 | `minus` removes exactly the first occurrence |
| QuoteLists.MinusMultiset | app/src/main/java/com/example/quotevault/presentation/quotedetail/QuoteDetailViewModel.kt:111-115 | `minus` takes one copy of x out of the multiset |
| QuoteLists.AddThenMinus | app/src/main/java/com/example/quotevault/presentation/quotedetail/QuoteDetailViewModel.kt:95-115 | adding then removing an id restores the multiset, and an id added once is gone again |
| HomeScreen.AfterLoadMore | app/src/main/java/com/example/quotevault/presentation/home/HomeViewModel.kt:129-141 | the page is appended, currentPage goes up by 1, hasMorePages iff the page has 20 items, isLoadingMore ends false, no other field changes |
| HomeScreen.FirstPage | app/src/main/java/com/example/quotevault/presentation/home/HomeViewModel.kt:66-114 | the first 20 quotes are kept, currentPage 0, hasMorePages iff more than 20 arrived, the error cleared |
| HomeScreen.HomeViewModel.constructor | app/src/main/java/com/example/quotevault/presentation/home/HomeViewModel.kt:18-28 | the initial UI state |
| HomeScreen.HomeViewModel.ObserveAuth | app/src/main/java/com/example/quotevault/presentation/home/HomeViewModel.kt:45-51 | only isLoggedIn follows the auth stream |
| HomeScreen.HomeViewModel.LoadData | app/src/main/java/com/example/quotevault/presentation/home/HomeViewModel.kt:53-97 | success shows the first page; on failure the cached list is shown whole, with its first quote as quote of the day; the error is set only when that list is empty; with no cache either, the message or the fallback |
| HomeScreen.HomeViewModel.Refresh | app/src/main/java/com/example/quotevault/presentation/home/HomeViewModel.kt:99-123 | success shows the first page; failure keeps the list and sets the error; isRefreshing ends false |
| HomeScreen.HomeViewModel.LoadMore | app/src/main/java/com/example/quotevault/presentation/home/HomeViewModel.kt:125-147 | a no-op while loading more or without more pages; otherwise page currentPage+1 is requested; success is `AfterLoadMore`; failure changes nothing |
| HomeScreen.HomeViewModel.ToggleFavorite | app/src/main/java/com/example/quotevault/presentation/home/HomeViewModel.kt:149-166 | success patches the list and the quote of the day; failure changes nothing |
| HomeScreen.HomeViewModel.ClearError | app/src/main/java/com/example/quotevault/presentation/home/HomeViewModel.kt:168-170 | only the error is cleared |
| HomeScreen.FirstPageIsPageZero | app/src/main/java/com/example/quotevault/presentation/home/HomeViewModel.kt:66-75 | the first page shown is page 0 of the feed |
| HomeScreen.LoadMoreContiguous | app/src/main/java/com/example/quotevault/presentation/home/HomeViewModel.kt:125-141 | after pages 0..k, loading page k+1 shows exactly pages 0..k+1, a prefix of the full list with no gap or repeat |
| HomeScreen.ShortPageStops | app/src/main/java/com/example/quotevault/presentation/home/HomeViewModel.kt:137 | a page with other than 20 items ends paging |
| BrowseScreen.AfterLoadMore | app/src/main/java/com/example/quotevault/presentation/browse/BrowseViewModel.kt:113-123 | the page is appended, currentPage goes up by 1, hasMorePages iff the page has 20 items, no other field changes |
| BrowseScreen.AfterLoad | app/src/main/java/com/example/quotevault/presentation/browse/BrowseViewModel.kt:67-78 | the whole category list is stored, hasMorePages iff at least 20, currentPage untouched |
| BrowseScreen.BrowseViewModel.constructor | app/src/main/java/com/example/quotevault/presentation/browse/BrowseViewModel.kt:18-33 | both UI states start at their defaults |
| BrowseScreen.BrowseViewModel.LoadCategories | app/src/main/java/com/example/quotevault/presentation/browse/BrowseViewModel.kt:51-63 | success stores the categories; failure sets the error; loading ends |
| BrowseScreen.BrowseViewModel.LoadCategoryQuotes | app/src/main/java/com/example/quotevault/presentation/browse/BrowseViewModel.kt:65-84 | success is `AfterLoad`; failure empties the list and sets the error |
| BrowseScreen.BrowseViewModel.RefreshCategoryQuotes | app/src/main/java/com/example/quotevault/presentation/browse/BrowseViewModel.kt:86-105 | success replaces the list and resets currentPage to 0; failure sets the error; isRefreshing ends false |
| BrowseScreen.BrowseViewModel.LoadMoreCategoryQuotes | app/src/main/java/com/example/quotevault/presentation/browse/BrowseViewModel.kt:107-128 | a no-op while loading more or without more pages; otherwise page currentPage+1 is requested; success is `AfterLoadMore`; failure leaves the quotes |
| BrowseScreen.BrowseViewModel.ToggleFavorite | app/src/main/java/com/example/quotevault/presentation/browse/BrowseViewModel.kt:130-143 | success patches only the matching quotes; failure changes nothing |
| BrowseScreen.BrowseViewModel.ClearError | app/src/main/java/com/example/quotevault/presentation/browse/BrowseViewModel.kt:145-148 | only the two errors are cleared |
| BrowseScreen.LoadMoreRepeats | app/src/main/java/com/example/quotevault/presentation/browse/BrowseViewModel.kt:70-119 | after a full load, everything the next load-more appends is already in the list |
| BrowseScreen.FirstLoadMoreDuplicates | app/src/main/java/com/example/quotevault/presentation/browse/BrowseViewModel.kt:70-119 | for a category of more than 20 quotes the first load-more is allowed and appends item 20 a second time |
| CollectionsScreen.CollectionsViewModel.constructor | app/src/main/java/com/example/quotevault/presentation/collections/CollectionsViewModel.kt:19-37 | both UI states start at their defaults |
| CollectionsScreen.CollectionsViewModel.ObserveAuth | app/src/main/java/com/example/quotevault/presentation/collections/CollectionsViewModel.kt:57-66 | isLoggedIn follows the stream, and a sync is started exactly when signed in |
| CollectionsScreen.CollectionsViewModel.ObserveCollections | app/src/main/java/com/example/quotevault/presentation/collections/CollectionsViewModel.kt:68-75 | the list shows the emission and loading ends |
| CollectionsScreen.CollectionsViewModel.Refresh | app/src/main/java/com/example/quotevault/presentation/collections/CollectionsViewModel.kt:77-87 | whatever the sync returns, only isRefreshing changes, to false; a failed sync never shows an error |
| CollectionsScreen.CollectionsViewModel.ShowCreateDialog | app/src/main/java/com/example/quotevault/presentation/collections/CollectionsViewModel.kt:99-101 | only the create-dialog flag, set |
| CollectionsScreen.CollectionsViewModel.HideCreateDialog | app/src/main/java/com/example/quotevault/presentation/collections/CollectionsViewModel.kt:103-105 | only the create-dialog flag, cleared |
| CollectionsScreen.CollectionsViewModel.CreateCollection | app/src/main/java/com/example/quotevault/presentation/collections/CollectionsViewModel.kt:107-118 | success hides the dialog; failure sets the error and keeps it open; isCreating ends false |
| CollectionsScreen.CollectionsViewModel.LoadCollectionDetail | app/src/main/java/com/example/quotevault/presentation/collections/CollectionsViewModel.kt:120-138 | success shows the collection and its quotes; failure sets the error; loading ends |
| CollectionsScreen.CollectionsViewModel.RefreshCollectionDetail | app/src/main/java/com/example/quotevault/presentation/collections/CollectionsViewModel.kt:140-150 | success replaces the quotes; failure sets the error; isRefreshing ends false |
| CollectionsScreen.CollectionsViewModel.DeleteCollection | app/src/main/java/com/example/quotevault/presentation/collections/CollectionsViewModel.kt:152-163 | success hides the dialog and calls back; failure only sets the error |
| CollectionsScreen.CollectionsViewModel.RemoveQuoteFromCollection | app/src/main/java/com/example/quotevault/presentation/collections/CollectionsViewModel.kt:165-174 | success removes every quote with that id, keeping the others; failure changes nothing |
| CollectionsScreen.CollectionsViewModel.ToggleFavorite | app/src/main/java/com/example/quotevault/presentation/collections/CollectionsViewModel.kt:176-189 | success patches the matching detail quotes; failure changes nothing |
| CollectionsScreen.CollectionsViewModel.ShowDeleteDialog | app/src/main/java/com/example/quotevault/presentation/collections/CollectionsViewModel.kt:191-193 | only the delete-dialog flag, set |
| CollectionsScreen.CollectionsViewModel.HideDeleteDialog | app/src/main/java/com/example/quotevault/presentation/collections/CollectionsViewModel.kt:195-197 | only the delete-dialog flag, cleared |
| CollectionsScreen.CollectionsViewModel.ClearError | app/src/main/java/com/example/quotevault/presentation/collections/CollectionsViewModel.kt:199-202 | the error is cleared in both states and nothing else changes |
| QuoteDetailScreen.QuoteDetailViewModel.constructor | app/src/main/java/com/example/quotevault/presentation/quotedetail/QuoteDetailViewModel.kt:19-27 | the initial UI state |
| QuoteDetailScreen.QuoteDetailViewModel.LoadQuote | app/src/main/java/com/example/quotevault/presentation/quotedetail/QuoteDetailViewModel.kt:39-60 | success shows the quote, the collections and the ids holding it; failure sets the error; loading ends |
| QuoteDetailScreen.QuoteDetailViewModel.ToggleFavorite | app/src/main/java/com/example/quotevault/presentation/quotedetail/QuoteDetailViewModel.kt:62-73 | nothing happens without a quote; otherwise the quote's id is asked about and success sets only its flag to the returned value; failure changes nothing |
| QuoteDetailScreen.QuoteDetailViewModel.ShowShareSheet | app/src/main/java/com/example/quotevault/presentation/quotedetail/QuoteDetailViewModel.kt:75-77 | only the share-sheet flag, set |
| QuoteDetailScreen.QuoteDetailViewModel.HideShareSheet | app/src/main/java/com/example/quotevault/presentation/quotedetail/QuoteDetailViewModel.kt:79-81 | only the share-sheet flag, cleared |
| QuoteDetailScreen.QuoteDetailViewModel.ShowCollectionSheet | app/src/main/java/com/example/quotevault/presentation/quotedetail/QuoteDetailViewModel.kt:83-85 | only the collection-sheet flag, set |
| QuoteDetailScreen.QuoteDetailViewModel.HideCollectionSheet | app/src/main/java/com/example/quotevault/presentation/quotedetail/QuoteDetailViewModel.kt:87-89 | only the collection-sheet flag, cleared |
| QuoteDetailScreen.QuoteDetailViewModel.AddToCollection | app/src/main/java/com/example/quotevault/presentation/quotedetail/QuoteDetailViewModel.kt:91-105 | nothing happens without a quote; success appends the id, even when already listed, and closes the sheet; failure changes nothing |
| QuoteDetailScreen.QuoteDetailViewModel.RemoveFromCollection | app/src/main/java/com/example/quotevault/presentation/quotedetail/QuoteDetailViewModel.kt:107-118 | nothing happens without a quote; success removes the first occurrence of the id; failure changes nothing |
| QuoteDetailScreen.QuoteDetailViewModel.ClearError | app/src/main/java/com/example/quotevault/presentation/quotedetail/QuoteDetailViewModel.kt:120-122 | only the error is cleared |
| QuoteDetailScreen.AddTwiceRemoveOnce | app/src/main/java/com/example/quotevault/presentation/quotedetail/QuoteDetailViewModel.kt:95-115 | adding a collection twice and removing it once still lists it once |
| SearchScreen.AfterSearch | app/src/main/java/com/example/quotevault/presentation/search/SearchViewModel.kt:60-77 | a search that ran ends not searching and marks hasSearched; success shows the results; failure keeps the old results and sets the error |
| SearchScreen.SearchViewModel.constructor | app/src/main/java/com/example/quotevault/presentation/search/SearchViewModel.kt:19-36 | the default state and no pending job |
| SearchScreen.SearchViewModel.OnQueryChange | app/src/main/java/com/example/quotevault/presentation/search/SearchViewModel.kt:38-52 | the query is always stored and the old job dropped; a blank query empties the results and clears hasSearched; any other query becomes the pending job |
| SearchScreen.SearchViewModel.Search | app/src/main/java/com/example/quotevault/presentation/search/SearchViewModel.kt:54-79 | a blank query is a no-op; otherwise the state becomes `AfterSearch` |
| SearchScreen.SearchViewModel.RunSearchJob | app/src/main/java/com/example/quotevault/presentation/search/SearchViewModel.kt:47-51 | the pending job searches for the query it was launched with, then none is pending |
| SearchScreen.SearchViewModel.ToggleFavorite | app/src/main/java/com/example/quotevault/presentation/search/SearchViewModel.kt:81-94 | success patches only the matching results; failure changes nothing |
| SearchScreen.SearchViewModel.ClearSearch | app/src/main/java/com/example/quotevault/presentation/search/SearchViewModel.kt:96-98 | every field returns to its default |
| SearchScreen.SearchViewModel.ClearError | app/src/main/java/com/example/quotevault/presentation/search/SearchViewModel.kt:100-102 | only the error is cleared |
| SearchScreen.FailureKeepsResults | app/src/main/java/com/example/quotevault/presentation/search/SearchViewModel.kt:60-77 | a failed search after a successful one still shows the earlier results |
| AuthScreen.SignUpCheck | app/src/main/java/com/example/quotevault/presentation/auth/AuthViewModel.kt:45-57 | the checks run in order — blank email or password, mismatch, fewer than 6 characters — and each message is given iff its check is the first to fail |
| AuthScreen.AuthViewModel.constructor | app/src/main/java/com/example/quotevault/presentation/auth/AuthViewModel.kt:15-23 | the initial UI state |
| AuthScreen.AuthViewModel.ObserveAuth | app/src/main/java/com/example/quotevault/presentation/auth/AuthViewModel.kt:37-43 | the user and isLoggedIn follow the stream |
| AuthScreen.AuthViewModel.SignUp | app/src/main/java/com/example/quotevault/presentation/auth/AuthViewModel.kt:45-69 | the backend is called iff every check passes; a failed check sets its error only; success stores the user and the success flag; failure sets the message or "Sign up failed" |
| AuthScreen.AuthViewModel.SignIn | app/src/main/java/com/example/quotevault/presentation/auth/AuthViewModel.kt:71-87 | a blank email or password sets "Email and password are required" and makes no call; success signs in; failure sets the message or the fallback |
| AuthScreen.AuthViewModel.SignOut | app/src/main/java/com/example/quotevault/presentation/auth/AuthViewModel.kt:89-100 | success clears the user and isLoggedIn; failure sets the error; loading ends |
| AuthScreen.AuthViewModel.ResetPassword | app/src/main/java/com/example/quotevault/presentation/auth/AuthViewModel.kt:102-118 | a blank email sets "Email is required" and makes no call; success sets the reset flag; failure the message or the fallback |
| AuthScreen.AuthViewModel.UpdateProfile | app/src/main/java/com/example/quotevault/presentation/auth/AuthViewModel.kt:120-131 | success stores the user and the profile flag; failure sets the error; loading ends |
| AuthScreen.AuthViewModel.UploadAvatar | app/src/main/java/com/example/quotevault/presentation/auth/AuthViewModel.kt:133-145 | success hands the url to the callback; failure sets the error and makes no callback |
| AuthScreen.AuthViewModel.ClearError | app/src/main/java/com/example/quotevault/presentation/auth/AuthViewModel.kt:147-149 | only the error is cleared |
| AuthScreen.AuthViewModel.ClearSuccess | app/src/main/java/com/example/quotevault/presentation/auth/AuthViewModel.kt:151-153 | exactly the three success flags are cleared |
| AuthScreen.SixCharactersSuffice | app/src/main/java/com/example/quotevault/presentation/auth/AuthViewModel.kt:54 | a matching six-character password passes, and five characters do not |
| AuthScreen.BlankBeforeMismatch | app/src/main/java/com/example/quotevault/presentation/auth/AuthViewModel.kt:46-53 | a blank password is reported as missing even when the confirmation also differs |
| SettingsScreen.SettingsViewModel.constructor | app/src/main/java/com/example/quotevault/presentation/settings/SettingsViewModel.kt:22-26 | the initial UI state over the given repository |
| SettingsScreen.SettingsViewModel.ObserveSettings | app/src/main/java/com/example/quotevault/presentation/settings/SettingsViewModel.kt:41-47 | the shown settings mirror what the repository stream reads |
| SettingsScreen.SettingsViewModel.SetThemeMode | app/src/main/java/com/example/quotevault/presentation/settings/SettingsViewModel.kt:49-54 | the settings passed differ from the shown ones only in the theme mode; the store then holds them |
| SettingsScreen.SettingsViewModel.SetAccentColor | app/src/main/java/com/example/quotevault/presentation/settings/SettingsViewModel.kt:56-61 | the settings passed differ only in the accent colour; the store then holds them |
| SettingsScreen.SettingsViewModel.SetFontSize | app/src/main/java/com/example/quotevault/presentation/settings/SettingsViewModel.kt:63-68 | the settings passed differ only in the font size; the store then holds them |
| SettingsScreen.SettingsViewModel.SetNotificationEnabled | app/src/main/java/com/example/quotevault/presentation/settings/SettingsViewModel.kt:70-81 | only the flag changes; enabling schedules the reminder at the time already set, disabling cancels the unique work |
| SettingsScreen.SettingsViewModel.SetNotificationTime | app/src/main/java/com/example/quotevault/presentation/settings/SettingsViewModel.kt:83-92 | only the time changes; the reminder is rescheduled for the new time only when reminders are enabled |
| SettingsScreen.SettingsViewModel.ClearError | app/src/main/java/com/example/quotevault/presentation/settings/SettingsViewModel.kt:94-96 | only the error is cleared |
| SettingsScreen.SetThemeModeThenObserve | app/src/main/java/com/example/quotevault/presentation/settings/SettingsViewModel.kt:41-54 | after a setter and the stream's next emission the screen shows the old settings with just that field changed |
| Navigation.Prefix | app/src/main/java/com/example/quotevault/presentation/navigation/Screen.kt:31-44 | each builder's fixed part ends in its only `/` |
| Navigation.CreateRoute | app/src/main/java/com/example/quotevault/presentation/navigation/Screen.kt:30-45 | the route is the screen's prefix followed by the id, unchanged |
| Navigation.TemplatesMatchBuilders | app/src/main/java/com/example/quotevault/presentation/navigation/Screen.kt:29-44 | each template is its builder's prefix and a `{param}` placeholder, that is the route built for the id `{param}` |
| Navigation.QuoteTemplate | app/src/main/java/com/example/quotevault/presentation/navigation/Screen.kt:29-31 | the quote detail template is `quote/` and the `{quoteId}` placeholder |
| Navigation.CategoryTemplate | app/src/main/java/com/example/quotevault/presentation/navigation/Screen.kt:32-34 | the category template is `category/` and the `{categoryId}` placeholder |
| Navigation.CollectionTemplate | app/src/main/java/com/example/quotevault/presentation/navigation/Screen.kt:35-37 | the collection template is `collection/` and the `{collectionId}` placeholder |
| Navigation.ShareTemplate | app/src/main/java/com/example/quotevault/presentation/navigation/Screen.kt:42-44 | the share template is `share/` and the `{quoteId}` placeholder |
| Navigation.CreateRouteInjective | app/src/main/java/com/example/quotevault/presentation/navigation/Screen.kt:30-45 | different ids give different routes |
| Navigation.CreateRouteDisjoint | app/src/main/java/com/example/quotevault/presentation/navigation/Screen.kt:30-45 | routes built for different screens never coincide, whatever the ids |
| Navigation.CreateRouteNotPlain | app/src/main/java/com/example/quotevault/presentation/navigation/Screen.kt:18-45 | a built route is never the route of a screen without an id |
| Navigation.RoutesDistinct | app/src/main/java/com/example/quotevault/presentation/navigation/Screen.kt:18-45 | no two screens share a route template |
| Navigation.TabRoute | app/src/main/java/com/example/quotevault/presentation/navigation/Screen.kt:54-83 | every bottom-bar tab's route is the route of its screen, a screen without an id |
| Navigation.TabsDistinct | app/src/main/java/com/example/quotevault/presentation/navigation/Screen.kt:54-83 | the five tabs have distinct routes, and none equals a built item route |

## Left out

- Compose UI: every screen, sheet, card and the navigation host is rendering, intents and navigation wiring. The routes and tab table are modelled; the rest is not.
- Theme, colour, shape and type tables, including the font-size float multipliers, are constants with no logic.
- The remote backend (PostgREST, auth, storage) is never modelled. Its answers are `Result` parameters, and no promise is made about the remote tables. `AuthRepositoryImpl` is not part of this model: `AuthScreen` receives its answers.
- Kotlin `Flow` and `combine`: each stream is one emission. A read is a function of the current tables, and an observer method takes the emitted value.
- Coroutine concurrency: each launched block runs atomically. The toggle race, the load-more guard race and the 300 ms search debounce are not modelled; `searchJob` records only which query a pending job will search for.
- Room, DataStore, WorkManager, widgets, notifications, DI and the application class are platform plumbing. The tables are sequences and the work request is a value. Local reads and writes never throw, so the `catch` around a local write is not modelled.
- `UUID.randomUUID`, `Clock.System`, time zones and `ORDER BY RANDOM()` are parameters. `Extensions.toLocalDate` and `today` depend on zone rules and are left out.
- `Collection.color` calls `android.graphics.Color.parseColor`, a foreign call; `Flow.asResult`, `showToast`, `shareText`, `shareImage` and `ShowToast` are Android calls. All are left out.
- Case mapping and whitespace are ASCII only: Kotlin's Unicode `lowercase`, `uppercaseChar` and `titlecase` agree on ASCII. SQLite `LIKE` is an ASCII case-insensitive substring test, and queries are taken to contain no `%` or `_`. Digits are ASCII only too: `toIntOrNull` also accepts other Unicode decimal digits, which the stored time strings, written by `formatTime`, never contain.
- An `ORDER BY` with equal keys keeps rowid order; SQLite leaves that order unspecified. `getCategoryByName` returns the first matching row by rowid, since names are not unique.
- `FavoritesViewModel` only forwards to the favourite repository, and `UserMapper.kt` is not part of this model.
- Strings are sequences of Unicode scalar values, so a password's length is counted in scalars. Kotlin counts UTF-16 units; the two differ only outside the Basic Multilingual Plane. Icons are compared as whole strings.
- Page arithmetic is over unbounded integers: a negative page and 32-bit overflow of `page * pageSize` are not modelled.
- SettingsStore.SettingsRepository.UpdateSettings: the read-back holds only for times without seconds, because `formatTime` drops the seconds the source's `LocalTime` can carry.
- SettingsScreen.SettingsViewModel.SetThemeMode, SetAccentColor, SetFontSize, SetNotificationEnabled, SetNotificationTime: the store holds the settings passed, read back exactly, only when the time has no seconds, for the same reason.
- CollectionsScreen.CollectionsViewModel.Refresh: the sync it starts is the repository's `SyncCollections`; the view model only receives its result.
