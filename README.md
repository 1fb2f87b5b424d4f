# local-news feed storage and feed conversion, in Dafny

This project models the storage layer of local-news, a terminal feed reader written in
Go, together with the validation and conversion step that turns fetched feed content
into the store's Feed and FeedItem values. It then proves properties of that model.

- **FeedStore** (`internal/store/store.go`, module `Store`). Three SQLite tables: `feed`, `feed_item` and `feed_sync_status`.
  - The constraints are modelled: url is UNIQUE, (feed_id, guid) is UNIQUE, the foreign keys are enforced, and the status row goes with its feed through ON DELETE CASCADE.
  - The prepared statements are modelled with their SQL semantics: `ON CONFLICT … DO NOTHING` and `DO UPDATE SET …` upserts, deletes, and the `ORDER BY` of the queries.
  - The operations are GetOrCreateFeedWithUrl, SyncFeed, DeleteFeed, SetFeedSyncStatusError, RetrieveFeedSyncStatus, RetrieveFeed, RetrieveFeeds and RetrieveFeedItems.
  - `wrapInTx` restarts a busy transaction at most 10 times.
  - The tables are described twice:
    - as a value `Tables`, with one function per statement and per transaction body;
    - as the class `FeedStore`, whose fields hold the same maps. Its methods run the statements in place, and each is proved to leave `Snapshot() ==` what the functions compute.
  - Rollback restores the snapshot taken at BEGIN.
- **sqliteFeedStore** (`internal/store/sqlite.go`, modules `SqliteStore` and `SqliteProperties`). The other snapshot of the store:
  - a `read` flag that defaults to false, MarkRead, and an unread count per feed;
  - select-then-update-or-insert upserts that return the row id;
  - single-shot transactions with no retry;
  - a guid that is UNIQUE across the whole item table;
  - foreign keys that are declared but never enforced.
- **Record types** (`internal/store/record.go`, module `Record`): FeedId, FeedItemId, FeedRecord, FeedItemRecord and FeedSyncStatus. Feed and FeedItem of `internal/feed/feed.go` are in module `FeedTypes`.
- **RSS loader** (`internal/feed/rss.go`, module `Rss`):
  - `validate` reports the first failure found, checking the channel first and then each item in order;
  - `convertToFeedAndFeedItems` is a loop that stops at the first date that does not parse;
  - `LoadFeedFromUrl` is the pipeline fetch → decode → validate → convert.
- **gofeed conversion** (`internal/feed/parser.go`, module `Parser`): `validateFeed`, plus the loop of `ParseExternalFeed`, which falls back from an item's GUID to its link.

The supporting modules:
- `Engine` holds the engine's error kinds and the faults the engine can inject into a transaction attempt.
- `Ordering` holds SQLite's BINARY string collation, the sort keys of the `ORDER BY` clauses, and a sorted insertion.
- `Validation` holds the first-failure loop that both validators share.
- `Decimal` prints an int the way `%v` does, for the HTTP status message.
- `Wrappers` holds Option and Result.

What the engine does to a transaction is a parameter, `Interference`:
- nothing;
- a failing BEGIN;
- a failure reported by statement *i* of the body;
- a failing COMMIT.

A retried transaction gets one `Interference` per attempt. Atomicity is stated for every list of attempts. The retry rule is stated for each outcome an attempt can have:
- a busy error from any statement of the body restarts the transaction while retries remain;
- a busy error on the last attempt is returned;
- any other body error, at any statement, is returned from the attempt that met it;
- a failing BEGIN or COMMIT is returned at once, busy or not. Dates are Unix seconds. The store writes `Unix()` and reads back `time.Unix(sec, 0)`.

Details of the code that are easy to misread:
- store.go's schema has no `read` column, so its FeedRecord.NumUnread is always 0 and its FeedItemRecord.Read is always false. Only sqlite.go counts unread items.
- In sqlite.go, guid is UNIQUE across all feeds, not per feed. Inserting a guid that another feed already uses fails, and the transaction rolls back.
- sqlite.go never runs `PRAGMA foreign_keys = ON`, so an item may reference a feed that is not stored.
- rss.go builds, and sqlite.go reads, a Feed with `Url` and `Name` fields. internal/feed/feed.go declares Feed with `Name` and `Items`. The model keeps both forms: `FeedTypes.Feed` for feed.go and parser.go, and `FeedTypes.UrlFeed` for rss.go and sqlite.go.
- wrapInTx allows 10 *retries*, which is 11 attempts.

## Model

| member | source | states |
|---|---|---|
| FeedTypes.FromUnix | internal/store/store.go:236 | `time.Unix(sec, 0)` is the one time with those seconds and no nanoseconds |
| Ordering.StrLeTotal | internal/store/store.go:334-336 | the BINARY collation orders any two strings |
| Ordering.StrLeTransitive | internal/store/store.go:334-336 | the BINARY collation is transitive |
| Ordering.KeyLeTotal | internal/store/store.go:380-384 | the sort key of an ORDER BY clause orders any two rows |
| Ordering.KeyLeTransitive | internal/store/store.go:380-384 | that order is transitive |
| Ordering.InsertSorted | internal/store/store.go:380-384 | adding a row to a list sorted by the key gives a sorted permutation of the list plus the row |
| Store.EmptyTablesConsistent | internal/store/store.go:293-329 | a freshly installed schema satisfies every constraint |
| Store.UrlsUnique | internal/store/store.go:297 | two stored feeds never share a url |
| Store.ItemKeysUnique | internal/store/store.go:311-312 | two stored items never share both feed and guid |
| Store.InsertFeedOrIgnore | internal/store/store.go:357-359 | a stored url leaves the tables unchanged; a new url adds one feed under the next id; either way the url then names a stored feed |
| Store.UpdateFeedName | internal/store/store.go:366 | only the name of feed `id` changes; an absent id changes nothing |
| Store.UpsertItem | internal/store/store.go:391-399 | an existing (feed, guid) row is overwritten under its id; a new one takes the next id; a new item of an unstored feed fails with the foreign key error |
| Store.UpsertItemConsistent | internal/store/store.go:301-312 | the upsert keeps every constraint and leaves every row with another key unchanged |
| Store.UpsertStatus | internal/store/store.go:413-421 | the feed's status row becomes (now, success, error) and no other table changes; an unstored feed fails with the foreign key error |
| Store.DeleteItemsOf | internal/store/store.go:406 | exactly the feed's items are removed; the other rows are unchanged |
| Store.DeleteFeedRow | internal/store/store.go:322-324 | removes the feed and, by cascade, its status; fails while items reference it; an absent id is a no-op |
| Store.ItemsPhase | internal/store/store.go:130-135 | the item loop keeps the constraints and never touches feeds or statuses |
| Store.SyncFeedBody | internal/store/store.go:124-143 | the SyncFeed body keeps the constraints |
| Store.DeleteFeedBody | internal/store/store.go:148-158 | the DeleteFeed body keeps the constraints |
| Store.Body | internal/store/store.go:124 | every transaction body keeps the constraints |
| Store.WrapInTx | internal/store/store.go:444-467 | ends within MaxRetries + 1 attempts; on an error the tables are those it started from; constraints are kept |
| Store.GetOrCreate | internal/store/store.go:85-117 | a stored url returns its id and changes nothing; a new url adds a placeholder named after the url under the next id; any fault returns (0, error) and changes nothing |
| Store.FeedStore.constructor | internal/store/store.go:39-70 | a new store has empty tables |
| Store.FeedStore.Rollback | internal/store/store.go:453-455 | the tables return to the snapshot |
| Store.FeedStore.InsertFeedStmt | internal/store/store.go:93-95 | the fields end as InsertFeedOrIgnore computes |
| Store.FeedStore.UpdateFeedRecord | internal/store/store.go:480-484 | the fields end as UpdateFeedName computes |
| Store.FeedStore.UpsertFeedItemRecord | internal/store/store.go:492-496 | the fields and error are those of UpsertItem |
| Store.FeedStore.UpsertFeedSyncStatus | internal/store/store.go:504-508 | the fields and error are those of UpsertStatus |
| Store.FeedStore.DeleteItemsInFeed | internal/store/store.go:498-502 | the fields end as DeleteItemsOf computes |
| Store.FeedStore.DeleteFeedRecord | internal/store/store.go:486-490 | the fields and error are those of DeleteFeedRow |
| Store.FeedStore.SyncFeedStatements | internal/store/store.go:124-143 | the loop over the items leaves what SyncFeedBody computes, stopping at the first error |
| Store.FeedStore.DeleteFeedStatements | internal/store/store.go:148-158 | leaves what DeleteFeedBody computes |
| Store.FeedStore.RunBody | internal/store/store.go:452 | runs the closure passed to wrapInTx |
| Store.FeedStore.TryAttempt | internal/store/store.go:452-465 | one attempt: a body error or a failed COMMIT rolls back; otherwise the body's tables are committed |
| Store.FeedStore.WrapInTxMethod | internal/store/store.go:444-467 | the retry loop leaves the tables and error of WrapInTx |
| Store.FeedStore.GetOrCreateFeedWithUrl | internal/store/store.go:85-117 | the fields, id and error are those of GetOrCreate, and the constraints hold |
| Store.FeedStore.SyncFeed | internal/store/store.go:123-144 | the fields and error are those of WrapInTx on the SyncFeed body, and the constraints hold |
| Store.FeedStore.DeleteFeed | internal/store/store.go:147-159 | the fields and error are those of WrapInTx on the DeleteFeed body, and the constraints hold |
| Store.FeedStore.SetFeedSyncStatusError | internal/store/store.go:250-255 | writes a failure status carrying the error's text; an engine fault changes nothing |
| Store.FeedStore.RetrieveFeedSyncStatus | internal/store/store.go:261-285 | found exactly when a status row exists; a found status is successful exactly when it has no error; otherwise the empty status |
| Store.FeedStore.RetrieveFeed | internal/store/store.go:195-210 | the feed's id, url and name with no unread items, or ErrNoRows with an empty record |
| Store.FeedStore.RetrieveFeeds | internal/store/store.go:162-192 | one record per stored feed, sorted by name |
| Store.FeedStore.RetrieveFeedItems | internal/store/store.go:213-247 | exactly the feed's items, sorted by date descending and then title ascending |
| Store.WrapInTxAttempt | internal/store/store.go:446-466 | unfolds one attempt of the retry loop |
| Store.ItemsPhaseNext | internal/store/store.go:130-135 | one more turn of the item loop upserts the next item |
| Store.ItemsPhaseStopsAtFailure | internal/store/store.go:131-134 | after a failing item, the remaining items do not run |
| StoreProperties.GuidsOf | internal/store/store.go:311-312 | the set of guids is exactly the guids of the items |
| StoreProperties.MergeStep | internal/store/store.go:130-135 | upserting one more item extends the merge |
| StoreProperties.ItemsPhaseMerges | internal/store/store.go:119-135 | without faults, every item is stored under its guid holding the last item with that guid; old keys keep their ids; new keys come only from the items; all other rows are untouched |
| StoreProperties.SyncFeedBodyEffect | internal/store/store.go:119-144 | SyncFeed overwrites only the name (id and url stay), merges the items, and records (now, success, no error) |
| StoreProperties.ItemsPhaseKeepsUrls | internal/store/store.go:130-135 | the item loop never changes the url index |
| StoreProperties.CleanAttemptCommits | internal/store/store.go:465 | an attempt without faults commits what its body computes |
| StoreProperties.SyncFeedCommits | internal/store/store.go:123-144 | without faults, SyncFeed commits on the first attempt with the effect above |
| StoreProperties.NewKeysNumbering | internal/store/store.go:391-399 | numbering distinct guids from a first rowid gives guid `i` the rowid first + i |
| StoreProperties.ItemsPhaseNumbersNewItems | internal/store/store.go:130-135 | without faults, items with distinct guids new to the feed are indexed under nextItemId, nextItemId + 1, … in item order, and the next rowid moves past them |
| StoreProperties.SyncFeedBodyNumbersNewItems | internal/store/store.go:119-144 | the rename before the item loop and the status upsert after it leave that numbering as it is |
| StoreProperties.SyncFeedBodyNumbersRow | internal/store/store.go:119-144 | SyncFeed's body stores new item `i` under rowid nextItemId + i, holding that item |
| StoreProperties.SyncFeedNumbersNewItems | internal/store/store.go:119-144 | a clean SyncFeed of distinct new guids commits, and item `i` is indexed and stored under rowid nextItemId + i |
| StoreProperties.SyncFeedNewItemsExample | internal/store/store_test.go:123-145 | on a fresh store, the feed gets id 1, and syncing items "guid.0" and "guid.1" stores them under ids 1 and 2 with their title, url and date |
| StoreProperties.ItemsPhaseOnMissingFeed | internal/store/store.go:308 | items of an unstored feed fail on the first item with the foreign key error |
| StoreProperties.SyncFeedOnMissingFeed | internal/store/store.go:308 | SyncFeed on an unstored feed fails with the foreign key error after one attempt and changes nothing |
| StoreProperties.ItemsPhaseSuccessIsClean | internal/store/store.go:130-135 | an item loop that finished met no fault |
| StoreProperties.BodySuccessIsClean | internal/store/store.go:452 | a body that finished did what a clean run does |
| StoreProperties.WrapInTxAtomic | internal/store/store.go:452-465 | whatever the engine does: either a clean run of the body is committed, or the error comes back with the tables unchanged |
| StoreProperties.FaultAtFirstStatement | internal/store/store.go:125-128 | a fault at statement 0 stops every body without changes |
| StoreProperties.BusyRestarts | internal/store/store.go:452-460 | a busy error reported by the body, at whatever statement, restarts the transaction on the unchanged tables while retries remain |
| StoreProperties.BusyOnLastAttempt | internal/store/store.go:452-462 | a busy error on the eleventh attempt is returned, with no change |
| StoreProperties.BusyExhaustsRetries | internal/store/store.go:442-462 | an engine that stays busy gives the busy error after exactly 11 attempts, with no change |
| StoreProperties.OtherErrorsNotRetried | internal/store/store.go:452-462 | a body error that is not busy, at whatever statement and on whatever attempt, is returned from that attempt with no change |
| StoreProperties.BeginFailureNotRetried | internal/store/store.go:447-450 | a failing BEGIN, busy or not, is returned from that attempt with no change |
| StoreProperties.CommitFailureNotRetried | internal/store/store.go:465 | a failing COMMIT after a body that finished, busy or not, is returned from that attempt with no change |
| StoreProperties.SyncFeedAfterOneBusyAttempt | internal/store/store.go:444-465 | one busy attempt and then a clean one commits the clean effect after 2 attempts |
| StoreProperties.SyncFeedRecordsSuccess | internal/store/store.go:137-140 | after SyncFeed, the status reads back as success with no error, dated now |
| StoreProperties.SyncFeedSuccessRecordsSuccess | internal/store/store.go:119-144 | whatever the engine does, a SyncFeed that succeeds commits the clean effect, and the status reads back as success with no error, dated now |
| StoreProperties.SetStatusErrorRecordsFailure | internal/store/store.go:249-255 | a failure carrying the error text replaces the status; other statuses, feeds and items are untouched |
| StoreProperties.DeleteFeedEffect | internal/store/store.go:146-159 | DeleteFeed removes the feed, its status and all its items, and nothing else, in one attempt |
| StoreProperties.DeleteFeedSuccessEffect | internal/store/store.go:146-159 | whatever the engine does, a DeleteFeed that succeeds has removed the feed, its status and all its items, and nothing else |
| StoreProperties.DeleteMissingFeed | internal/store/store.go:373 | deleting an absent id succeeds with no change |
| StoreProperties.GetOrCreateIdempotent | internal/store/store.go:85-117 | a second call with the same url returns the same id and changes nothing |
| StoreProperties.GetOrCreateAssignsIdsInOrder | internal/store/store.go:85-117 | new urls get ids 1, 2; asking again for the first url returns 1 |
| SqliteStore.EmptyTablesConsistent | internal/store/sqlite.go:204-227 | a freshly installed schema satisfies its constraints |
| SqliteStore.SelectFeedIdByUrl | internal/store/sqlite.go:243 | returns the id of the feed with that url when one is stored |
| SqliteStore.InsertFeedRow | internal/store/sqlite.go:250 | fails with the UNIQUE error exactly when the url is stored; otherwise adds one feed under the next id |
| SqliteStore.UpdateFeedName | internal/store/sqlite.go:257 | only the name of feed `id` changes |
| SqliteStore.DeleteFeedRow | internal/store/sqlite.go:264 | removes the feed row even while items still reference it |
| SqliteStore.SelectItemIdByGuid | internal/store/sqlite.go:282-284 | returns the id of the feed's item with that guid when one is stored |
| SqliteStore.InsertItemRow | internal/store/sqlite.go:291-293 | fails with the UNIQUE error exactly when the guid is stored under any feed; otherwise adds an unread item under the next id |
| SqliteStore.UpdateItemRow | internal/store/sqlite.go:300-303 | replaces url, title and date only; feed, guid and read stay |
| SqliteStore.DeleteItemsOf | internal/store/sqlite.go:310 | exactly the feed's items are removed |
| SqliteStore.SetItemRead | internal/store/sqlite.go:317 | only item `id` changes, to read |
| SqliteStore.UpsertFeedBody | internal/store/sqlite.go:71-82 | the body keeps the constraints |
| SqliteStore.UpsertFeedItemBody | internal/store/sqlite.go:140-151 | the body keeps the constraints |
| SqliteStore.DeleteFeedBody | internal/store/sqlite.go:92-102 | the body keeps the constraints |
| SqliteStore.Body | internal/store/sqlite.go:71 | every body keeps the constraints |
| SqliteStore.WrapInTx | internal/store/sqlite.go:343-362 | only one attempt: no error exactly when BEGIN, body and COMMIT succeed, and then the body's tables and id; on an error (0, err) with the tables unchanged |
| SqliteStore.SqliteFeedStore.constructor | internal/store/sqlite.go:35-60 | a new store has empty tables |
| SqliteStore.SqliteFeedStore.Rollback | internal/store/sqlite.go:334-336 | the tables return to the snapshot |
| SqliteStore.SqliteFeedStore.InsertFeed | internal/store/sqlite.go:364-372 | the fields, id (LastInsertId) and error are those of InsertFeedRow |
| SqliteStore.SqliteFeedStore.UpdateFeed | internal/store/sqlite.go:374-378 | the fields end as UpdateFeedName computes |
| SqliteStore.SqliteFeedStore.DeleteFeedRecord | internal/store/sqlite.go:380-384 | the fields end as DeleteFeedRow computes |
| SqliteStore.SqliteFeedStore.InsertFeedItem | internal/store/sqlite.go:386-399 | the fields, id and error are those of InsertItemRow |
| SqliteStore.SqliteFeedStore.UpdateFeedItem | internal/store/sqlite.go:401-405 | the fields end as UpdateItemRow computes |
| SqliteStore.SqliteFeedStore.DeleteItemsInFeed | internal/store/sqlite.go:407-411 | the fields end as DeleteItemsOf computes |
| SqliteStore.SqliteFeedStore.UpsertFeedStatements | internal/store/sqlite.go:71-82 | leaves what UpsertFeedBody computes |
| SqliteStore.SqliteFeedStore.UpsertFeedItemStatements | internal/store/sqlite.go:140-151 | leaves what UpsertFeedItemBody computes |
| SqliteStore.SqliteFeedStore.DeleteFeedStatements | internal/store/sqlite.go:92-102 | leaves what DeleteFeedBody computes |
| SqliteStore.SqliteFeedStore.RunBody | internal/store/sqlite.go:349 | runs the closure passed to the wrapper |
| SqliteStore.SqliteFeedStore.WrapInTxReturnId | internal/store/sqlite.go:343-362 | the fields, id and error are those of WrapInTx |
| SqliteStore.SqliteFeedStore.UpsertFeed | internal/store/sqlite.go:70-89 | the fields, id and error are those of WrapInTx on the UpsertFeed body, and the constraints hold |
| SqliteStore.SqliteFeedStore.UpsertFeedItem | internal/store/sqlite.go:139-158 | the fields, id and error are those of WrapInTx on the UpsertFeedItem body, and the constraints hold |
| SqliteStore.SqliteFeedStore.DeleteFeed | internal/store/sqlite.go:91-103 | the fields and error are those of WrapInTx on the DeleteFeed body, and the constraints hold |
| SqliteStore.SqliteFeedStore.MarkRead | internal/store/sqlite.go:198-202 | updates the fields as SetItemRead computes; an engine fault changes nothing |
| SqliteStore.SqliteFeedStore.RetrieveFeeds | internal/store/sqlite.go:105-137 | one record per stored feed, whose NumUnread counts that feed's unread items |
| SqliteStore.SqliteFeedStore.RetrieveFeedItems | internal/store/sqlite.go:160-196 | exactly the feed's items with their read flags, newest first |
| SqliteProperties.FeedUrlsUnique | internal/store/sqlite.go:208 | two stored feeds with the same url are the same feed |
| SqliteProperties.ItemGuidsUnique | internal/store/sqlite.go:215 | two stored items with the same guid are the same item, whatever their feeds |
| SqliteProperties.UpsertExistingFeed | internal/store/sqlite.go:73-76 | a stored url: the feed is renamed and its id returned; items unchanged |
| SqliteProperties.UpsertNewFeed | internal/store/sqlite.go:77-78 | a new url: one feed is added under the next (fresh) id, which is returned |
| SqliteProperties.UpsertFeedIdempotent | internal/store/sqlite.go:70-89 | upserting the same feed twice gives the same result as once |
| SqliteProperties.UpsertFeedStores | internal/store/sqlite.go:70-89 | without faults, the returned id names a stored feed holding exactly the given url and name |
| SqliteProperties.UpsertStoredFeed | internal/store/sqlite.go:73-76 | upserting a feed stored exactly as given returns its id and changes nothing |
| SqliteProperties.UpsertExistingItem | internal/store/sqlite.go:144-145 | an existing (feed, guid): url, title and date replaced, read kept, existing id returned |
| SqliteProperties.UpsertNewItem | internal/store/sqlite.go:146-147 | an unused guid: a new unread item under the next id, returned, even for a feed that is not stored |
| SqliteProperties.UpsertItemGuidOfOtherFeed | internal/store/sqlite.go:215 | a guid used by another feed gives (0, UNIQUE error) and changes nothing |
| SqliteProperties.MarkReadIdempotent | internal/store/sqlite.go:317 | marking read twice equals marking once; an absent id changes nothing |
| SqliteProperties.MarkReadCountsDown | internal/store/sqlite.go:232-236 | marking an unread item read lowers its feed's unread count by one and leaves other feeds' counts unchanged |
| SqliteProperties.NewItemCountsUp | internal/store/sqlite.go:219 | a new item adds one to its feed's unread count |
| SqliteProperties.UpdatedItemKeepsCounts | internal/store/sqlite.go:300-303 | updating an item changes no feed's unread items |
| SqliteProperties.DeleteFeedEffect | internal/store/sqlite.go:91-103 | removes the feed and every item referencing it, keeps all other rows, and leaves the feed with no items |
| SqliteProperties.DeleteUnusedFeedId | internal/store/sqlite.go:91-103 | an id that no feed and no item uses changes nothing |
| SqliteProperties.BodySuccessIsClean | internal/store/sqlite.go:349-355 | a body that finished did what a clean run does |
| SqliteProperties.WrapInTxAtomic | internal/store/sqlite.go:343-362 | a transaction either commits a clean run of its body or fails with (0, err) and no change |
| SqliteProperties.BusyNotRetried | internal/store/sqlite.go:327-341 | a busy error, from BEGIN, from any statement of the body or from COMMIT, is returned at once as (0, err) with no change and no retry |
| Validation.FirstFailure | internal/feed/rss.go:100-118 | no error exactly when every item passes; otherwise the error of an item before which all items pass |
| Validation.FirstFailureIsFirst | internal/feed/parser.go:50-62 | the first failing item decides the error, whatever fails later |
| Rss.ItemError | internal/feed/rss.go:101-115 | no error exactly when title, link, pubDate and guid are all non-empty; otherwise the first empty field names the error, in the order title, link, pubDate, guid |
| Rss.Validate | internal/feed/rss.go:89-119 | no error exactly when the channel has a title and a link and every item is complete; an empty title gives "Missing channel title" first, then "Missing channel link" |
| Rss.ValidateReportsFirstBadItem | internal/feed/rss.go:100-116 | with a good channel, the first incomplete item decides the error: its first empty field in the order title, link, pubDate, guid |
| Rss.ChannelWithoutItemsIsValid | internal/feed/rss.go:89-119 | a channel with title and link and no items is valid |
| Rss.ConvertItems | internal/feed/rss.go:128-142 | when every date parses, one item per raw item in order, with title, link and guid copied and the parsed date; otherwise the error of the first date that fails |
| Rss.ConvertToFeedAndFeedItems | internal/feed/rss.go:121-145 | the feed takes the channel's link and title, and the items are those of ConvertItems; a date error gives an empty Feed and no items |
| Rss.PrefixErrorStays | internal/feed/rss.go:130-133 | a conversion error on a prefix is the error of the whole list |
| Rss.StatusErrorNamesStatus | internal/feed/rss.go:54-58 | the non-200 message determines the status code |
| Rss.LoadFeedData | internal/feed/rss.go:47-62 | a transport error, a non-200 status ("Received HTTP status <code> from url <url>") or a failed body read is the error; otherwise the body |
| Rss.LoadFeedFromUrl | internal/feed/rss.go:29-45 | the first failing stage's error is returned, with an empty Feed and no items; a success has a url and name, and every item a title, url and guid |
| Decimal.DigitChar | internal/feed/rss.go:55-57 | maps a digit value to its character |
| Decimal.NatToString | internal/feed/rss.go:55-57 | decimal digits without leading zeros |
| Decimal.IntToString | internal/feed/rss.go:55-57 | a leading minus exactly for negative numbers |
| Decimal.NatToStringRoundTrip | internal/feed/rss.go:55-57 | the printed digits read back as the number |
| Decimal.NatToStringInjective | internal/feed/rss.go:55-57 | different naturals print differently |
| Decimal.IntToStringInjective | internal/feed/rss.go:55-57 | different numbers print differently |
| Parser.ItemError | internal/feed/parser.go:51-61 | no error exactly when title, published date and link are all present; otherwise the first missing one names the error, in the order title, published date, link |
| Parser.ValidateFeed | internal/feed/parser.go:45-65 | no error exactly when the title is set and every item is complete; an empty title gives "Missing feed name" |
| Parser.ValidateFeedReportsFirstBadItem | internal/feed/parser.go:50-62 | the first incomplete item decides the error: its first missing field in the order title, published date, link |
| Parser.GuidOf | internal/feed/parser.go:26-31 | the GUID when it is non-empty, else the link |
| Parser.ParseExternalFeed | internal/feed/parser.go:9-43 | a parse or validation error gives an empty Feed; a success is named after the title and has one item per raw item in order, with title, link, date and GuidOf copied, so each has a non-empty title, url and guid |

## Left out

- Task scheduling (`internal/task/task.go`), the terminal UI (`internal/controller`), gettext/locale bindings (`internal/i18n`), the HTTP loader of `internal/feed/loader.go` and process wiring (`cmd/main.go`, `internal/app/app.go`) are not part of this model. Reason: they are concurrency, UI glue or foreign calls.
- The SQL engine is modelled by what its statements do, not how it runs them:
  - SQL text, statement preparation, `Close` and the PRAGMA call are left out;
  - `PRAGMA foreign_keys = ON` (internal/store/store.go:287-291) runs through `s.db.Exec` on one connection of database/sql's pool, and SQLite applies it per connection. The model enforces the foreign keys on every transaction, as if every connection had run it;
  - detecting a real SQLITE_BUSY condition is replaced by the `Interference` parameter;
  - concurrent writers are not modelled.
- The HTTP client, `encoding/xml` decoding, the gofeed parser and `time.ParseInLocation(time.RFC1123Z, …)` are function parameters. The same goes for the wall clock (`now`) that dates a status row.
  - Whether rss.go's `xml:"item"` tag on the feed's root actually finds the `<item>` elements inside `<channel>` is the decoder's business, so it is not modelled.
- Read-side engine errors are not modelled: Query, Scan and rows.Err failures in RetrieveFeeds, RetrieveFeedItems, RetrieveFeed and RetrieveFeedSyncStatus.
- Store.FeedStore.RetrieveFeeds, Store.FeedStore.RetrieveFeedItems and SqliteStore.SqliteFeedStore.RetrieveFeedItems: rows that tie on the sort key are returned in the order the model picks them. SQLite's order among ties is unspecified.
- SqliteStore.SqliteFeedStore.RetrieveFeeds: the query has no ORDER BY, so the contract states the records as a multiset with no order.
- Rowids: a new row takes a counter that starts at 1 and only grows. SQLite picks max(rowid) + 1, which can reuse the id of a deleted last row.
- Integer widths are not modelled:
  - ids, dates and status codes are unbounded integers rather than int64;
  - NumUnread is a `nat` rather than `uint`.
- Time zones and nanoseconds beyond `Unix()` are not modelled.
- Strings are sequences of characters. UTF-8 validity and byte length are not modelled.
- A failing tx.Rollback, which ends the process through log.Fatalf, is not modelled. Rollback always succeeds.
- Errors of LastInsertId are not modelled.
- The ErrNoRows branch of GetOrCreateFeedWithUrl cannot be reached once the insert has run, so the model has no such branch. A fault at the SELECT is covered by `StatementFails(1, e)`.
- Store.FeedStore.SetFeedSyncStatusError: the error arrives as its text. `fmt.Sprintf("%v", err)` is not modelled.
- Go's nil slice and empty slice are both the empty sequence.
- sqlite.go's `wrapInTx` and `wrapInTxReturnId` are modelled by one function (SqliteStore.WrapInTx) and one method (WrapInTxReturnId). The id-less wrapper is the same run with the id ignored.
- internal/feed/rss_test.go calls a `convertToFeed` method that rss.go does not define. It belongs to another snapshot of the code.
