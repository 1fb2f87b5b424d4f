/** The feed store of internal/store/sqlite.go, an earlier snapshot of the store: two
    SQLite tables (feed, feed_item) where feed.url and feed_item.guid are each UNIQUE
    and an item carries a read flag, upserts written as a lookup followed by an UPDATE
    or an INSERT that return the row's id, and transactions that run once, without
    retry.

    The schema declares feed_item.feed_id a foreign key, but this store never turns
    `PRAGMA foreign_keys` on, and SQLite then does not enforce it: an item may reference
    a feed that is not stored.

    As in module Store, the tables are a value with one function per statement, and the
    class `SqliteFeedStore` runs the same statements on mutable fields. */
module SqliteStore {

  import opened Wrappers
  import opened Engine
  import opened FeedTypes
  import opened Record
  import opened Ordering

  // ---------------------------------------------------------------------------------
  // The tables
  // ---------------------------------------------------------------------------------

  /** A row of table feed (without its id, which is the key). */
  datatype FeedRow = FeedRow(url: string, name: string)

  /** A row of table feed_item; `date` is in Unix seconds, `read` is the column that
      defaults to 0 (false). */
  datatype ItemRow = ItemRow(feedId: FeedId, guid: string, url: string, title: string, date: int, read: bool)

  /** The database: both tables, the UNIQUE indexes on feed(url) and feed_item(guid),
      and the next rowid of each table. */
  datatype Tables = Tables(
    feeds: map<FeedId, FeedRow>,
    items: map<FeedItemId, ItemRow>,
    urlIndex: map<string, FeedId>,
    guidIndex: map<string, FeedItemId>,
    nextFeedId: FeedId,
    nextItemId: FeedItemId)

  /** A freshly installed schema. */
  const EmptyTables := Tables(map[], map[], map[], map[], 1, 1)

  ghost predicate IdsAllocated(t: Tables)
  {
    && 1 <= t.nextFeedId && 1 <= t.nextItemId
    && (forall id :: id in t.feeds ==> 1 <= id < t.nextFeedId)
    && (forall id :: id in t.items ==> 1 <= id < t.nextItemId)
  }

  /** feed.url is UNIQUE. */
  ghost predicate UrlIndexed(t: Tables)
  {
    && (forall id :: id in t.feeds ==> t.feeds[id].url in t.urlIndex && t.urlIndex[t.feeds[id].url] == id)
    && (forall u :: u in t.urlIndex ==> t.urlIndex[u] in t.feeds && t.feeds[t.urlIndex[u]].url == u)
  }

  /** feed_item.guid is UNIQUE across the whole table, whatever the item's feed. */
  ghost predicate GuidIndexed(t: Tables)
  {
    && (forall id :: id in t.items ==> t.items[id].guid in t.guidIndex && t.guidIndex[t.items[id].guid] == id)
    && (forall g :: g in t.guidIndex ==> t.guidIndex[g] in t.items && t.items[t.guidIndex[g]].guid == g)
  }

  /** Everything the schema guarantees of a committed database. */
  ghost predicate Consistent(t: Tables)
  {
    IdsAllocated(t) && UrlIndexed(t) && GuidIndexed(t)
  }

  lemma EmptyTablesConsistent()
    ensures Consistent(EmptyTables)
  {
  }

  // ---------------------------------------------------------------------------------
  // One function per prepared statement
  // ---------------------------------------------------------------------------------

  /** The result of a statement that writes: the new tables, or its error. */
  datatype Outcome = Done(tables: Tables) | Failed(error: DbError)

  /** `SELECT id FROM feed WHERE url = ?`; None is sql.ErrNoRows. */
  function SelectFeedIdByUrl(t: Tables, url: string): (r: Option<FeedId>)
    ensures Consistent(t) ==> forall id :: id in t.feeds && t.feeds[id].url == url ==> r == Some(id)
    ensures Consistent(t) && r.Some? ==> r.value in t.feeds && t.feeds[r.value].url == url
  {
    if url in t.urlIndex then Some(t.urlIndex[url]) else None
  }

  /** `INSERT INTO feed (url, name) VALUES (?, ?)`: a new row with the next rowid; a
      stored url violates the UNIQUE constraint. */
  function InsertFeedRow(t: Tables, url: string, name: string): (r: Outcome)
    ensures r.Failed? <==> url in t.urlIndex
    ensures r.Failed? ==> r.error == UniqueViolation
    ensures r.Done? ==>
      && r.tables.feeds == t.feeds[t.nextFeedId := FeedRow(url, name)]
      && r.tables.items == t.items
      && r.tables.nextFeedId == t.nextFeedId + 1
      && (Consistent(t) ==> Consistent(r.tables) && t.nextFeedId !in t.feeds)
  {
    if url in t.urlIndex then Failed(UniqueViolation)
    else
      Done(t.(feeds := t.feeds[t.nextFeedId := FeedRow(url, name)],
              urlIndex := t.urlIndex[url := t.nextFeedId],
              nextFeedId := t.nextFeedId + 1))
  }

  /** `UPDATE feed SET name = ? WHERE id = ?` */
  function UpdateFeedName(t: Tables, id: FeedId, name: string): (r: Tables)
    ensures Consistent(t) ==> Consistent(r)
    ensures r.feeds.Keys == t.feeds.Keys
    ensures forall f :: f in t.feeds ==>
      r.feeds[f] == (if f == id then FeedRow(t.feeds[f].url, name) else t.feeds[f])
    ensures r.items == t.items && r.urlIndex == t.urlIndex
  {
    if id in t.feeds then t.(feeds := t.feeds[id := t.feeds[id].(name := name)]) else t
  }

  /** `DELETE FROM feed WHERE id = ?`: with foreign keys off, items that still reference
      the feed do not stop it. */
  function DeleteFeedRow(t: Tables, id: FeedId): (r: Tables)
    ensures Consistent(t) ==> Consistent(r)
    ensures r.feeds == t.feeds - {id} && r.items == t.items
  {
    if id in t.feeds then
      t.(feeds := t.feeds - {id}, urlIndex := t.urlIndex - {t.feeds[id].url})
    else t
  }

  /** `SELECT id FROM feed_item WHERE feed_id = ? AND guid = ?`; None is sql.ErrNoRows. */
  function SelectItemIdByGuid(t: Tables, feedId: FeedId, guid: string): (r: Option<FeedItemId>)
    ensures Consistent(t) ==>
      forall k :: k in t.items && t.items[k].feedId == feedId && t.items[k].guid == guid ==> r == Some(k)
    ensures r.Some? ==> r.value in t.items && t.items[r.value].feedId == feedId
    ensures Consistent(t) && r.Some? ==> t.items[r.value].guid == guid
  {
    if guid in t.guidIndex && t.guidIndex[guid] in t.items && t.items[t.guidIndex[guid]].feedId == feedId
    then Some(t.guidIndex[guid])
    else None
  }

  /** The row that inserting `item` into feed `feedId` writes: read takes its default. */
  function NewItemRow(feedId: FeedId, item: FeedItem): ItemRow
  {
    ItemRow(feedId, item.guid, item.url, item.title, Unix(item.date), false)
  }

  /** `INSERT INTO feed_item (feed_id, guid, url, title, date) VALUES (...)`: a new row
      with the next rowid; a guid stored under any feed violates the UNIQUE constraint. */
  function InsertItemRow(t: Tables, feedId: FeedId, item: FeedItem): (r: Outcome)
    ensures r.Failed? <==> item.guid in t.guidIndex
    ensures r.Failed? ==> r.error == UniqueViolation
    ensures r.Done? ==>
      && r.tables.items == t.items[t.nextItemId := NewItemRow(feedId, item)]
      && r.tables.feeds == t.feeds && r.tables.urlIndex == t.urlIndex
      && r.tables.nextItemId == t.nextItemId + 1
      && (Consistent(t) ==> Consistent(r.tables) && t.nextItemId !in t.items)
  {
    if item.guid in t.guidIndex then Failed(UniqueViolation)
    else
      Done(t.(items := t.items[t.nextItemId := NewItemRow(feedId, item)],
              guidIndex := t.guidIndex[item.guid := t.nextItemId],
              nextItemId := t.nextItemId + 1))
  }

  /** `UPDATE feed_item SET url = ?, title = ?, date = ? WHERE id = ?`: feed, guid and
      read stay. */
  function UpdateItemRow(t: Tables, id: FeedItemId, item: FeedItem): (r: Tables)
    ensures Consistent(t) ==> Consistent(r)
    ensures r.items.Keys == t.items.Keys
    ensures forall k :: k in t.items ==>
      r.items[k] == (if k == id then t.items[k].(url := item.url, title := item.title, date := Unix(item.date))
                     else t.items[k])
    ensures r.feeds == t.feeds && r.urlIndex == t.urlIndex
  {
    if id in t.items then
      t.(items := t.items[id := t.items[id].(url := item.url, title := item.title, date := Unix(item.date))])
    else t
  }

  /** `DELETE FROM feed_item WHERE feed_id = ?` */
  function DeleteItemsOf(t: Tables, feedId: FeedId): (r: Tables)
    ensures Consistent(t) ==> Consistent(r)
    ensures forall k :: k in r.items <==> k in t.items && t.items[k].feedId != feedId
    ensures forall k :: k in r.items ==> r.items[k] == t.items[k]
    ensures r.feeds == t.feeds && r.urlIndex == t.urlIndex
  {
    t.(items := map k | k in t.items && t.items[k].feedId != feedId :: t.items[k],
       guidIndex := map g | g in t.guidIndex && t.guidIndex[g] in t.items
                          && t.items[t.guidIndex[g]].feedId != feedId :: t.guidIndex[g])
  }

  /** `UPDATE feed_item SET read = 1 WHERE id = ?` */
  function SetItemRead(t: Tables, id: FeedItemId): (r: Tables)
    ensures Consistent(t) ==> Consistent(r)
    ensures r.items.Keys == t.items.Keys
    ensures forall k :: k in t.items ==>
      r.items[k] == (if k == id then t.items[k].(read := true) else t.items[k])
    ensures r.feeds == t.feeds
  {
    if id in t.items then t.(items := t.items[id := t.items[id].(read := true)]) else t
  }

  // ---------------------------------------------------------------------------------
  // Transaction bodies, wrapInTx and wrapInTxReturnId
  // ---------------------------------------------------------------------------------

  /** The tables a transaction body has reached, the id it returns and the error that
      stopped it. */
  datatype Exec = Exec(tables: Tables, id: int, err: Option<DbError>)

  /** UpsertFeed's body: statement 0 looks the url up, statement 1 renames the feed
      found or inserts a new one. */
  function UpsertFeedBody(t: Tables, feed: UrlFeed, inj: Interference): (r: Exec)
    ensures Consistent(t) ==> Consistent(r.tables)
  {
    if Fires(inj, 0) then Exec(t, 0, Some(inj.error))
    else match SelectFeedIdByUrl(t, feed.url)
      case Some(existing) =>
        if Fires(inj, 1) then Exec(t, existing as int, Some(inj.error))
        else Exec(UpdateFeedName(t, existing, feed.name), existing as int, None)
      case None =>
        if Fires(inj, 1) then Exec(t, 0, Some(inj.error))
        else match InsertFeedRow(t, feed.url, feed.name)
          case Done(u) => Exec(u, t.nextFeedId as int, None)
          case Failed(e) => Exec(t, 0, Some(e))
  }

  /** UpsertFeedItem's body: statement 0 looks (feed, guid) up, statement 1 updates the
      item found or inserts a new one. */
  function UpsertFeedItemBody(t: Tables, feedId: FeedId, item: FeedItem, inj: Interference): (r: Exec)
    ensures Consistent(t) ==> Consistent(r.tables)
  {
    if Fires(inj, 0) then Exec(t, 0, Some(inj.error))
    else match SelectItemIdByGuid(t, feedId, item.guid)
      case Some(existing) =>
        if Fires(inj, 1) then Exec(t, existing as int, Some(inj.error))
        else Exec(UpdateItemRow(t, existing, item), existing as int, None)
      case None =>
        if Fires(inj, 1) then Exec(t, 0, Some(inj.error))
        else match InsertItemRow(t, feedId, item)
          case Done(u) => Exec(u, t.nextItemId as int, None)
          case Failed(e) => Exec(t, 0, Some(e))
  }

  /** DeleteFeed's body: statement 0 deletes the feed's items, statement 1 the feed. */
  function DeleteFeedBody(t: Tables, id: FeedId, inj: Interference): (r: Exec)
    ensures Consistent(t) ==> Consistent(r.tables)
  {
    if Fires(inj, 0) then Exec(t, 0, Some(inj.error))
    else
      var cleared := DeleteItemsOf(t, id);
      if Fires(inj, 1) then Exec(cleared, 0, Some(inj.error))
      else Exec(DeleteFeedRow(cleared, id), 0, None)
  }

  /** The closures the store hands to its transaction wrappers. */
  datatype TxBody =
    | UpsertFeedTx(feed: UrlFeed)
    | UpsertFeedItemTx(feedId: FeedId, item: FeedItem)
    | DeleteFeedTx(id: FeedId)

  function Body(t: Tables, body: TxBody, inj: Interference): (r: Exec)
    ensures Consistent(t) ==> Consistent(r.tables)
  {
    match body
    case UpsertFeedTx(feed) => UpsertFeedBody(t, feed, inj)
    case UpsertFeedItemTx(feedId, item) => UpsertFeedItemBody(t, feedId, item, inj)
    case DeleteFeedTx(id) => DeleteFeedBody(t, id, inj)
  }

  /** The outcome of a transaction: the committed tables, the id returned and the error. */
  datatype TxResult = TxResult(tables: Tables, id: int, err: Option<DbError>)

  /** wrapInTxReturnId (and wrapInTx, which is the same without the id): BEGIN, run the
      body once, roll back and return (0, err) on its error, otherwise COMMIT. */
  function WrapInTx(t: Tables, body: TxBody, inj: Interference): (r: TxResult)
    ensures Consistent(t) ==> Consistent(r.tables)
    ensures r.err.Some? ==> r.tables == t && r.id == 0
    ensures r.err.None? <==> !inj.BeginFails? && Body(t, body, inj).err.None? && !inj.CommitFails?
    ensures r.err.None? ==> r.tables == Body(t, body, inj).tables && r.id == Body(t, body, inj).id
  {
    if inj.BeginFails? then TxResult(t, 0, Some(inj.error))
    else
      var b := Body(t, body, inj);
      if b.err.Some? then TxResult(t, 0, b.err)
      else if inj.CommitFails? then TxResult(t, 0, Some(inj.error))
      else TxResult(b.tables, b.id, None)
  }

  // ---------------------------------------------------------------------------------
  // What the store returns
  // ---------------------------------------------------------------------------------

  /** The ids of the unread items of feed `id`. */
  function UnreadItems(t: Tables, id: FeedId): set<FeedItemId>
  {
    set k | k in t.items && t.items[k].feedId == id && !t.items[k].read
  }

  /** The record RetrieveFeeds builds for a feed: `num_unread` is
      `SELECT COUNT(id) FROM feed_item WHERE feed_id = feed.id AND read = 0`. */
  function FeedRecordOf(t: Tables, id: FeedId): FeedRecord
    requires id in t.feeds
  {
    FeedRecord(id, t.feeds[id].url, t.feeds[id].name, |UnreadItems(t, id)|)
  }

  /** The record RetrieveFeedItems builds from an item row. */
  function ItemRecordOf(id: FeedItemId, row: ItemRow): FeedItemRecord
  {
    FeedItemRecord(id, row.title, FromUnix(row.date), row.url, row.guid, row.read)
  }

  function FeedRecords(t: Tables): set<FeedRecord>
  {
    set id | id in t.feeds :: FeedRecordOf(t, id)
  }

  function ItemRecords(t: Tables, feedId: FeedId): set<FeedItemRecord>
  {
    set k | k in t.items && t.items[k].feedId == feedId :: ItemRecordOf(k, t.items[k])
  }

  /** `ORDER BY date DESC`; rows with the same date come in no particular order. */
  function ByDateDesc(r: FeedItemRecord): OrderKey
  {
    OrderKey(-Unix(r.date), "")
  }

  // ---------------------------------------------------------------------------------
  // The store object
  // ---------------------------------------------------------------------------------

  /** sqliteFeedStore: the tables live in fields that its methods update in place. */
  class SqliteFeedStore {

    var feeds: map<FeedId, FeedRow>
    var items: map<FeedItemId, ItemRow>
    var urlIndex: map<string, FeedId>
    var guidIndex: map<string, FeedItemId>
    var nextFeedId: FeedId
    var nextItemId: FeedItemId

    function Snapshot(): Tables
      reads this
    {
      Tables(feeds, items, urlIndex, guidIndex, nextFeedId, nextItemId)
    }

    ghost predicate Valid()
      reads this
    {
      Consistent(Snapshot())
    }

    /** NewSQLiteFeedStore followed by Initialize on a new database. */
    constructor ()
      ensures Valid() && Snapshot() == EmptyTables
    {
      feeds, items, urlIndex, guidIndex := map[], map[], map[], map[];
      nextFeedId, nextItemId := 1, 1;
    }

    /** tx.Rollback */
    method Rollback(snapshot: Tables)
      modifies this
      ensures Snapshot() == snapshot
    {
      feeds, items := snapshot.feeds, snapshot.items;
      urlIndex, guidIndex := snapshot.urlIndex, snapshot.guidIndex;
      nextFeedId, nextItemId := snapshot.nextFeedId, snapshot.nextItemId;
    }

    // The statement helpers.

    /** insertFeed: the new row's id (LastInsertId), or the error. */
    method InsertFeed(feed: UrlFeed) returns (id: int, err: Option<DbError>)
      modifies this
      ensures match InsertFeedRow(old(Snapshot()), feed.url, feed.name)
        case Done(u) => Snapshot() == u && id == old(nextFeedId) as int && err.None?
        case Failed(e) => Snapshot() == old(Snapshot()) && id == 0 && err == Some(e)
    {
      if feed.url in urlIndex {
        return 0, Some(UniqueViolation);
      }
      id := nextFeedId as int;
      feeds := feeds[nextFeedId := FeedRow(feed.url, feed.name)];
      urlIndex := urlIndex[feed.url := nextFeedId];
      nextFeedId := nextFeedId + 1;
      err := None;
    }

    /** updateFeed */
    method UpdateFeed(id: FeedId, feed: UrlFeed)
      modifies this
      ensures Snapshot() == UpdateFeedName(old(Snapshot()), id, feed.name)
    {
      if id in feeds {
        feeds := feeds[id := feeds[id].(name := feed.name)];
      }
    }

    /** deleteFeed */
    method DeleteFeedRecord(id: FeedId)
      modifies this
      ensures Snapshot() == DeleteFeedRow(old(Snapshot()), id)
    {
      if id in feeds {
        urlIndex := urlIndex - {feeds[id].url};
        feeds := feeds - {id};
      }
    }

    /** insertFeedItem */
    method InsertFeedItem(feedId: FeedId, item: FeedItem) returns (id: int, err: Option<DbError>)
      modifies this
      ensures match InsertItemRow(old(Snapshot()), feedId, item)
        case Done(u) => Snapshot() == u && id == old(nextItemId) as int && err.None?
        case Failed(e) => Snapshot() == old(Snapshot()) && id == 0 && err == Some(e)
    {
      if item.guid in guidIndex {
        return 0, Some(UniqueViolation);
      }
      id := nextItemId as int;
      items := items[nextItemId := NewItemRow(feedId, item)];
      guidIndex := guidIndex[item.guid := nextItemId];
      nextItemId := nextItemId + 1;
      err := None;
    }

    /** updateFeedItem */
    method UpdateFeedItem(id: FeedItemId, item: FeedItem)
      modifies this
      ensures Snapshot() == UpdateItemRow(old(Snapshot()), id, item)
    {
      if id in items {
        items := items[id := items[id].(url := item.url, title := item.title, date := Unix(item.date))];
      }
    }

    /** deleteItemsInFeed */
    method DeleteItemsInFeed(feedId: FeedId)
      modifies this
      ensures Snapshot() == DeleteItemsOf(old(Snapshot()), feedId)
    {
      guidIndex := map g | g in guidIndex && guidIndex[g] in items
                         && items[guidIndex[g]].feedId != feedId :: guidIndex[g];
      items := map k | k in items && items[k].feedId != feedId :: items[k];
    }

    // The transaction bodies.

    method UpsertFeedStatements(feed: UrlFeed, inj: Interference) returns (id: int, err: Option<DbError>)
      modifies this
      ensures Exec(Snapshot(), id, err) == UpsertFeedBody(old(Snapshot()), feed, inj)
    {
      if Fires(inj, 0) {
        return 0, Some(inj.error);
      }
      var existing := SelectFeedIdByUrl(Snapshot(), feed.url);
      if existing.Some? {
        id := existing.value as int;
        if Fires(inj, 1) {
          return id, Some(inj.error);
        }
        UpdateFeed(existing.value, feed);
        err := None;
      } else {
        if Fires(inj, 1) {
          return 0, Some(inj.error);
        }
        id, err := InsertFeed(feed);
      }
    }

    method UpsertFeedItemStatements(feedId: FeedId, item: FeedItem, inj: Interference)
      returns (id: int, err: Option<DbError>)
      modifies this
      ensures Exec(Snapshot(), id, err) == UpsertFeedItemBody(old(Snapshot()), feedId, item, inj)
    {
      if Fires(inj, 0) {
        return 0, Some(inj.error);
      }
      var existing := SelectItemIdByGuid(Snapshot(), feedId, item.guid);
      if existing.Some? {
        id := existing.value as int;
        if Fires(inj, 1) {
          return id, Some(inj.error);
        }
        UpdateFeedItem(existing.value, item);
        err := None;
      } else {
        if Fires(inj, 1) {
          return 0, Some(inj.error);
        }
        id, err := InsertFeedItem(feedId, item);
      }
    }

    method DeleteFeedStatements(feedId: FeedId, inj: Interference) returns (err: Option<DbError>)
      modifies this
      ensures Exec(Snapshot(), 0, err) == DeleteFeedBody(old(Snapshot()), feedId, inj)
    {
      if Fires(inj, 0) {
        return Some(inj.error);
      }
      DeleteItemsInFeed(feedId);
      if Fires(inj, 1) {
        return Some(inj.error);
      }
      DeleteFeedRecord(feedId);
      err := None;
    }

    method RunBody(body: TxBody, inj: Interference) returns (id: int, err: Option<DbError>)
      modifies this
      ensures Exec(Snapshot(), id, err) == Body(old(Snapshot()), body, inj)
    {
      match body
      case UpsertFeedTx(feed) =>
        id, err := UpsertFeedStatements(feed, inj);
      case UpsertFeedItemTx(feedId, item) =>
        id, err := UpsertFeedItemStatements(feedId, item, inj);
      case DeleteFeedTx(feedId) =>
        id := 0;
        err := DeleteFeedStatements(feedId, inj);
    }

    /** wrapInTxReturnId / wrapInTx */
    method WrapInTxReturnId(body: TxBody, inj: Interference) returns (id: int, err: Option<DbError>)
      modifies this
      ensures var r := WrapInTx(old(Snapshot()), body, inj);
        Snapshot() == r.tables && id == r.id && err == r.err
    {
      if inj.BeginFails? {
        return 0, Some(inj.error);
      }
      var snapshot := Snapshot();
      id, err := RunBody(body, inj);
      if err.Some? {
        Rollback(snapshot);
        return 0, err;
      }
      if inj.CommitFails? {
        Rollback(snapshot);
        return 0, Some(inj.error);
      }
    }

    // The public operations.

    /** UpsertFeed: the id of the feed with this url, renamed, or of a new feed. */
    method UpsertFeed(feed: UrlFeed, inj: Interference) returns (id: FeedId, err: Option<DbError>)
      requires Valid()
      modifies this
      ensures Valid()
      ensures var r := WrapInTx(old(Snapshot()), UpsertFeedTx(feed), inj);
        Snapshot() == r.tables && id as int == r.id && err == r.err
    {
      var rawId;
      rawId, err := WrapInTxReturnId(UpsertFeedTx(feed), inj);
      id := rawId as FeedId;
    }

    /** UpsertFeedItem: the id of the feed's item with this guid, updated, or of a new
        unread item. */
    method UpsertFeedItem(feedId: FeedId, item: FeedItem, inj: Interference) returns (id: FeedItemId, err: Option<DbError>)
      requires Valid()
      modifies this
      ensures Valid()
      ensures var r := WrapInTx(old(Snapshot()), UpsertFeedItemTx(feedId, item), inj);
        Snapshot() == r.tables && id as int == r.id && err == r.err
    {
      var rawId;
      rawId, err := WrapInTxReturnId(UpsertFeedItemTx(feedId, item), inj);
      id := rawId as FeedItemId;
    }

    /** DeleteFeed: the feed's items, then the feed, in one transaction. */
    method DeleteFeed(feedId: FeedId, inj: Interference) returns (err: Option<DbError>)
      requires Valid()
      modifies this
      ensures Valid()
      ensures var r := WrapInTx(old(Snapshot()), DeleteFeedTx(feedId), inj);
        Snapshot() == r.tables && err == r.err
    {
      var unusedId;
      unusedId, err := WrapInTxReturnId(DeleteFeedTx(feedId), inj);
    }

    /** MarkRead: one auto-committed UPDATE; `fault` is an error the engine reports. */
    method MarkRead(id: FeedItemId, fault: Option<DbError>) returns (err: Option<DbError>)
      requires Valid()
      modifies this
      ensures Valid()
      ensures fault.Some? ==> Snapshot() == old(Snapshot()) && err == fault
      ensures fault.None? ==> Snapshot() == SetItemRead(old(Snapshot()), id) && err.None?
    {
      if fault.Some? {
        return fault;
      }
      if id in items {
        items := items[id := items[id].(read := true)];
      }
      err := None;
    }

    /** RetrieveFeeds: a record for every feed with its count of unread items, in no
        particular order (the query has no ORDER BY). */
    method RetrieveFeeds() returns (records: seq<FeedRecord>)
      ensures multiset(records) == multiset(FeedRecords(Snapshot()))
    {
      ghost var t := Snapshot();
      var todo := feeds.Keys;
      records := [];
      while todo != {}
        invariant todo <= feeds.Keys
        invariant multiset(records) == multiset(FeedRecordsAmong(t, feeds.Keys - todo))
        decreases |todo|
      {
        var id := Pick(todo);
        ghost var done := feeds.Keys - todo;
        FeedRecordsAmongAdd(t, done, id);
        records := records + [FeedRecordOf(Snapshot(), id)];
        todo := todo - {id};
        assert feeds.Keys - todo == done + {id};
      }
      assert feeds.Keys - todo == feeds.Keys;
    }

    /** RetrieveFeedItems: a record for every item of the feed, with its read flag,
        newest first. */
    method RetrieveFeedItems(feedId: FeedId) returns (records: seq<FeedItemRecord>)
      ensures multiset(records) == multiset(ItemRecords(Snapshot(), feedId))
      ensures SortedBy(records, ByDateDesc)
    {
      ghost var t := Snapshot();
      var todo := set k | k in items && items[k].feedId == feedId;
      ghost var matching := todo;
      records := [];
      while todo != {}
        invariant todo <= matching
        invariant multiset(records) == multiset(ItemRecordsAmong(t, feedId, matching - todo))
        invariant SortedBy(records, ByDateDesc)
        decreases |todo|
      {
        var k := Pick(todo);
        ghost var done := matching - todo;
        ItemRecordsAmongAdd(t, feedId, done, k);
        records := InsertSorted(records, ItemRecordOf(k, items[k]), ByDateDesc);
        todo := todo - {k};
        assert matching - todo == done + {k};
      }
      assert matching - todo == matching;
      assert ItemRecordsAmong(t, feedId, matching) == ItemRecords(t, feedId);
    }
  }

  ghost function FeedRecordsAmong(t: Tables, ids: set<FeedId>): set<FeedRecord>
  {
    set id | id in ids && id in t.feeds :: FeedRecordOf(t, id)
  }

  lemma FeedRecordsAmongAdd(t: Tables, ids: set<FeedId>, id: FeedId)
    requires id in t.feeds && id !in ids
    ensures multiset(FeedRecordsAmong(t, ids + {id})) == multiset(FeedRecordsAmong(t, ids)) + multiset{FeedRecordOf(t, id)}
  {
    assert FeedRecordsAmong(t, ids + {id}) == FeedRecordsAmong(t, ids) + {FeedRecordOf(t, id)};
    assert FeedRecordOf(t, id) !in FeedRecordsAmong(t, ids);
  }

  ghost function ItemRecordsAmong(t: Tables, feedId: FeedId, ids: set<FeedItemId>): set<FeedItemRecord>
  {
    set k | k in ids && k in t.items && t.items[k].feedId == feedId :: ItemRecordOf(k, t.items[k])
  }

  lemma ItemRecordsAmongAdd(t: Tables, feedId: FeedId, ids: set<FeedItemId>, k: FeedItemId)
    requires k in t.items && t.items[k].feedId == feedId && k !in ids
    ensures multiset(ItemRecordsAmong(t, feedId, ids + {k})) ==
      multiset(ItemRecordsAmong(t, feedId, ids)) + multiset{ItemRecordOf(k, t.items[k])}
  {
    assert ItemRecordsAmong(t, feedId, ids + {k}) ==
      ItemRecordsAmong(t, feedId, ids) + {ItemRecordOf(k, t.items[k])};
    assert ItemRecordOf(k, t.items[k]) !in ItemRecordsAmong(t, feedId, ids);
  }
}
