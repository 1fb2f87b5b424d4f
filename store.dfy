/** The feed store of internal/store/store.go: three SQLite tables (feed, feed_item,
    feed_sync_status) with their UNIQUE indexes and foreign keys, the statements the store
    prepares, the transaction wrapper that retries a busy transaction, and the FeedStore
    operations built from them.

    The tables are first described as a value (`Tables`) with one function per SQL
    statement; the class `FeedStore` then holds the same tables in mutable fields and runs
    the operations step by step, and each method is proved to leave the tables that the
    functions describe. */
module Store {

  import opened Wrappers
  import opened Engine
  import opened FeedTypes
  import opened Record
  import opened Ordering

  // ---------------------------------------------------------------------------------
  // The retry policy
  // ---------------------------------------------------------------------------------

  /** shouldRetryOnError: only a busy error is worth restarting the transaction for. */
  predicate ShouldRetryOnError(e: DbError)
  {
    e.Busy?
  }

  /** The retry ceiling of wrapInTx. */
  const MaxRetries: nat := 10

  // ---------------------------------------------------------------------------------
  // The tables
  // ---------------------------------------------------------------------------------

  /** A row of table feed (without its id, which is the key). */
  datatype FeedRow = FeedRow(url: string, name: string)

  /** A row of table feed_item; `date` is the item's date in Unix seconds. */
  datatype ItemRow = ItemRow(feedId: FeedId, guid: string, url: string, title: string, date: int)

  /** A row of table feed_sync_status; `error` is NULL (None) or the error text. */
  datatype StatusRow = StatusRow(date: int, success: bool, error: Option<string>)

  /** The database: the three tables, the UNIQUE indexes on feed(url) and
      feed_item(feed_id, guid), and the next rowid of each table with an integer key. */
  datatype Tables = Tables(
    feeds: map<FeedId, FeedRow>,
    items: map<FeedItemId, ItemRow>,
    status: map<FeedId, StatusRow>,
    urlIndex: map<string, FeedId>,
    guidIndex: map<(FeedId, string), FeedItemId>,
    nextFeedId: FeedId,
    nextItemId: FeedItemId)

  /** A freshly installed schema: no rows; the first rowid of each table is 1. */
  const EmptyTables := Tables(map[], map[], map[], map[], map[], 1, 1)

  function ItemKey(r: ItemRow): (FeedId, string)
  {
    (r.feedId, r.guid)
  }

  ghost predicate IdsAllocated(t: Tables)
  {
    && 1 <= t.nextFeedId && 1 <= t.nextItemId
    && (forall id :: id in t.feeds ==> 1 <= id < t.nextFeedId)
    && (forall id :: id in t.items ==> 1 <= id < t.nextItemId)
  }

  /** feed.url is UNIQUE: the index maps each url to the one feed that has it. */
  ghost predicate UrlIndexed(t: Tables)
  {
    && (forall id :: id in t.feeds ==> t.feeds[id].url in t.urlIndex && t.urlIndex[t.feeds[id].url] == id)
    && (forall u :: u in t.urlIndex ==> t.urlIndex[u] in t.feeds && t.feeds[t.urlIndex[u]].url == u)
  }

  /** UNIQUE INDEX feed_item_feed_guid_idx ON feed_item(feed_id, guid). */
  ghost predicate GuidIndexed(t: Tables)
  {
    && (forall id :: id in t.items ==> ItemKey(t.items[id]) in t.guidIndex && t.guidIndex[ItemKey(t.items[id])] == id)
    && (forall p :: p in t.guidIndex ==> t.guidIndex[p] in t.items && ItemKey(t.items[t.guidIndex[p]]) == p)
  }

  /** The foreign keys feed_item.feed_id and feed_sync_status.feed_id, enforced because
      the store turns `PRAGMA foreign_keys` on. */
  ghost predicate ForeignKeysHold(t: Tables)
  {
    && (forall id :: id in t.items ==> t.items[id].feedId in t.feeds)
    && (forall f :: f in t.status ==> f in t.feeds)
  }

  /** The store writes a sync status either as a success with a NULL error or as a
      failure with the error's text. */
  ghost predicate StatusesWellFormed(t: Tables)
  {
    forall f :: f in t.status ==> (t.status[f].success <==> t.status[f].error.None?)
  }

  /** Everything the schema, and the way the store writes to it, guarantees of a
      committed database. */
  ghost predicate Consistent(t: Tables)
  {
    IdsAllocated(t) && UrlIndexed(t) && GuidIndexed(t) && ForeignKeysHold(t) && StatusesWellFormed(t)
  }

  lemma EmptyTablesConsistent()
    ensures Consistent(EmptyTables)
  {
  }

  /** No two stored feeds share a url. */
  lemma UrlsUnique(t: Tables, a: FeedId, b: FeedId)
    requires Consistent(t)
    requires a in t.feeds && b in t.feeds && a != b
    ensures t.feeds[a].url != t.feeds[b].url
  {
    assert t.urlIndex[t.feeds[a].url] == a;
    assert t.urlIndex[t.feeds[b].url] == b;
  }

  /** No two stored items share both feed and guid. */
  lemma ItemKeysUnique(t: Tables, a: FeedItemId, b: FeedItemId)
    requires Consistent(t)
    requires a in t.items && b in t.items && a != b
    ensures ItemKey(t.items[a]) != ItemKey(t.items[b])
  {
    assert t.guidIndex[ItemKey(t.items[a])] == a;
    assert t.guidIndex[ItemKey(t.items[b])] == b;
  }

  // ---------------------------------------------------------------------------------
  // One function per prepared statement
  // ---------------------------------------------------------------------------------

  /** The result of a writing statement: the new tables, or the error it raised (the
      statement then changes nothing). */
  datatype Outcome = Done(tables: Tables) | Failed(error: DbError)

  /** The item row that upserting `item` into feed `feedId` writes. */
  function RowFor(feedId: FeedId, item: FeedItem): ItemRow
  {
    ItemRow(feedId, item.guid, item.url, item.title, Unix(item.date))
  }

  /** `INSERT INTO feed (url, name) VALUES (?, ?) ON CONFLICT(url) DO NOTHING` */
  function InsertFeedOrIgnore(t: Tables, url: string, name: string): (r: Tables)
    ensures Consistent(t) ==> Consistent(r)
    ensures url in t.urlIndex ==> r == t
    ensures url !in t.urlIndex ==>
      && r.feeds == t.feeds[t.nextFeedId := FeedRow(url, name)]
      && r.urlIndex == t.urlIndex[url := t.nextFeedId]
      && r.nextFeedId == t.nextFeedId + 1
      && r.items == t.items && r.status == t.status
      && r.guidIndex == t.guidIndex && r.nextItemId == t.nextItemId
    ensures Consistent(t) && url !in t.urlIndex ==> t.nextFeedId !in t.feeds
    ensures url in r.urlIndex
    ensures Consistent(t) ==> r.urlIndex[url] in r.feeds && r.feeds[r.urlIndex[url]].url == url
  {
    if url in t.urlIndex then t
    else
      t.(feeds := t.feeds[t.nextFeedId := FeedRow(url, name)],
         urlIndex := t.urlIndex[url := t.nextFeedId],
         nextFeedId := t.nextFeedId + 1)
  }

  /** `UPDATE feed SET name = ? WHERE id = ?`: no row matches an absent id. */
  function UpdateFeedName(t: Tables, id: FeedId, name: string): (r: Tables)
    ensures Consistent(t) ==> Consistent(r)
    ensures r.feeds.Keys == t.feeds.Keys
    ensures forall f :: f in t.feeds ==>
      r.feeds[f] == (if f == id then FeedRow(t.feeds[f].url, name) else t.feeds[f])
    ensures r.items == t.items && r.status == t.status && r.guidIndex == t.guidIndex
    ensures r.nextItemId == t.nextItemId
  {
    if id in t.feeds then t.(feeds := t.feeds[id := t.feeds[id].(name := name)]) else t
  }

  /** `INSERT INTO feed_item (feed_id, guid, url, title, date) VALUES (...)
      ON CONFLICT(feed_id, guid) DO UPDATE SET url, title, date`. A conflicting row keeps
      its id; a new row takes the next rowid and must reference a stored feed. */
  function UpsertItem(t: Tables, feedId: FeedId, item: FeedItem): (r: Outcome)
    ensures r.Failed? <==> (feedId, item.guid) !in t.guidIndex && feedId !in t.feeds
    ensures r.Failed? ==> r.error == ForeignKeyViolation
    ensures r.Done? ==>
      var u := r.tables;
      && u.feeds == t.feeds && u.status == t.status
      && u.urlIndex == t.urlIndex && u.nextFeedId == t.nextFeedId
      && (feedId, item.guid) in u.guidIndex
      && u.guidIndex[(feedId, item.guid)] in u.items
      && u.items[u.guidIndex[(feedId, item.guid)]] == RowFor(feedId, item)
      && ((feedId, item.guid) in t.guidIndex ==>
            u.guidIndex == t.guidIndex && u.nextItemId == t.nextItemId)
      && ((feedId, item.guid) !in t.guidIndex ==>
            u.guidIndex == t.guidIndex[(feedId, item.guid) := t.nextItemId]
            && u.items.Keys == t.items.Keys + {t.nextItemId} && u.nextItemId == t.nextItemId + 1)
  {
    var key := (feedId, item.guid);
    if key in t.guidIndex then
      var id := t.guidIndex[key];
      Done(t.(items := t.items[id := RowFor(feedId, item)]))
    else if feedId !in t.feeds then
      Failed(ForeignKeyViolation)
    else
      var id := t.nextItemId;
      Done(t.(items := t.items[id := RowFor(feedId, item)],
              guidIndex := t.guidIndex[key := id],
              nextItemId := id + 1))
  }

  /** On a consistent database the upsert keeps the schema's guarantees, and touches no
      row but the one with the item's key. */
  lemma UpsertItemConsistent(t: Tables, feedId: FeedId, item: FeedItem)
    requires UpsertItem(t, feedId, item).Done?
    ensures Consistent(t) ==>
      var u := UpsertItem(t, feedId, item).tables;
      && Consistent(u)
      && ((feedId, item.guid) in t.guidIndex ==> u.items.Keys == t.items.Keys)
      && (forall k :: k in t.items && ItemKey(t.items[k]) != (feedId, item.guid) ==>
            k in u.items && u.items[k] == t.items[k])
  {
  }

  /** `INSERT INTO feed_sync_status (feed_id, success, error) VALUES (?, ?, ?)
      ON CONFLICT(feed_id) DO UPDATE SET date = now, success, error`; a new row takes the
      column default for date, which is also now. */
  function UpsertStatus(t: Tables, feedId: FeedId, success: bool, error: Option<string>, now: int): (r: Outcome)
    ensures Consistent(t) ==> (r.Failed? <==> feedId !in t.feeds)
    ensures r.Failed? ==> r.error == ForeignKeyViolation && feedId !in t.feeds
    ensures r.Done? ==>
      && (Consistent(t) && (success <==> error.None?) ==> Consistent(r.tables))
      && r.tables.status == t.status[feedId := StatusRow(now, success, error)]
      && r.tables.(status := t.status) == t
  {
    if feedId in t.status then
      Done(t.(status := t.status[feedId := StatusRow(now, success, error)]))
    else if feedId !in t.feeds then
      Failed(ForeignKeyViolation)
    else
      Done(t.(status := t.status[feedId := StatusRow(now, success, error)]))
  }

  /** `DELETE FROM feed_item WHERE feed_id = ?` */
  function DeleteItemsOf(t: Tables, feedId: FeedId): (r: Tables)
    ensures Consistent(t) ==> Consistent(r)
    ensures forall k :: k in r.items <==> k in t.items && t.items[k].feedId != feedId
    ensures forall k :: k in r.items ==> r.items[k] == t.items[k]
    ensures r.feeds == t.feeds && r.status == t.status && r.urlIndex == t.urlIndex
    ensures r.nextFeedId == t.nextFeedId && r.nextItemId == t.nextItemId
  {
    t.(items := map k | k in t.items && t.items[k].feedId != feedId :: t.items[k],
       guidIndex := map p | p in t.guidIndex && p.0 != feedId :: t.guidIndex[p])
  }

  /** `DELETE FROM feed WHERE id = ?`. The feed's sync status goes with it (ON DELETE
      CASCADE); items still referencing it make the statement fail, since that foreign
      key has no ON DELETE action. An absent id matches no row. */
  function DeleteFeedRow(t: Tables, id: FeedId): (r: Outcome)
    ensures r.Failed? <==> id in t.feeds && exists k :: k in t.items && t.items[k].feedId == id
    ensures r.Failed? ==> r.error == ForeignKeyViolation
    ensures r.Done? ==>
      && (Consistent(t) ==> Consistent(r.tables) && r.tables.status == t.status - {id})
      && r.tables.feeds == t.feeds - {id}
      && r.tables.items == t.items
  {
    if id !in t.feeds then
      Done(t)
    else if exists k :: k in t.items && t.items[k].feedId == id then
      Failed(ForeignKeyViolation)
    else
      Done(t.(feeds := t.feeds - {id},
              urlIndex := t.urlIndex - {t.feeds[id].url},
              status := t.status - {id}))
  }

  // ---------------------------------------------------------------------------------
  // Transaction bodies and wrapInTx
  // ---------------------------------------------------------------------------------

  /** The tables a transaction body has reached, and the error that stopped it. */
  datatype Exec = Exec(tables: Tables, err: Option<DbError>)

  /** The item loop of SyncFeed: item i of `items` is upserted by statement `base + i`.
      The loop stops at the first failing statement. */
  function ItemsPhase(t: Tables, feedId: FeedId, items: seq<FeedItem>, inj: Interference, base: nat): (r: Exec)
    ensures Consistent(t) ==> Consistent(r.tables)
    ensures r.tables.feeds == t.feeds && r.tables.status == t.status
    decreases |items|
  {
    if items == [] then Exec(t, None)
    else
      var prev := ItemsPhase(t, feedId, items[..|items| - 1], inj, base);
      if prev.err.Some? then prev
      else if Fires(inj, base + |items| - 1) then Exec(prev.tables, Some(inj.error))
      else match UpsertItem(prev.tables, feedId, items[|items| - 1])
        case Done(u) =>
          UpsertItemConsistent(prev.tables, feedId, items[|items| - 1]);
          Exec(u, None)
        case Failed(e) => Exec(prev.tables, Some(e))
  }

  /** The body SyncFeed runs in its transaction: statement 0 renames the feed, statement
      1 + i upserts item i, and the last statement records a successful sync. */
  function SyncFeedBody(t: Tables, id: FeedId, feed: Feed, now: int, inj: Interference): (r: Exec)
    ensures Consistent(t) ==> Consistent(r.tables)
  {
    if Fires(inj, 0) then Exec(t, Some(inj.error))
    else
      var renamed := UpdateFeedName(t, id, feed.name);
      var p := ItemsPhase(renamed, id, feed.items, inj, 1);
      if p.err.Some? then p
      else if Fires(inj, 1 + |feed.items|) then Exec(p.tables, Some(inj.error))
      else match UpsertStatus(p.tables, id, true, None, now)
        case Done(u) => Exec(u, None)
        case Failed(e) => Exec(p.tables, Some(e))
  }

  /** The body DeleteFeed runs in its transaction: statement 0 deletes the feed's items,
      statement 1 the feed row. */
  function DeleteFeedBody(t: Tables, id: FeedId, inj: Interference): (r: Exec)
    ensures Consistent(t) ==> Consistent(r.tables)
  {
    if Fires(inj, 0) then Exec(t, Some(inj.error))
    else
      var cleared := DeleteItemsOf(t, id);
      if Fires(inj, 1) then Exec(cleared, Some(inj.error))
      else match DeleteFeedRow(cleared, id)
        case Done(u) => Exec(u, None)
        case Failed(e) => Exec(cleared, Some(e))
  }

  /** The closures the store hands to wrapInTx. */
  datatype TxBody =
    | SyncFeedTx(id: FeedId, feed: Feed, now: int)
    | DeleteFeedTx(id: FeedId)

  function Body(t: Tables, body: TxBody, inj: Interference): (r: Exec)
    ensures Consistent(t) ==> Consistent(r.tables)
  {
    match body
    case SyncFeedTx(id, feed, now) => SyncFeedBody(t, id, feed, now, inj)
    case DeleteFeedTx(id) => DeleteFeedBody(t, id, inj)
  }

  /** The outcome of wrapInTx: the committed tables, the error returned, and how many
      attempts (BEGINs) it took. */
  datatype TxResult = TxResult(tables: Tables, err: Option<DbError>, attempts: nat)

  /** wrapInTx from its `numRetries`-th retry on: BEGIN, run the body, and on a body
      error roll back, then restart if the error is busy and retries remain, otherwise
      return it; a failing BEGIN or COMMIT is returned at once. */
  function WrapInTx(t: Tables, body: TxBody, attempts: seq<Interference>, numRetries: nat): (r: TxResult)
    requires numRetries <= MaxRetries
    ensures Consistent(t) ==> Consistent(r.tables)
    ensures numRetries < r.attempts <= MaxRetries + 1
    ensures r.err.Some? ==> r.tables == t
    decreases MaxRetries - numRetries
  {
    var inj := AttemptAt(attempts, numRetries);
    if inj.BeginFails? then TxResult(t, Some(inj.error), numRetries + 1)
    else
      var b := Body(t, body, inj);
      if b.err.Some? then
        if ShouldRetryOnError(b.err.value) && numRetries < MaxRetries then
          WrapInTx(t, body, attempts, numRetries + 1)
        else
          TxResult(t, b.err, numRetries + 1)
      else if inj.CommitFails? then TxResult(t, Some(inj.error), numRetries + 1)
      else TxResult(b.tables, None, numRetries + 1)
  }

  /** GetOrCreateFeedWithUrl: one transaction (no retry) that inserts a placeholder feed
      named after its url unless the url is stored, then selects the feed's id. */
  datatype GetOrCreateResult = GetOrCreateResult(tables: Tables, id: FeedId, err: Option<DbError>)

  function GetOrCreate(t: Tables, url: string, inj: Interference): (r: GetOrCreateResult)
    ensures Consistent(t) ==> Consistent(r.tables)
    ensures r.err.Some? ==> r.tables == t && r.id == 0
    ensures r.err.None? && url in t.urlIndex ==> r.tables == t && r.id == t.urlIndex[url]
    ensures r.err.None? && url !in t.urlIndex ==>
      && r.id == t.nextFeedId
      && r.tables.feeds == t.feeds[r.id := FeedRow(url, url)]
      && r.tables.items == t.items && r.tables.status == t.status
    ensures Consistent(t) && r.err.None? ==>
      && (url !in t.urlIndex ==> r.id !in t.feeds)
      && r.id in r.tables.feeds && r.tables.feeds[r.id].url == url
    ensures r.err.None? <==> !inj.BeginFails? && !Fires(inj, 0) && !Fires(inj, 1) && !inj.CommitFails?
  {
    if inj.BeginFails? then GetOrCreateResult(t, 0, Some(inj.error))
    else if Fires(inj, 0) then GetOrCreateResult(t, 0, Some(inj.error))
    else
      var inserted := InsertFeedOrIgnore(t, url, url);
      if Fires(inj, 1) then GetOrCreateResult(t, 0, Some(inj.error))
      else if inj.CommitFails? then GetOrCreateResult(t, 0, Some(inj.error))
      else GetOrCreateResult(inserted, inserted.urlIndex[url], None)
  }

  // ---------------------------------------------------------------------------------
  // What the store returns
  // ---------------------------------------------------------------------------------

  /** The record RetrieveFeed(s) builds from a feed row; store.go leaves NumUnread at 0. */
  function FeedRecordOf(id: FeedId, row: FeedRow): FeedRecord
  {
    FeedRecord(id, row.url, row.name, 0)
  }

  /** The record RetrieveFeedItems builds from an item row: the date comes back as
      `time.Unix(date, 0)`; the schema has no read column, so Read stays false. */
  function ItemRecordOf(id: FeedItemId, row: ItemRow): FeedItemRecord
  {
    FeedItemRecord(id, row.title, FromUnix(row.date), row.url, row.guid, false)
  }

  /** Every feed's record. */
  function FeedRecords(t: Tables): set<FeedRecord>
  {
    set id | id in t.feeds :: FeedRecordOf(id, t.feeds[id])
  }

  /** The records of the items of feed `feedId`. */
  function ItemRecords(t: Tables, feedId: FeedId): set<FeedItemRecord>
  {
    set k | k in t.items && t.items[k].feedId == feedId :: ItemRecordOf(k, t.items[k])
  }

  /** `ORDER BY name ASC` */
  function ByName(r: FeedRecord): OrderKey
  {
    OrderKey(0, r.name)
  }

  /** `ORDER BY date DESC, title ASC` */
  function ByDateDescTitle(r: FeedItemRecord): OrderKey
  {
    OrderKey(-Unix(r.date), r.title)
  }

  /** The status RetrieveFeedSyncStatus reads back from a row. */
  function SyncStatusOf(row: StatusRow): FeedSyncStatus
  {
    FeedSyncStatus(FromUnix(row.date), row.success, row.error)
  }


  // ---------------------------------------------------------------------------------
  // The FeedStore object
  // ---------------------------------------------------------------------------------

  /** FeedStore: the tables live in fields that its methods update in place. */
  class FeedStore {

    var feeds: map<FeedId, FeedRow>
    var items: map<FeedItemId, ItemRow>
    var status: map<FeedId, StatusRow>
    var urlIndex: map<string, FeedId>
    var guidIndex: map<(FeedId, string), FeedItemId>
    var nextFeedId: FeedId
    var nextItemId: FeedItemId

    /** The database's current content, as a value. */
    function Snapshot(): Tables
      reads this
    {
      Tables(feeds, items, status, urlIndex, guidIndex, nextFeedId, nextItemId)
    }

    ghost predicate Valid()
      reads this
    {
      Consistent(Snapshot())
    }

    /** NewFeedStore followed by Initialize on a new database: the schema is installed
        and every table is empty. */
    constructor ()
      ensures Valid() && Snapshot() == EmptyTables
    {
      feeds, items, status := map[], map[], map[];
      urlIndex, guidIndex := map[], map[];
      nextFeedId, nextItemId := 1, 1;
    }

    /** tx.Rollback: the tables return to the snapshot taken at BEGIN. */
    method Rollback(snapshot: Tables)
      modifies this
      ensures Snapshot() == snapshot
    {
      feeds, items, status := snapshot.feeds, snapshot.items, snapshot.status;
      urlIndex, guidIndex := snapshot.urlIndex, snapshot.guidIndex;
      nextFeedId, nextItemId := snapshot.nextFeedId, snapshot.nextItemId;
    }

    // The prepared statements, executed on the fields.

    /** insertFeedStmt */
    method InsertFeedStmt(url: string, name: string)
      modifies this
      ensures Snapshot() == InsertFeedOrIgnore(old(Snapshot()), url, name)
    {
      if url !in urlIndex {
        feeds := feeds[nextFeedId := FeedRow(url, name)];
        urlIndex := urlIndex[url := nextFeedId];
        nextFeedId := nextFeedId + 1;
      }
    }

    /** updateFeedRecord */
    method UpdateFeedRecord(id: FeedId, name: string)
      modifies this
      ensures Snapshot() == UpdateFeedName(old(Snapshot()), id, name)
    {
      if id in feeds {
        feeds := feeds[id := feeds[id].(name := name)];
      }
    }

    /** upsertFeedItemRecord */
    method UpsertFeedItemRecord(feedId: FeedId, item: FeedItem) returns (err: Option<DbError>)
      modifies this
      ensures match UpsertItem(old(Snapshot()), feedId, item)
        case Done(u) => Snapshot() == u && err.None?
        case Failed(e) => Snapshot() == old(Snapshot()) && err == Some(e)
    {
      var key := (feedId, item.guid);
      if key in guidIndex {
        var id := guidIndex[key];
        items := items[id := RowFor(feedId, item)];
      } else if feedId !in feeds {
        return Some(ForeignKeyViolation);
      } else {
        var id := nextItemId;
        items := items[id := RowFor(feedId, item)];
        guidIndex := guidIndex[key := id];
        nextItemId := id + 1;
      }
      err := None;
    }

    /** upsertFeedSyncStatusStmt */
    method UpsertFeedSyncStatus(feedId: FeedId, success: bool, error: Option<string>, now: int)
      returns (err: Option<DbError>)
      modifies this
      ensures match UpsertStatus(old(Snapshot()), feedId, success, error, now)
        case Done(u) => Snapshot() == u && err.None?
        case Failed(e) => Snapshot() == old(Snapshot()) && err == Some(e)
    {
      if feedId !in status && feedId !in feeds {
        return Some(ForeignKeyViolation);
      }
      status := status[feedId := StatusRow(now, success, error)];
      err := None;
    }

    /** deleteItemsInFeed */
    method DeleteItemsInFeed(feedId: FeedId)
      modifies this
      ensures Snapshot() == DeleteItemsOf(old(Snapshot()), feedId)
    {
      items := map k | k in items && items[k].feedId != feedId :: items[k];
      guidIndex := map p | p in guidIndex && p.0 != feedId :: guidIndex[p];
    }

    /** deleteFeedRecord */
    method DeleteFeedRecord(id: FeedId) returns (err: Option<DbError>)
      modifies this
      ensures match DeleteFeedRow(old(Snapshot()), id)
        case Done(u) => Snapshot() == u && err.None?
        case Failed(e) => Snapshot() == old(Snapshot()) && err == Some(e)
    {
      if id in feeds {
        if exists k :: k in items && items[k].feedId == id {
          return Some(ForeignKeyViolation);
        }
        urlIndex := urlIndex - {feeds[id].url};
        feeds := feeds - {id};
        status := status - {id};
      }
      err := None;
    }

    // The transaction bodies.

    /** The closure SyncFeed passes to wrapInTx. */
    method SyncFeedStatements(id: FeedId, feed: Feed, now: int, inj: Interference)
      returns (err: Option<DbError>)
      modifies this
      ensures Exec(Snapshot(), err) == SyncFeedBody(old(Snapshot()), id, feed, now, inj)
    {
      if Fires(inj, 0) {
        return Some(inj.error);
      }
      UpdateFeedRecord(id, feed.name);
      ghost var renamed := Snapshot();
      var i := 0;
      while i < |feed.items|
        invariant 0 <= i <= |feed.items|
        invariant renamed == UpdateFeedName(old(Snapshot()), id, feed.name)
        invariant ItemsPhase(renamed, id, feed.items[..i], inj, 1) == Exec(Snapshot(), None)
      {
        ghost var before := Snapshot();
        ItemsPhaseNext(renamed, id, feed.items, inj, 1, i, before);
        if Fires(inj, 1 + i) {
          ItemsPhaseStopsAtFailure(renamed, id, feed.items, inj, 1, i + 1);
          return Some(inj.error);
        }
        err := UpsertFeedItemRecord(id, feed.items[i]);
        if err.Some? {
          ItemsPhaseStopsAtFailure(renamed, id, feed.items, inj, 1, i + 1);
          return err;
        }
        i := i + 1;
      }
      assert feed.items[..i] == feed.items;
      if Fires(inj, 1 + |feed.items|) {
        return Some(inj.error);
      }
      err := UpsertFeedSyncStatus(id, true, None, now);
    }

    /** The closure DeleteFeed passes to wrapInTx. */
    method DeleteFeedStatements(id: FeedId, inj: Interference) returns (err: Option<DbError>)
      modifies this
      ensures Exec(Snapshot(), err) == DeleteFeedBody(old(Snapshot()), id, inj)
    {
      if Fires(inj, 0) {
        return Some(inj.error);
      }
      DeleteItemsInFeed(id);
      if Fires(inj, 1) {
        return Some(inj.error);
      }
      err := DeleteFeedRecord(id);
    }

    method RunBody(body: TxBody, inj: Interference) returns (err: Option<DbError>)
      modifies this
      ensures Exec(Snapshot(), err) == Body(old(Snapshot()), body, inj)
    {
      match body
      case SyncFeedTx(id, feed, now) =>
        err := SyncFeedStatements(id, feed, now, inj);
      case DeleteFeedTx(id) =>
        err := DeleteFeedStatements(id, inj);
    }

    /** One attempt of wrapInTx after a successful BEGIN: run the body, roll back on its
        error, otherwise COMMIT (a failing COMMIT leaves the tables as they were).
        `bodyFailed` tells the caller whether the error, if any, came from the body. */
    method TryAttempt(body: TxBody, inj: Interference) returns (err: Option<DbError>, bodyFailed: bool)
      modifies this
      ensures var b := Body(old(Snapshot()), body, inj);
        && (bodyFailed <==> b.err.Some?)
        && (bodyFailed ==> Snapshot() == old(Snapshot()) && err == b.err)
        && (!bodyFailed && inj.CommitFails? ==> Snapshot() == old(Snapshot()) && err == Some(inj.error))
        && (!bodyFailed && !inj.CommitFails? ==> Snapshot() == b.tables && err.None?)
    {
      var snapshot := Snapshot();
      err := RunBody(body, inj);
      if err.Some? {
        Rollback(snapshot);
        return err, true;
      }
      bodyFailed := false;
      if inj.CommitFails? {
        Rollback(snapshot);
        err := Some(inj.error);
      }
    }

    /** wrapInTx: runs `body` in a transaction, rolling back on any error and restarting
        on a busy error until MaxRetries retries have been made. */
    method WrapInTxMethod(body: TxBody, attempts: seq<Interference>) returns (err: Option<DbError>)
      modifies this
      ensures var r := WrapInTx(old(Snapshot()), body, attempts, 0);
        Snapshot() == r.tables && err == r.err
    {
      ghost var start := Snapshot();
      var numRetries := 0;
      while true
        invariant 0 <= numRetries <= MaxRetries
        invariant Snapshot() == start
        invariant WrapInTx(start, body, attempts, numRetries) == WrapInTx(start, body, attempts, 0)
        decreases MaxRetries - numRetries
      {
        var inj := AttemptAt(attempts, numRetries);
        if inj.BeginFails? {
          return Some(inj.error);
        }
        var bodyFailed;
        err, bodyFailed := TryAttempt(body, inj);
        WrapInTxAttempt(start, body, attempts, numRetries, Body(start, body, inj));
        if bodyFailed && ShouldRetryOnError(err.value) && numRetries < MaxRetries {
          numRetries := numRetries + 1;
          continue;
        }
        return err;
      }
    }

    // The public operations.

    /** GetOrCreateFeedWithUrl: the id of the feed with this url, created as a
        placeholder named after the url when there is none. */
    method GetOrCreateFeedWithUrl(url: string, inj: Interference) returns (id: FeedId, err: Option<DbError>)
      requires Valid()
      modifies this
      ensures Valid()
      ensures var r := GetOrCreate(old(Snapshot()), url, inj);
        Snapshot() == r.tables && id == r.id && err == r.err
    {
      if inj.BeginFails? {
        return 0, Some(inj.error);
      }
      var snapshot := Snapshot();
      if Fires(inj, 0) {
        Rollback(snapshot);
        return 0, Some(inj.error);
      }
      var placeholderName := url;
      InsertFeedStmt(url, placeholderName);
      if Fires(inj, 1) {
        Rollback(snapshot);
        return 0, Some(inj.error);
      }
      id := urlIndex[url];
      if inj.CommitFails? {
        Rollback(snapshot);
        return 0, Some(inj.error);
      }
      err := None;
    }

    /** SyncFeed: renames the feed and upserts its items by guid, atomically, and
        records a successful sync. */
    method SyncFeed(id: FeedId, feed: Feed, now: int, attempts: seq<Interference>) returns (err: Option<DbError>)
      requires Valid()
      modifies this
      ensures Valid()
      ensures var r := WrapInTx(old(Snapshot()), SyncFeedTx(id, feed, now), attempts, 0);
        Snapshot() == r.tables && err == r.err
    {
      err := WrapInTxMethod(SyncFeedTx(id, feed, now), attempts);
    }

    /** DeleteFeed: deletes the feed and all its items, atomically. */
    method DeleteFeed(id: FeedId, attempts: seq<Interference>) returns (err: Option<DbError>)
      requires Valid()
      modifies this
      ensures Valid()
      ensures var r := WrapInTx(old(Snapshot()), DeleteFeedTx(id), attempts, 0);
        Snapshot() == r.tables && err == r.err
    {
      err := WrapInTxMethod(DeleteFeedTx(id), attempts);
    }

    /** SetFeedSyncStatusError: one auto-committed statement that records a failed sync
        with the error's text; `fault` is an error the engine reports for it. */
    method SetFeedSyncStatusError(id: FeedId, syncErr: string, now: int, fault: Option<DbError>)
      returns (err: Option<DbError>)
      requires Valid()
      modifies this
      ensures Valid()
      ensures fault.Some? ==> Snapshot() == old(Snapshot()) && err == fault
      ensures fault.None? ==> match UpsertStatus(old(Snapshot()), id, false, Some(syncErr), now)
        case Done(u) => Snapshot() == u && err.None?
        case Failed(e) => Snapshot() == old(Snapshot()) && err == Some(e)
    {
      if fault.Some? {
        return fault;
      }
      err := UpsertFeedSyncStatus(id, false, Some(syncErr), now);
    }

    /** RetrieveFeedSyncStatus: whether a sync attempt has been recorded for the feed,
        and its outcome. */
    method RetrieveFeedSyncStatus(id: FeedId) returns (found: bool, syncStatus: FeedSyncStatus)
      requires Valid()
      ensures found <==> id in status
      ensures found ==> syncStatus == SyncStatusOf(status[id])
      ensures found ==> (syncStatus.success <==> syncStatus.error.None?)
      ensures !found ==> syncStatus == EmptyFeedSyncStatus
    {
      if id !in status {
        return false, EmptyFeedSyncStatus;
      }
      var row := status[id];
      found, syncStatus := true, SyncStatusOf(row);
    }

    /** RetrieveFeed: the feed's record, or sql.ErrNoRows beside an empty record. The
        schema has no read column, so the record counts no unread items. */
    method RetrieveFeed(id: FeedId) returns (record: FeedRecord, err: Option<DbError>)
      ensures err.None? <==> id in feeds
      ensures err.Some? ==> err == Some(NoRows) && record == EmptyFeedRecord
      ensures err.None? ==> record == FeedRecord(id, feeds[id].url, feeds[id].name, 0)
    {
      if id !in feeds {
        return EmptyFeedRecord, Some(NoRows);
      }
      record, err := FeedRecordOf(id, feeds[id]), None;
    }

    /** RetrieveFeeds: a record for every feed, ordered by name. */
    method RetrieveFeeds() returns (records: seq<FeedRecord>)
      ensures multiset(records) == multiset(FeedRecords(Snapshot()))
      ensures SortedBy(records, ByName)
    {
      ghost var t := Snapshot();
      var todo := feeds.Keys;
      records := [];
      while todo != {}
        invariant todo <= feeds.Keys
        invariant multiset(records) == multiset(FeedRecordsAmong(t, feeds.Keys - todo))
        invariant SortedBy(records, ByName)
        decreases |todo|
      {
        var id := Pick(todo);
        ghost var done := feeds.Keys - todo;
        FeedRecordsAmongAdd(t, done, id);
        records := InsertSorted(records, FeedRecordOf(id, feeds[id]), ByName);
        todo := todo - {id};
        assert feeds.Keys - todo == done + {id};
      }
      assert feeds.Keys - todo == feeds.Keys;
    }

    /** RetrieveFeedItems: a record for every item of the feed, newest first, ties by
        title. */
    method RetrieveFeedItems(feedId: FeedId) returns (records: seq<FeedItemRecord>)
      ensures multiset(records) == multiset(ItemRecords(Snapshot(), feedId))
      ensures SortedBy(records, ByDateDescTitle)
    {
      ghost var t := Snapshot();
      var todo := set k | k in items && items[k].feedId == feedId;
      ghost var matching := todo;
      records := [];
      while todo != {}
        invariant todo <= matching
        invariant multiset(records) == multiset(ItemRecordsAmong(t, feedId, matching - todo))
        invariant SortedBy(records, ByDateDescTitle)
        decreases |todo|
      {
        var k := Pick(todo);
        ghost var done := matching - todo;
        ItemRecordsAmongAdd(t, feedId, done, k);
        records := InsertSorted(records, ItemRecordOf(k, items[k]), ByDateDescTitle);
        todo := todo - {k};
        assert matching - todo == done + {k};
      }
      assert matching - todo == matching;
      assert ItemRecordsAmong(t, feedId, matching) == ItemRecords(t, feedId);
    }
  }

  /** The records of the feeds whose ids are among `ids`. */
  ghost function FeedRecordsAmong(t: Tables, ids: set<FeedId>): set<FeedRecord>
  {
    set id | id in ids && id in t.feeds :: FeedRecordOf(id, t.feeds[id])
  }

  lemma FeedRecordsAmongAdd(t: Tables, ids: set<FeedId>, id: FeedId)
    requires id in t.feeds && id !in ids
    ensures multiset(FeedRecordsAmong(t, ids + {id})) == multiset(FeedRecordsAmong(t, ids)) + multiset{FeedRecordOf(id, t.feeds[id])}
  {
    assert FeedRecordsAmong(t, ids + {id}) == FeedRecordsAmong(t, ids) + {FeedRecordOf(id, t.feeds[id])};
    assert FeedRecordOf(id, t.feeds[id]) !in FeedRecordsAmong(t, ids);
  }

  /** The records of the items of feed `feedId` whose ids are among `ids`. */
  ghost function ItemRecordsAmong(t: Tables, feedId: FeedId, ids: set<FeedItemId>): set<FeedItemRecord>
  {
    set k | k in ids && k in t.items && t.items[k].feedId == feedId :: ItemRecordOf(k, t.items[k])
  }

  lemma ItemRecordsAmongAdd(t: Tables, feedId: FeedId, ids: set<FeedItemId>, k: FeedItemId)
    requires k in t.items && t.items[k].feedId == feedId && k !in ids
    ensures multiset(ItemRecordsAmong(t, feedId, ids + {k})) ==
      multiset(ItemRecordsAmong(t, feedId, ids)) + multiset{ItemRecordOf(k, t.items[k])}
  {
    assert ItemRecordsAmong(t, feedId, ids + {k}) ==
      ItemRecordsAmong(t, feedId, ids) + {ItemRecordOf(k, t.items[k])};
    assert ItemRecordOf(k, t.items[k]) !in ItemRecordsAmong(t, feedId, ids);
  }

  /** One attempt of wrapInTx, given the body's run `b` under that attempt's interference. */
  lemma WrapInTxAttempt(t: Tables, body: TxBody, attempts: seq<Interference>, n: nat, b: Exec)
    requires n <= MaxRetries
    requires !AttemptAt(attempts, n).BeginFails?
    requires b == Body(t, body, AttemptAt(attempts, n))
    ensures WrapInTx(t, body, attempts, n) ==
      if b.err.Some? then
        if ShouldRetryOnError(b.err.value) && n < MaxRetries then WrapInTx(t, body, attempts, n + 1)
        else TxResult(t, b.err, n + 1)
      else if AttemptAt(attempts, n).CommitFails? then TxResult(t, Some(AttemptAt(attempts, n).error), n + 1)
      else TxResult(b.tables, None, n + 1)
  {
  }

  /** One more turn of the item loop. */
  lemma ItemsPhaseNext(
    t: Tables, feedId: FeedId, items: seq<FeedItem>, inj: Interference, base: nat, i: nat, u: Tables)
    requires i < |items|
    requires ItemsPhase(t, feedId, items[..i], inj, base) == Exec(u, None)
    ensures ItemsPhase(t, feedId, items[..i + 1], inj, base) ==
      if Fires(inj, base + i) then Exec(u, Some(inj.error))
      else match UpsertItem(u, feedId, items[i])
        case Done(v) => Exec(v, None)
        case Failed(e) => Exec(u, Some(e))
  {
    assert items[..i + 1][..i] == items[..i];
  }

  /** Once the item loop has failed on a prefix, the rest of the items is not run. */
  lemma {:induction false} ItemsPhaseStopsAtFailure(
    t: Tables, feedId: FeedId, items: seq<FeedItem>, inj: Interference, base: nat, i: nat)
    requires i <= |items|
    requires ItemsPhase(t, feedId, items[..i], inj, base).err.Some?
    ensures ItemsPhase(t, feedId, items, inj, base) == ItemsPhase(t, feedId, items[..i], inj, base)
    decreases |items|
  {
    if i < |items| {
      var shorter := items[..|items| - 1];
      assert shorter[..i] == items[..i];
      ItemsPhaseStopsAtFailure(t, feedId, shorter, inj, base, i);
    } else {
      assert items[..i] == items;
    }
  }

}
