/** What the sqliteFeedStore of internal/store/sqlite.go promises, proved about the
    functions of module SqliteStore: UpsertFeed and UpsertFeedItem return the existing
    id or a new one, an update keeps the read flag and a new item is unread, a guid
    stored under another feed is refused and rolled back, MarkRead and the unread
    counts agree, DeleteFeed removes the feed with its items, and a transaction that
    commits did what a clean run does. */
module SqliteProperties {

  import opened Wrappers
  import opened Engine
  import opened FeedTypes
  import opened Record
  import opened SqliteStore

  // ---------------------------------------------------------------------------------
  // What the schema guarantees
  // ---------------------------------------------------------------------------------

  /** feed.url UNIQUE: two stored feeds with the same url are the same feed. */
  lemma FeedUrlsUnique(t: Tables, a: FeedId, b: FeedId)
    requires Consistent(t)
    requires a in t.feeds && b in t.feeds && t.feeds[a].url == t.feeds[b].url
    ensures a == b
  {
    assert t.urlIndex[t.feeds[a].url] == a;
  }

  /** feed_item.guid UNIQUE: two stored items with the same guid are the same item,
      even when they name different feeds. */
  lemma ItemGuidsUnique(t: Tables, a: FeedItemId, b: FeedItemId)
    requires Consistent(t)
    requires a in t.items && b in t.items && t.items[a].guid == t.items[b].guid
    ensures a == b
  {
    assert t.guidIndex[t.items[a].guid] == a;
  }

  /** A url that no stored feed has is not in feed(url)'s index. */
  lemma NoFeedWithUrl(t: Tables, url: string)
    requires Consistent(t)
    requires forall id :: id in t.feeds ==> t.feeds[id].url != url
    ensures url !in t.urlIndex
  {
    forall u | u in t.urlIndex
      ensures u != url
    {
      var id := t.urlIndex[u];
      assert id in t.feeds;
      assert t.feeds[id].url == u;
      assert t.feeds[id].url != url;
    }
  }

  /** A guid that no stored item has is not in feed_item(guid)'s index. */
  lemma NoItemWithGuid(t: Tables, guid: string)
    requires Consistent(t)
    requires forall k :: k in t.items ==> t.items[k].guid != guid
    ensures guid !in t.guidIndex
  {
    forall g | g in t.guidIndex
      ensures g != guid
    {
      var k := t.guidIndex[g];
      assert k in t.items;
      assert t.items[k].guid == g;
      assert t.items[k].guid != guid;
    }
  }

  // ---------------------------------------------------------------------------------
  // UpsertFeed
  // ---------------------------------------------------------------------------------

  /** A feed with this url is stored: it is renamed and its id returned. */
  lemma UpsertExistingFeed(t: Tables, id: FeedId, feed: UrlFeed)
    requires Consistent(t)
    requires id in t.feeds && t.feeds[id].url == feed.url
    ensures var r := WrapInTx(t, UpsertFeedTx(feed), Clean);
      && r.err.None? && r.id == id as int
      && r.tables.feeds == t.feeds[id := FeedRow(feed.url, feed.name)]
      && r.tables.items == t.items
  {
    assert SelectFeedIdByUrl(t, feed.url) == Some(id);
    var u := UpdateFeedName(t, id, feed.name);
    assert u.feeds == t.feeds[id := FeedRow(feed.url, feed.name)];
  }

  /** No feed has this url: one feed is added under the next id, which is returned. */
  lemma UpsertNewFeed(t: Tables, feed: UrlFeed)
    requires Consistent(t)
    requires forall id :: id in t.feeds ==> t.feeds[id].url != feed.url
    ensures var r := WrapInTx(t, UpsertFeedTx(feed), Clean);
      && r.err.None? && r.id == t.nextFeedId as int
      && t.nextFeedId !in t.feeds
      && r.tables.feeds == t.feeds[t.nextFeedId := FeedRow(feed.url, feed.name)]
      && r.tables.items == t.items
  {
    assert feed.url !in t.urlIndex by {
      NoFeedWithUrl(t, feed.url);
    }
    assert SelectFeedIdByUrl(t, feed.url) == None;
  }

  /** Upserting the same feed twice returns the same id and changes nothing more. */
  lemma UpsertFeedIdempotent(t: Tables, feed: UrlFeed)
    requires Consistent(t)
    ensures var r := WrapInTx(t, UpsertFeedTx(feed), Clean);
      WrapInTx(r.tables, UpsertFeedTx(feed), Clean) == r
  {
    var id := UpsertFeedStores(t, feed);
    var r := WrapInTx(t, UpsertFeedTx(feed), Clean);
    UpsertStoredFeed(r.tables, id, feed);
  }

  /** Without faults, UpsertFeed leaves a stored feed holding exactly the given url and
      name, under the id it returns. */
  lemma UpsertFeedStores(t: Tables, feed: UrlFeed) returns (id: FeedId)
    requires Consistent(t)
    ensures var r := WrapInTx(t, UpsertFeedTx(feed), Clean);
      && r == TxResult(r.tables, id as int, None)
      && Consistent(r.tables)
      && id in r.tables.feeds && r.tables.feeds[id] == FeedRow(feed.url, feed.name)
  {
    match SelectFeedIdByUrl(t, feed.url)
    case Some(existing) =>
      UpsertExistingFeed(t, existing, feed);
      id := existing;
    case None =>
      id := t.nextFeedId;
      UpsertNewFeed(t, feed);
  }

  /** Upserting a feed that is stored exactly as given returns its id and changes
      nothing. */
  lemma UpsertStoredFeed(t: Tables, id: FeedId, feed: UrlFeed)
    requires Consistent(t)
    requires id in t.feeds && t.feeds[id] == FeedRow(feed.url, feed.name)
    ensures WrapInTx(t, UpsertFeedTx(feed), Clean) == TxResult(t, id as int, None)
  {
    assert SelectFeedIdByUrl(t, feed.url) == Some(id);
    assert t.feeds[id := t.feeds[id].(name := feed.name)] == t.feeds;
    assert UpdateFeedName(t, id, feed.name) == t;
  }

  // ---------------------------------------------------------------------------------
  // UpsertFeedItem
  // ---------------------------------------------------------------------------------

  /** The feed already has an item with this guid: its url, title and date are
      replaced, its read flag stays, and its id is returned. */
  lemma UpsertExistingItem(t: Tables, feedId: FeedId, k: FeedItemId, item: FeedItem)
    requires Consistent(t)
    requires k in t.items && t.items[k].feedId == feedId && t.items[k].guid == item.guid
    ensures var r := WrapInTx(t, UpsertFeedItemTx(feedId, item), Clean);
      && r.err.None? && r.id == k as int
      && r.tables.items == t.items[k := t.items[k].(url := item.url, title := item.title, date := Unix(item.date))]
      && r.tables.items[k].read == t.items[k].read
      && r.tables.feeds == t.feeds
  {
    assert SelectItemIdByGuid(t, feedId, item.guid) == Some(k);
  }

  /** No item has this guid: a new unread item is added under the next id, which is
      returned. The feed need not be stored (foreign keys are not enforced). */
  lemma UpsertNewItem(t: Tables, feedId: FeedId, item: FeedItem)
    requires Consistent(t)
    requires forall k :: k in t.items ==> t.items[k].guid != item.guid
    ensures var r := WrapInTx(t, UpsertFeedItemTx(feedId, item), Clean);
      && r.err.None? && r.id == t.nextItemId as int
      && t.nextItemId !in t.items
      && r.tables.items == t.items[t.nextItemId := NewItemRow(feedId, item)]
      && !r.tables.items[t.nextItemId].read
      && r.tables.feeds == t.feeds
  {
    assert item.guid !in t.guidIndex by {
      NoItemWithGuid(t, item.guid);
    }
    assert SelectItemIdByGuid(t, feedId, item.guid) == None;
  }

  /** An item of another feed has this guid: the INSERT violates the UNIQUE constraint,
      the transaction rolls back and (0, error) is returned. */
  lemma UpsertItemGuidOfOtherFeed(t: Tables, feedId: FeedId, k: FeedItemId, item: FeedItem)
    requires Consistent(t)
    requires k in t.items && t.items[k].guid == item.guid && t.items[k].feedId != feedId
    ensures WrapInTx(t, UpsertFeedItemTx(feedId, item), Clean) == TxResult(t, 0, Some(UniqueViolation))
  {
    assert t.guidIndex[item.guid] == k;
    assert SelectItemIdByGuid(t, feedId, item.guid) == None;
  }

  // ---------------------------------------------------------------------------------
  // MarkRead and the unread counts
  // ---------------------------------------------------------------------------------

  /** Marking an item read twice is marking it once; an absent id changes nothing. */
  lemma MarkReadIdempotent(t: Tables, id: FeedItemId)
    ensures SetItemRead(SetItemRead(t, id), id) == SetItemRead(t, id)
    ensures id !in t.items ==> SetItemRead(t, id) == t
  {
    if id in t.items {
      var u := SetItemRead(t, id);
      assert SetItemRead(u, id).items == u.items;
    }
  }

  /** Marking an unread item read lowers its feed's NumUnread by one and leaves every
      other feed's count as it was. */
  lemma MarkReadCountsDown(t: Tables, id: FeedItemId, f: FeedId)
    requires id in t.items && !t.items[id].read
    ensures var u := SetItemRead(t, id);
      |UnreadItems(u, f)| == |UnreadItems(t, f)| - (if f == t.items[id].feedId then 1 else 0)
  {
    var u := SetItemRead(t, id);
    if f == t.items[id].feedId {
      assert UnreadItems(u, f) == UnreadItems(t, f) - {id};
    } else {
      assert UnreadItems(u, f) == UnreadItems(t, f);
    }
  }

  /** A new item counts as unread in its feed. */
  lemma NewItemCountsUp(t: Tables, feedId: FeedId, item: FeedItem)
    requires Consistent(t)
    requires forall k :: k in t.items ==> t.items[k].guid != item.guid
    ensures var r := WrapInTx(t, UpsertFeedItemTx(feedId, item), Clean);
      |UnreadItems(r.tables, feedId)| == |UnreadItems(t, feedId)| + 1
  {
    UpsertNewItem(t, feedId, item);
    var r := WrapInTx(t, UpsertFeedItemTx(feedId, item), Clean);
    assert UnreadItems(r.tables, feedId) == UnreadItems(t, feedId) + {t.nextItemId};
  }

  /** Updating an existing item leaves every feed's unread count as it was. */
  lemma UpdatedItemKeepsCounts(t: Tables, feedId: FeedId, k: FeedItemId, item: FeedItem, f: FeedId)
    requires Consistent(t)
    requires k in t.items && t.items[k].feedId == feedId && t.items[k].guid == item.guid
    ensures var r := WrapInTx(t, UpsertFeedItemTx(feedId, item), Clean);
      UnreadItems(r.tables, f) == UnreadItems(t, f)
  {
    UpsertExistingItem(t, feedId, k, item);
  }

  // ---------------------------------------------------------------------------------
  // DeleteFeed
  // ---------------------------------------------------------------------------------

  /** DeleteFeed removes the feed and every item that references it; other feeds and
      their items are untouched, and the feed is left with no items to list. */
  lemma DeleteFeedEffect(t: Tables, id: FeedId)
    requires Consistent(t)
    ensures var r := WrapInTx(t, DeleteFeedTx(id), Clean);
      && r.err.None?
      && r.tables.feeds == t.feeds - {id}
      && (forall k :: k in r.tables.items <==> k in t.items && t.items[k].feedId != id)
      && (forall k :: k in r.tables.items ==> r.tables.items[k] == t.items[k])
      && ItemRecords(r.tables, id) == {}
      && UnreadItems(r.tables, id) == {}
  {
  }

  /** Deleting an id that no feed and no item uses changes nothing. */
  lemma DeleteUnusedFeedId(t: Tables, id: FeedId)
    requires Consistent(t)
    requires id !in t.feeds && forall k :: k in t.items ==> t.items[k].feedId != id
    ensures WrapInTx(t, DeleteFeedTx(id), Clean) == TxResult(t, 0, None)
  {
    var cleared := DeleteItemsOf(t, id);
    forall k | k in t.items
      ensures k in cleared.items
    {
      assert t.items[k].feedId != id;
    }
    assert cleared.items == t.items;
    forall g | g in t.guidIndex
      ensures g in cleared.guidIndex
    {
      var k := t.guidIndex[g];
      assert k in t.items;
      assert t.items[k].feedId != id;
    }
    assert cleared.guidIndex == t.guidIndex;
  }

  // ---------------------------------------------------------------------------------
  // wrapInTx / wrapInTxReturnId
  // ---------------------------------------------------------------------------------

  /** A body that finishes without error did what it does when nothing interferes. */
  lemma BodySuccessIsClean(t: Tables, body: TxBody, inj: Interference)
    requires Body(t, body, inj).err.None?
    ensures Body(t, body, inj) == Body(t, body, Clean)
  {
  }

  /** Atomicity: a transaction either commits the tables and id of a clean run of its
      body, or fails with the tables it started from and id 0. */
  lemma WrapInTxAtomic(t: Tables, body: TxBody, inj: Interference)
    ensures var r := WrapInTx(t, body, inj);
      || (r.err.None? && r.tables == Body(t, body, Clean).tables && r.id == Body(t, body, Clean).id)
      || (r.err.Some? && r.tables == t && r.id == 0)
  {
    if WrapInTx(t, body, inj).err.None? {
      BodySuccessIsClean(t, body, inj);
    }
  }

  /** A busy engine is not waited for: a busy BEGIN, a busy error from any statement
      of the body, or a busy COMMIT is the result, with no second attempt. */
  lemma BusyNotRetried(t: Tables, body: TxBody, inj: Interference)
    requires
      || inj == BeginFails(Busy)
      || (!inj.BeginFails? && Body(t, body, inj).err == Some(Busy))
      || (inj == CommitFails(Busy) && Body(t, body, inj).err.None?)
    ensures WrapInTx(t, body, inj) == TxResult(t, 0, Some(Busy))
  {
  }
}
