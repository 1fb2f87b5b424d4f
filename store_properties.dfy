/** What the FeedStore of internal/store/store.go promises, proved about the functions
    of module Store: SyncFeed merges items by guid and keeps the ones it is not given,
    transactions are atomic, a busy transaction is restarted at most MaxRetries times,
    DeleteFeed removes the feed with its items, and GetOrCreateFeedWithUrl is idempotent. */
module StoreProperties {

  import opened Wrappers
  import opened Engine
  import opened FeedTypes
  import opened Record
  import opened Store

  // ---------------------------------------------------------------------------------
  // SyncFeed: upsert by guid
  // ---------------------------------------------------------------------------------

  /** The guids of a list of items. */
  function GuidsOf(items: seq<FeedItem>): (gs: set<string>)
    ensures forall i :: 0 <= i < |items| ==> items[i].guid in gs
    ensures forall g :: g in gs ==> exists i :: 0 <= i < |items| && items[i].guid == g
  {
    set i | 0 <= i < |items| :: items[i].guid
  }

  /** No later item of the list has the same guid as item `i`. */
  ghost predicate LastWithGuid(items: seq<FeedItem>, i: int)
    requires 0 <= i < |items|
  {
    forall j :: i < j < |items| ==> items[j].guid != items[i].guid
  }

  /** Every (feed, guid) key of `t` is still there with the same row id. */
  ghost predicate KeysKept(t: Tables, u: Tables)
  {
    forall p :: p in t.guidIndex ==> p in u.guidIndex && u.guidIndex[p] == t.guidIndex[p]
  }

  /** A key of `u` that `t` lacks is one of `items`' guids under feed `feedId`. */
  ghost predicate NewKeysFrom(t: Tables, u: Tables, feedId: FeedId, items: seq<FeedItem>)
  {
    forall p :: p in u.guidIndex ==> p in t.guidIndex || (p.0 == feedId && p.1 in GuidsOf(items))
  }

  /** Every guid of `items` has a row under feed `feedId`, holding the last item with
      that guid. */
  ghost predicate ItemsStored(u: Tables, feedId: FeedId, items: seq<FeedItem>)
  {
    forall i :: 0 <= i < |items| ==>
      && (feedId, items[i].guid) in u.guidIndex
      && u.guidIndex[(feedId, items[i].guid)] in u.items
      && (LastWithGuid(items, i) ==> u.items[u.guidIndex[(feedId, items[i].guid)]] == RowFor(feedId, items[i]))
  }

  /** Rows of other feeds, and rows of this feed whose guid is not among `items`, are
      kept unchanged: SyncFeed deletes nothing. */
  ghost predicate OthersUntouched(t: Tables, u: Tables, feedId: FeedId, items: seq<FeedItem>)
  {
    forall k :: k in t.items && !(t.items[k].feedId == feedId && t.items[k].guid in GuidsOf(items)) ==>
      k in u.items && u.items[k] == t.items[k]
  }

  /** `u` is `t` with `items` upserted into feed `feedId` by guid. */
  ghost predicate Merged(t: Tables, u: Tables, feedId: FeedId, items: seq<FeedItem>)
  {
    && KeysKept(t, u)
    && NewKeysFrom(t, u, feedId, items)
    && ItemsStored(u, feedId, items)
    && OthersUntouched(t, u, feedId, items)
    && u.items.Keys >= t.items.Keys
  }

  /** Upserting the last of `items` extends the merge of the others. */
  lemma MergeStep(t: Tables, p: Tables, u: Tables, feedId: FeedId, items: seq<FeedItem>)
    requires items != []
    requires Consistent(p) && Merged(t, p, feedId, items[..|items| - 1])
    requires UpsertItem(p, feedId, items[|items| - 1]) == Done(u)
    ensures Merged(t, u, feedId, items)
  {
    GuidsStep(items);
    KeysStep(t, p, u, feedId, items);
    StoredStep(p, u, feedId, items);
    UntouchedStep(t, p, u, feedId, items);
  }

  lemma GuidsStep(items: seq<FeedItem>)
    requires items != []
    ensures GuidsOf(items) == GuidsOf(items[..|items| - 1]) + {items[|items| - 1].guid}
  {
    var prefix := items[..|items| - 1];
    assert forall i :: 0 <= i < |prefix| ==> items[i] == prefix[i];
  }

  lemma KeysStep(t: Tables, p: Tables, u: Tables, feedId: FeedId, items: seq<FeedItem>)
    requires items != []
    requires Consistent(p) && KeysKept(t, p) && NewKeysFrom(t, p, feedId, items[..|items| - 1])
    requires p.items.Keys >= t.items.Keys
    requires GuidsOf(items) == GuidsOf(items[..|items| - 1]) + {items[|items| - 1].guid}
    requires UpsertItem(p, feedId, items[|items| - 1]) == Done(u)
    ensures KeysKept(t, u) && NewKeysFrom(t, u, feedId, items) && u.items.Keys >= t.items.Keys
  {
    UpsertItemConsistent(p, feedId, items[|items| - 1]);
  }

  lemma StoredStep(p: Tables, u: Tables, feedId: FeedId, items: seq<FeedItem>)
    requires items != []
    requires Consistent(p) && ItemsStored(p, feedId, items[..|items| - 1])
    requires UpsertItem(p, feedId, items[|items| - 1]) == Done(u)
    ensures ItemsStored(u, feedId, items)
  {
    var prefix, last := items[..|items| - 1], items[|items| - 1];
    UpsertItemConsistent(p, feedId, last);
    forall i | 0 <= i < |items|
      ensures (feedId, items[i].guid) in u.guidIndex
      ensures u.guidIndex[(feedId, items[i].guid)] in u.items
      ensures LastWithGuid(items, i) ==> u.items[u.guidIndex[(feedId, items[i].guid)]] == RowFor(feedId, items[i])
    {
      if i < |prefix| {
        assert items[i] == prefix[i];
        if items[i].guid != last.guid {
          var key := (feedId, items[i].guid);
          assert ItemKey(p.items[p.guidIndex[key]]) == key;
          assert u.guidIndex[key] == p.guidIndex[key];
          if LastWithGuid(items, i) {
            assert LastWithGuid(prefix, i) by {
              forall j | i < j < |prefix| ensures prefix[j].guid != prefix[i].guid {
                assert items[j] == prefix[j];
              }
            }
          }
        }
      }
    }
  }

  lemma UntouchedStep(t: Tables, p: Tables, u: Tables, feedId: FeedId, items: seq<FeedItem>)
    requires items != []
    requires Consistent(p) && OthersUntouched(t, p, feedId, items[..|items| - 1])
    requires GuidsOf(items) == GuidsOf(items[..|items| - 1]) + {items[|items| - 1].guid}
    requires UpsertItem(p, feedId, items[|items| - 1]) == Done(u)
    ensures OthersUntouched(t, u, feedId, items)
  {
    UpsertItemConsistent(p, feedId, items[|items| - 1]);
  }

  /** The item loop on a stored feed without faults upserts every item. */
  lemma {:induction false} ItemsPhaseMerges(t: Tables, feedId: FeedId, items: seq<FeedItem>, base: nat)
    requires Consistent(t) && feedId in t.feeds
    ensures var r := ItemsPhase(t, feedId, items, Clean, base);
      r.err.None? && Merged(t, r.tables, feedId, items)
    decreases |items|
  {
    if items == [] {
      assert ItemsPhase(t, feedId, items, Clean, base).tables == t;
    } else {
      var prefix := items[..|items| - 1];
      ItemsPhaseMerges(t, feedId, prefix, base);
      var p := ItemsPhase(t, feedId, prefix, Clean, base).tables;
      var u := UpsertItem(p, feedId, items[|items| - 1]).tables;
      MergeStep(t, p, u, feedId, items);
      assert ItemsPhase(t, feedId, items, Clean, base) == Exec(u, None);
    }
  }

  /** No two of `items` share a guid. */
  ghost predicate DistinctGuids(items: seq<FeedItem>)
  {
    forall i, j :: 0 <= i < j < |items| ==> items[i].guid != items[j].guid
  }

  /** The index entries that inserting `items` as new rows of feed `feedId` adds, the
      first taking rowid `first` and each next one the rowid after. */
  function NewKeys(feedId: FeedId, items: seq<FeedItem>, first: FeedItemId): map<(FeedId, string), FeedItemId>
    decreases |items|
  {
    if items == [] then map[]
    else NewKeys(feedId, items[..|items| - 1], first)[(feedId, items[|items| - 1].guid) := first + (|items| - 1) as FeedItemId]
  }

  /** The entries are exactly the items' guids under feed `feedId`. */
  lemma {:induction false} NewKeysDomain(feedId: FeedId, items: seq<FeedItem>, first: FeedItemId, key: (FeedId, string))
    ensures key in NewKeys(feedId, items, first) <==> key.0 == feedId && key.1 in GuidsOf(items)
    decreases |items|
  {
    if items != [] {
      GuidsStep(items);
      NewKeysDomain(feedId, items[..|items| - 1], first, key);
    }
  }

  /** With distinct guids, item `i` is indexed under rowid `first + i`. */
  lemma {:induction false} NewKeysNumbering(feedId: FeedId, items: seq<FeedItem>, first: FeedItemId)
    requires DistinctGuids(items)
    ensures forall i :: 0 <= i < |items| ==>
      && (feedId, items[i].guid) in NewKeys(feedId, items, first)
      && NewKeys(feedId, items, first)[(feedId, items[i].guid)] == first + i as FeedItemId
    decreases |items|
  {
    if items != [] {
      var prefix := items[..|items| - 1];
      assert DistinctGuids(prefix) by {
        forall i, j | 0 <= i < j < |prefix| ensures prefix[i].guid != prefix[j].guid {
          assert prefix[i] == items[i] && prefix[j] == items[j];
        }
      }
      NewKeysNumbering(feedId, prefix, first);
      forall i | 0 <= i < |items| - 1
        ensures (feedId, items[i].guid) in NewKeys(feedId, items, first)
        ensures NewKeys(feedId, items, first)[(feedId, items[i].guid)] == first + i as FeedItemId
      {
        assert items[i] == prefix[i];
        assert items[i].guid != items[|items| - 1].guid;
      }
    }
  }

  /** The item loop on a stored feed, without faults, inserts items whose guids are new
      and distinct under consecutive rowids in their order: item `i` gets the next rowid
      plus `i`. */
  lemma {:induction false} ItemsPhaseNumbersNewItems(t: Tables, feedId: FeedId, items: seq<FeedItem>, base: nat)
    requires feedId in t.feeds && DistinctGuids(items)
    requires forall i :: 0 <= i < |items| ==> (feedId, items[i].guid) !in t.guidIndex
    ensures var r := ItemsPhase(t, feedId, items, Clean, base);
      && r.err.None?
      && r.tables.guidIndex == t.guidIndex + NewKeys(feedId, items, t.nextItemId)
      && r.tables.nextItemId == t.nextItemId + |items| as FeedItemId
    decreases |items|
  {
    if items != [] {
      var prefix, last := items[..|items| - 1], items[|items| - 1];
      assert DistinctGuids(prefix) by {
        forall i, j | 0 <= i < j < |prefix| ensures prefix[i].guid != prefix[j].guid {
          assert prefix[i] == items[i] && prefix[j] == items[j];
        }
      }
      forall i | 0 <= i < |prefix| ensures (feedId, prefix[i].guid) !in t.guidIndex {
        assert prefix[i] == items[i];
      }
      ItemsPhaseNumbersNewItems(t, feedId, prefix, base);
      var p := ItemsPhase(t, feedId, prefix, Clean, base).tables;
      assert last.guid !in GuidsOf(prefix) by {
        forall i | 0 <= i < |prefix| ensures prefix[i].guid != last.guid {
          assert prefix[i] == items[i];
        }
      }
      var u := NumbersStep(t, p, feedId, items);
      assert ItemsPhase(t, feedId, items, Clean, base) == Exec(u, None);
    }
  }

  /** One turn of that loop: the next new guid is indexed under the next rowid. */
  lemma NumbersStep(t: Tables, p: Tables, feedId: FeedId, items: seq<FeedItem>) returns (u: Tables)
    requires items != [] && feedId in p.feeds
    requires (feedId, items[|items| - 1].guid) !in t.guidIndex
    requires items[|items| - 1].guid !in GuidsOf(items[..|items| - 1])
    requires p.guidIndex == t.guidIndex + NewKeys(feedId, items[..|items| - 1], t.nextItemId)
    requires p.nextItemId == t.nextItemId + (|items| - 1) as FeedItemId
    ensures UpsertItem(p, feedId, items[|items| - 1]) == Done(u)
    ensures u.guidIndex == t.guidIndex + NewKeys(feedId, items, t.nextItemId)
    ensures u.nextItemId == t.nextItemId + |items| as FeedItemId
  {
    var key := (feedId, items[|items| - 1].guid);
    NewKeysDomain(feedId, items[..|items| - 1], t.nextItemId, key);
    assert key !in p.guidIndex;
    u := UpsertItem(p, feedId, items[|items| - 1]).tables;
    var before := NewKeys(feedId, items[..|items| - 1], t.nextItemId);
    assert NewKeys(feedId, items, t.nextItemId) == before[key := p.nextItemId];
    assert (t.guidIndex + before)[key := p.nextItemId] == t.guidIndex + before[key := p.nextItemId];
  }

  /** SyncFeed's body on a stored feed, without faults: the name is overwritten, the url
      and id stay, the items are merged by guid, and the sync is recorded as a success. */
  lemma SyncFeedBodyEffect(t: Tables, id: FeedId, feed: Feed, now: int)
    requires Consistent(t) && id in t.feeds
    ensures var r := SyncFeedBody(t, id, feed, now, Clean);
      && r.err.None?
      && r.tables.feeds == t.feeds[id := FeedRow(t.feeds[id].url, feed.name)]
      && r.tables.urlIndex == t.urlIndex
      && r.tables.status == t.status[id := StatusRow(now, true, None)]
      && Merged(t, r.tables, id, feed.items)
  {
    var renamed := UpdateFeedName(t, id, feed.name);
    assert renamed.feeds == t.feeds[id := FeedRow(t.feeds[id].url, feed.name)];
    ItemsPhaseMerges(renamed, id, feed.items, 1);
    ItemsPhaseKeepsUrls(renamed, id, feed.items, Clean, 1);
  }

  /** The item loop never touches the feed table's url index. */
  lemma {:induction false} ItemsPhaseKeepsUrls(
    t: Tables, feedId: FeedId, items: seq<FeedItem>, inj: Interference, base: nat)
    ensures ItemsPhase(t, feedId, items, inj, base).tables.urlIndex == t.urlIndex
    decreases |items|
  {
    if items != [] {
      ItemsPhaseKeepsUrls(t, feedId, items[..|items| - 1], inj, base);
    }
  }

  /** An attempt that meets no fault commits what its body does. */
  lemma CleanAttemptCommits(t: Tables, body: TxBody, attempts: seq<Interference>, n: nat)
    requires n <= MaxRetries
    requires AttemptAt(attempts, n) == Clean
    requires Body(t, body, Clean).err.None?
    ensures WrapInTx(t, body, attempts, n) == TxResult(Body(t, body, Clean).tables, None, n + 1)
  {
  }

  /** SyncFeed without faults commits its body's effect in one attempt. */
  lemma SyncFeedCommits(t: Tables, id: FeedId, feed: Feed, now: int)
    requires Consistent(t) && id in t.feeds
    ensures var r := WrapInTx(t, SyncFeedTx(id, feed, now), [], 0);
      && r == TxResult(SyncFeedBody(t, id, feed, now, Clean).tables, None, 1)
      && id in r.tables.feeds && r.tables.feeds[id] == FeedRow(t.feeds[id].url, feed.name)
      && id in r.tables.status && r.tables.status[id] == StatusRow(now, true, None)
      && Merged(t, r.tables, id, feed.items)
  {
    SyncFeedBodyEffect(t, id, feed, now);
    CleanAttemptCommits(t, SyncFeedTx(id, feed, now), [], 0);
  }

  /** SyncFeed's body without faults indexes the new guids as the item loop does: the
      rename before it and the status upsert after it leave the index and the next rowid
      alone. */
  lemma SyncFeedBodyNumbersNewItems(t: Tables, id: FeedId, feed: Feed, now: int)
    requires id in t.feeds && DistinctGuids(feed.items)
    requires forall i :: 0 <= i < |feed.items| ==> (id, feed.items[i].guid) !in t.guidIndex
    ensures var u := SyncFeedBody(t, id, feed, now, Clean).tables;
      && u.guidIndex == t.guidIndex + NewKeys(id, feed.items, t.nextItemId)
      && u.nextItemId == t.nextItemId + |feed.items| as FeedItemId
  {
    var renamed := UpdateFeedName(t, id, feed.name);
    ItemsPhaseNumbersNewItems(renamed, id, feed.items, 1);
    SyncFeedBodyIndex(t, id, feed, now);
  }

  /** When the item loop succeeds, SyncFeed's body ends with the loop's guid index and
      next rowid. */
  lemma SyncFeedBodyIndex(t: Tables, id: FeedId, feed: Feed, now: int)
    requires id in t.feeds
    requires ItemsPhase(UpdateFeedName(t, id, feed.name), id, feed.items, Clean, 1).err.None?
    ensures var p := ItemsPhase(UpdateFeedName(t, id, feed.name), id, feed.items, Clean, 1).tables;
      var u := SyncFeedBody(t, id, feed, now, Clean).tables;
      u.guidIndex == p.guidIndex && u.nextItemId == p.nextItemId
  {
    var p := ItemsPhase(UpdateFeedName(t, id, feed.name), id, feed.items, Clean, 1).tables;
    assert id in p.feeds;
    var st := UpsertStatus(p, id, true, None, now);
    assert st.Done? && st.tables.(status := p.status) == p;
  }

  /** Item `item` of feed `feedId` is indexed under rowid `k`, and row `k` holds it. */
  ghost predicate StoredAs(u: Tables, feedId: FeedId, item: FeedItem, k: FeedItemId)
  {
    && (feedId, item.guid) in u.guidIndex
    && u.guidIndex[(feedId, item.guid)] == k
    && k in u.items && u.items[k] == RowFor(feedId, item)
  }

  /** Tables that hold `items` merged by guid, with an index that numbers the distinct
      guids from `first` on, keep item `i` under rowid `first + i`. */
  lemma NumberedRow(u: Tables, id: FeedId, items: seq<FeedItem>, index: map<(FeedId, string), FeedItemId>, first: FeedItemId, i: int)
    requires DistinctGuids(items) && ItemsStored(u, id, items)
    requires u.guidIndex == index + NewKeys(id, items, first)
    requires 0 <= i < |items|
    ensures StoredAs(u, id, items[i], first + i as FeedItemId)
  {
    NewKeysNumbering(id, items, first);
    assert LastWithGuid(items, i);
  }

  /** SyncFeed's body without faults, on items whose guids are new to the feed and
      distinct, stores item `i` under rowid `nextItemId + i`. */
  lemma SyncFeedBodyNumbersRow(t: Tables, id: FeedId, feed: Feed, now: int, i: int)
    requires Consistent(t) && id in t.feeds && DistinctGuids(feed.items)
    requires forall j :: 0 <= j < |feed.items| ==> (id, feed.items[j].guid) !in t.guidIndex
    requires 0 <= i < |feed.items|
    ensures StoredAs(SyncFeedBody(t, id, feed, now, Clean).tables, id, feed.items[i], t.nextItemId + i as FeedItemId)
  {
    var u := SyncFeedBody(t, id, feed, now, Clean).tables;
    assert ItemsStored(u, id, feed.items) by {
      SyncFeedBodyEffect(t, id, feed, now);
    }
    assert u.guidIndex == t.guidIndex + NewKeys(id, feed.items, t.nextItemId) by {
      SyncFeedBodyNumbersNewItems(t, id, feed, now);
    }
    NumberedRow(u, id, feed.items, t.guidIndex, t.nextItemId, i);
  }

  /** A clean SyncFeed of items whose guids are new to the feed and distinct stores item
      `i` under rowid `nextItemId + i`: ids follow the order of the feed's items. */
  lemma SyncFeedNumbersNewItems(t: Tables, id: FeedId, feed: Feed, now: int, i: int)
    requires Consistent(t) && id in t.feeds && DistinctGuids(feed.items)
    requires forall j :: 0 <= j < |feed.items| ==> (id, feed.items[j].guid) !in t.guidIndex
    requires 0 <= i < |feed.items|
    ensures var r := WrapInTx(t, SyncFeedTx(id, feed, now), [], 0);
      r.err.None? && StoredAs(r.tables, id, feed.items[i], t.nextItemId + i as FeedItemId)
  {
    SyncFeedBodyNumbersRow(t, id, feed, now, i);
    SyncFeedBodyEffect(t, id, feed, now);
    CleanAttemptCommits(t, SyncFeedTx(id, feed, now), [], 0);
  }

  /** TestSyncFeedNewItems: a feed created on an empty store and synced with items
      "guid.0" and "guid.1" holds them under ids 1 and 2. */
  lemma SyncFeedNewItemsExample(now: int)
    ensures var created := GetOrCreate(EmptyTables, "http://foo.com", Clean);
      var feed := Feed("Foo Feed", [
        FeedItem("Item 0", FromUnix(0), "http://foo.com/0", "guid.0"),
        FeedItem("Item 1", FromUnix(1), "http://foo.com/1", "guid.1")]);
      var r := WrapInTx(created.tables, SyncFeedTx(created.id, feed, now), [], 0);
      && created.id == 1 && r.err.None?
      && 1 in r.tables.items && r.tables.items[1] == ItemRow(1, "guid.0", "http://foo.com/0", "Item 0", 0)
      && 2 in r.tables.items && r.tables.items[2] == ItemRow(1, "guid.1", "http://foo.com/1", "Item 1", 1)
  {
    EmptyTablesConsistent();
    var created := GetOrCreate(EmptyTables, "http://foo.com", Clean);
    var feed := Feed("Foo Feed", [
      FeedItem("Item 0", FromUnix(0), "http://foo.com/0", "guid.0"),
      FeedItem("Item 1", FromUnix(1), "http://foo.com/1", "guid.1")]);
    assert created.tables.guidIndex == map[] && created.tables.nextItemId == 1;
    SyncFeedNumbersNewItems(created.tables, created.id, feed, now, 0);
    SyncFeedNumbersNewItems(created.tables, created.id, feed, now, 1);
  }

  /** The item loop on a feed that is not stored fails on its first item with the
      foreign key error, having changed nothing. */
  lemma {:induction false} ItemsPhaseOnMissingFeed(
    t: Tables, feedId: FeedId, items: seq<FeedItem>, base: nat)
    requires Consistent(t) && feedId !in t.feeds
    ensures ItemsPhase(t, feedId, items, Clean, base) ==
      if items == [] then Exec(t, None) else Exec(t, Some(ForeignKeyViolation))
    decreases |items|
  {
    if items != [] {
      var prefix := items[..|items| - 1];
      ItemsPhaseOnMissingFeed(t, feedId, prefix, base);
      var key := (feedId, items[|items| - 1].guid);
      if key in t.guidIndex {
        assert ItemKey(t.items[t.guidIndex[key]]) == key;
      }
    }
  }

  /** SyncFeed on a feed that is not stored fails with the foreign key error after one
      attempt, and changes nothing. */
  lemma SyncFeedOnMissingFeed(t: Tables, id: FeedId, feed: Feed, now: int)
    requires Consistent(t) && id !in t.feeds
    ensures WrapInTx(t, SyncFeedTx(id, feed, now), [], 0) == TxResult(t, Some(ForeignKeyViolation), 1)
  {
    var renamed := UpdateFeedName(t, id, feed.name);
    assert renamed == t;
    ItemsPhaseOnMissingFeed(t, id, feed.items, 1);
  }

  // ---------------------------------------------------------------------------------
  // wrapInTx: atomicity and the retry policy
  // ---------------------------------------------------------------------------------

  /** An item loop that ran to the end met no fault, so it did what a clean run does. */
  lemma {:induction false} ItemsPhaseSuccessIsClean(
    t: Tables, feedId: FeedId, items: seq<FeedItem>, inj: Interference, base: nat)
    requires ItemsPhase(t, feedId, items, inj, base).err.None?
    ensures ItemsPhase(t, feedId, items, inj, base) == ItemsPhase(t, feedId, items, Clean, base)
    decreases |items|
  {
    if items != [] {
      ItemsPhaseSuccessIsClean(t, feedId, items[..|items| - 1], inj, base);
    }
  }

  /** A body that ran to the end had the effect of a clean run. */
  lemma BodySuccessIsClean(t: Tables, body: TxBody, inj: Interference)
    requires Body(t, body, inj).err.None?
    ensures Body(t, body, inj) == Body(t, body, Clean)
  {
    match body
    case SyncFeedTx(id, feed, now) =>
      ItemsPhaseSuccessIsClean(UpdateFeedName(t, id, feed.name), id, feed.items, inj, 1);
    case DeleteFeedTx(id) =>
  }

  /** Transactions are atomic: whatever the engine does to the attempts, wrapInTx
      either commits exactly what the body does on a clean run, or returns an error and
      leaves the tables as they were. */
  lemma {:induction false} WrapInTxAtomic(t: Tables, body: TxBody, attempts: seq<Interference>, n: nat)
    requires n <= MaxRetries
    ensures var r := WrapInTx(t, body, attempts, n);
      && (r.err.None? ==> r.tables == Body(t, body, Clean).tables && Body(t, body, Clean).err.None?)
      && (r.err.Some? ==> r.tables == t)
    decreases MaxRetries - n
  {
    var inj := AttemptAt(attempts, n);
    if !inj.BeginFails? {
      var b := Body(t, body, inj);
      if b.err.Some? {
        if ShouldRetryOnError(b.err.value) && n < MaxRetries {
          WrapInTxAtomic(t, body, attempts, n + 1);
        }
      } else {
        BodySuccessIsClean(t, body, inj);
      }
    }
  }

  /** Every body's first statement is statement 0, so a fault there stops it at once. */
  lemma FaultAtFirstStatement(t: Tables, body: TxBody, e: DbError)
    ensures Body(t, body, StatementFails(0, e)) == Exec(t, Some(e))
  {
  }

  /** A busy error from any statement of the body restarts the transaction while
      retries remain. */
  lemma BusyRestarts(t: Tables, body: TxBody, attempts: seq<Interference>, n: nat)
    requires n < MaxRetries
    requires !AttemptAt(attempts, n).BeginFails?
    requires Body(t, body, AttemptAt(attempts, n)).err == Some(Busy)
    ensures WrapInTx(t, body, attempts, n) == WrapInTx(t, body, attempts, n + 1)
  {
  }

  /** On the last permitted attempt, a busy error from the body is returned. */
  lemma BusyOnLastAttempt(t: Tables, body: TxBody, attempts: seq<Interference>)
    requires !AttemptAt(attempts, MaxRetries).BeginFails?
    requires Body(t, body, AttemptAt(attempts, MaxRetries)).err == Some(Busy)
    ensures WrapInTx(t, body, attempts, MaxRetries) == TxResult(t, Some(Busy), MaxRetries + 1)
  {
  }

  /** An engine that stays busy makes wrapInTx give up with the busy error after
      MaxRetries + 1 attempts, leaving the tables as they were. */
  lemma {:induction false} BusyExhaustsRetries(t: Tables, body: TxBody, attempts: seq<Interference>, n: nat)
    requires n <= MaxRetries
    requires forall i :: n <= i <= MaxRetries ==> AttemptAt(attempts, i) == StatementFails(0, Busy)
    ensures WrapInTx(t, body, attempts, n) == TxResult(t, Some(Busy), MaxRetries + 1)
    decreases MaxRetries - n
  {
    FaultAtFirstStatement(t, body, Busy);
    if n < MaxRetries {
      BusyExhaustsRetries(t, body, attempts, n + 1);
    }
  }

  /** A body error other than busy, whichever statement raised it (an injected fault
      or the statement's own foreign key error), is returned from the attempt that met
      it. */
  lemma OtherErrorsNotRetried(t: Tables, body: TxBody, attempts: seq<Interference>, n: nat, e: DbError)
    requires n <= MaxRetries && !e.Busy?
    requires !AttemptAt(attempts, n).BeginFails?
    requires Body(t, body, AttemptAt(attempts, n)).err == Some(e)
    ensures WrapInTx(t, body, attempts, n) == TxResult(t, Some(e), n + 1)
  {
  }

  /** A failing BEGIN is returned at once, even when the engine is busy. */
  lemma BeginFailureNotRetried(t: Tables, body: TxBody, attempts: seq<Interference>, n: nat, e: DbError)
    requires n <= MaxRetries
    requires AttemptAt(attempts, n) == BeginFails(e)
    ensures WrapInTx(t, body, attempts, n) == TxResult(t, Some(e), n + 1)
  {
  }

  /** A failing COMMIT after a body that succeeded is returned at once, even when the
      engine is busy, and the body's changes are gone. */
  lemma CommitFailureNotRetried(t: Tables, body: TxBody, attempts: seq<Interference>, n: nat, e: DbError)
    requires n <= MaxRetries
    requires AttemptAt(attempts, n) == CommitFails(e)
    requires Body(t, body, CommitFails(e)).err.None?
    ensures WrapInTx(t, body, attempts, n) == TxResult(t, Some(e), n + 1)
  {
  }

  /** A SyncFeed whose first attempt meets a busy database commits on the second
      attempt exactly what a clean run commits. */
  lemma SyncFeedAfterOneBusyAttempt(t: Tables, id: FeedId, feed: Feed, now: int)
    requires Consistent(t) && id in t.feeds
    ensures WrapInTx(t, SyncFeedTx(id, feed, now), [StatementFails(0, Busy)], 0) ==
      TxResult(SyncFeedBody(t, id, feed, now, Clean).tables, None, 2)
  {
    var attempts := [StatementFails(0, Busy)];
    assert AttemptAt(attempts, 0) == StatementFails(0, Busy);
    assert AttemptAt(attempts, 1) == Clean;
    FaultAtFirstStatement(t, SyncFeedTx(id, feed, now), Busy);
    BusyRestarts(t, SyncFeedTx(id, feed, now), attempts, 0);
    SyncFeedBodyEffect(t, id, feed, now);
    assert Body(t, SyncFeedTx(id, feed, now), Clean) == SyncFeedBody(t, id, feed, now, Clean);
    CleanAttemptCommits(t, SyncFeedTx(id, feed, now), attempts, 1);
  }

  // ---------------------------------------------------------------------------------
  // The sync status
  // ---------------------------------------------------------------------------------

  /** After SyncFeed commits, RetrieveFeedSyncStatus finds a successful sync without
      error, dated when it ran. */
  lemma SyncFeedRecordsSuccess(t: Tables, id: FeedId, feed: Feed, now: int)
    requires Consistent(t) && id in t.feeds
    ensures var r := WrapInTx(t, SyncFeedTx(id, feed, now), [], 0);
      && r.err.None?
      && id in r.tables.status
      && SyncStatusOf(r.tables.status[id]) == FeedSyncStatus(FromUnix(now), true, None)
  {
    var r := WrapInTx(t, SyncFeedTx(id, feed, now), [], 0);
    SyncFeedCommits(t, id, feed, now);
    assert r.tables.status[id] == StatusRow(now, true, None);
  }

  /** Whatever busy or failed attempts came first, a SyncFeed that returns no error has
      committed what a clean run commits, so its status reads back as a success dated
      when it ran. */
  lemma SyncFeedSuccessRecordsSuccess(t: Tables, id: FeedId, feed: Feed, now: int, attempts: seq<Interference>)
    requires Consistent(t) && id in t.feeds
    ensures var r := WrapInTx(t, SyncFeedTx(id, feed, now), attempts, 0);
      r.err.None? ==>
        && r.tables == WrapInTx(t, SyncFeedTx(id, feed, now), [], 0).tables
        && id in r.tables.status
        && SyncStatusOf(r.tables.status[id]) == FeedSyncStatus(FromUnix(now), true, None)
  {
    WrapInTxAtomic(t, SyncFeedTx(id, feed, now), attempts, 0);
    SyncFeedRecordsSuccess(t, id, feed, now);
    SyncFeedCommits(t, id, feed, now);
  }

  /** SetFeedSyncStatusError on a stored feed replaces any earlier status with a
      failure carrying the error's text, keeps the other feeds' statuses, and touches
      no feed or item row. */
  lemma SetStatusErrorRecordsFailure(t: Tables, id: FeedId, syncErr: string, now: int)
    requires Consistent(t) && id in t.feeds
    ensures var r := UpsertStatus(t, id, false, Some(syncErr), now);
      && r.Done?
      && Consistent(r.tables)
      && id in r.tables.status
      && SyncStatusOf(r.tables.status[id]) == FeedSyncStatus(FromUnix(now), false, Some(syncErr))
      && (forall f :: f in t.status && f != id ==> f in r.tables.status && r.tables.status[f] == t.status[f])
      && r.tables.feeds == t.feeds && r.tables.items == t.items
  {
  }

  // ---------------------------------------------------------------------------------
  // DeleteFeed
  // ---------------------------------------------------------------------------------

  /** DeleteFeed without faults removes the feed, its sync status and every one of its
      items, and nothing else. */
  lemma DeleteFeedEffect(t: Tables, id: FeedId)
    requires Consistent(t)
    ensures var r := WrapInTx(t, DeleteFeedTx(id), [], 0);
      && r.err.None? && r.attempts == 1
      && r.tables.feeds == t.feeds - {id}
      && r.tables.status == t.status - {id}
      && (forall k :: k in r.tables.items <==> k in t.items && t.items[k].feedId != id)
      && (forall k :: k in r.tables.items ==> r.tables.items[k] == t.items[k])
      && ItemRecords(r.tables, id) == {}
  {
    var cleared := DeleteItemsOf(t, id);
    assert !exists k :: k in cleared.items && cleared.items[k].feedId == id;
    var d := DeleteFeedRow(cleared, id);
    assert d.Done?;
    assert DeleteFeedBody(t, id, Clean) == Exec(d.tables, None);
    CleanAttemptCommits(t, DeleteFeedTx(id), [], 0);
    assert ItemRecords(d.tables, id) == {};
  }

  /** Whatever busy or failed attempts came first, a DeleteFeed that returns no error
      has removed the feed, its status and its items, and nothing else. */
  lemma DeleteFeedSuccessEffect(t: Tables, id: FeedId, attempts: seq<Interference>)
    requires Consistent(t)
    ensures var r := WrapInTx(t, DeleteFeedTx(id), attempts, 0);
      r.err.None? ==>
        && r.tables == WrapInTx(t, DeleteFeedTx(id), [], 0).tables
        && r.tables.feeds == t.feeds - {id}
        && r.tables.status == t.status - {id}
        && (forall k :: k in r.tables.items <==> k in t.items && t.items[k].feedId != id)
        && ItemRecords(r.tables, id) == {}
  {
    WrapInTxAtomic(t, DeleteFeedTx(id), attempts, 0);
    DeleteFeedEffect(t, id);
    CleanAttemptCommits(t, DeleteFeedTx(id), [], 0);
  }

  /** Deleting a feed that is not stored changes nothing. */
  lemma DeleteMissingFeed(t: Tables, id: FeedId)
    requires Consistent(t) && id !in t.feeds
    ensures WrapInTx(t, DeleteFeedTx(id), [], 0) == TxResult(t, None, 1)
  {
    var cleared := DeleteItemsOf(t, id);
    assert cleared.items == t.items by {
      forall k | k in t.items ensures t.items[k].feedId != id {
        assert t.items[k].feedId in t.feeds;
      }
    }
    assert cleared.guidIndex == t.guidIndex by {
      forall p | p in t.guidIndex ensures p.0 != id {
        assert ItemKey(t.items[t.guidIndex[p]]) == p;
      }
    }
  }

  // ---------------------------------------------------------------------------------
  // GetOrCreateFeedWithUrl
  // ---------------------------------------------------------------------------------

  /** Asking twice for the same url gives the same feed and creates nothing the second
      time. */
  lemma GetOrCreateIdempotent(t: Tables, url: string)
    requires Consistent(t)
    ensures var r1 := GetOrCreate(t, url, Clean);
      var r2 := GetOrCreate(r1.tables, url, Clean);
      r2.err.None? && r2.tables == r1.tables && r2.id == r1.id
  {
  }

  /** Feeds get ids 1, 2, ... in the order they are first asked for. */
  lemma GetOrCreateAssignsIdsInOrder(a: string, b: string)
    requires a != b
    ensures var r1 := GetOrCreate(EmptyTables, a, Clean);
      var r2 := GetOrCreate(r1.tables, b, Clean);
      var r3 := GetOrCreate(r2.tables, a, Clean);
      r1.id == 1 && r2.id == 2 && r3.id == 1 && r3.tables.feeds == map[1 := FeedRow(a, a), 2 := FeedRow(b, b)]
  {
  }
}
