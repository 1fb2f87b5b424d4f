/** The store's record types (internal/store/record.go) and the sync status record that
    store.go returns. */
module Record {

  import opened Wrappers
  import opened FeedTypes

  /** A unique identifier for each feed stored in the database. */
  newtype FeedId = int

  /** A unique identifier for each feed item stored in the database. */
  newtype FeedItemId = int

  /** The data associated with a feed in the database. `numUnread` is a count, so it is
      never negative. */
  datatype FeedRecord = FeedRecord(id: FeedId, url: string, name: string, numUnread: nat)

  /** The data associated with a feed item in the database; `guid` is the identifier
      taken from the feed source, `read` whether the user has read the item. */
  datatype FeedItemRecord = FeedItemRecord(
    id: FeedItemId, title: string, date: Time, url: string, guid: string, read: bool)

  /** The outcome of the most recent sync attempt of a feed; `error` is the text of the
      error recorded by a failed attempt. */
  datatype FeedSyncStatus = FeedSyncStatus(date: Time, success: bool, error: Option<string>)

  /** The zero value `FeedRecord{}` returned beside an error. */
  const EmptyFeedRecord := FeedRecord(0, "", "", 0)

  /** The zero value `FeedSyncStatus{}`: the zero `time.Time` is 62135596800 seconds
      before the Unix epoch (January 1 of year 1, UTC). */
  const EmptyFeedSyncStatus := FeedSyncStatus(Time(-62135596800, 0), false, None)

}
