/** The feed content types of internal/feed/feed.go, plus the Url-carrying Feed that the
    rss.go and sqlite.go snapshots of the code base use. */
module FeedTypes {

  /** The nanosecond part of a `time.Time`. */
  type Nanos = n: int | 0 <= n < 1_000_000_000

  /** A `time.Time` reduced to its instant: whole seconds since the Unix epoch and the
      nanoseconds within that second. The time zone is not modelled. */
  datatype Time = Time(unixSeconds: int, nanos: Nanos)

  /** `t.Unix()`: the whole seconds, dropping the nanoseconds. */
  function Unix(t: Time): int
  {
    t.unixSeconds
  }

  /** `time.Unix(sec, 0)`. Storing a time as `Unix()` and reading it back with
      `FromUnix` keeps the second and loses the nanoseconds. */
  function FromUnix(sec: int): (t: Time)
    ensures Unix(t) == sec && t.nanos == 0
    ensures forall u: Time :: Unix(u) == sec && u.nanos == 0 ==> u == t
  {
    Time(sec, 0)
  }

  /** An item in a feed (e.g. a blog post), feed.go's FeedItem. */
  datatype FeedItem = FeedItem(title: string, date: Time, url: string, guid: string)

  /** A syndication feed as feed.go declares it: a name and its items. */
  datatype Feed = Feed(name: string, items: seq<FeedItem>)

  /** The Feed of the rss.go / sqlite.go snapshot: it carries the feed's own url and its
      name, and its items travel separately. */
  datatype UrlFeed = UrlFeed(url: string, name: string)

}
