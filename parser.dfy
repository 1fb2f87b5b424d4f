/** ParseExternalFeed of internal/feed/parser.go: the feed that the gofeed library
    parses (RSS or Atom) is validated and converted to the standard Feed. An item
    without a GUID is identified by its link instead, since RSS 2.0 makes the guid
    element optional.

    The gofeed parser is a parameter: a total function from the input's bytes to the
    parsed feed or an error message. */
module Parser {

  import opened Wrappers
  import opened FeedTypes
  import opened Validation

  /** The fields of a gofeed.Item that the conversion reads; `publishedParsed` is
      the *time.Time that gofeed leaves nil when it finds no date it can parse. */
  datatype GofeedItem = GofeedItem(title: string, link: string, guid: string, publishedParsed: Option<Time>)

  /** The fields of a gofeed.Feed that the conversion reads. */
  datatype GofeedFeed = GofeedFeed(title: string, items: seq<GofeedItem>)

  /** Every field validateFeed looks at in an item is set. */
  predicate ItemComplete(item: GofeedItem)
  {
    |item.title| > 0 && item.publishedParsed.Some? && |item.link| > 0
  }

  /** What validateFeed accepts, stated field by field. */
  ghost predicate WellFormed(raw: GofeedFeed)
  {
    |raw.title| > 0 && forall i :: 0 <= i < |raw.items| ==> ItemComplete(raw.items[i])
  }

  /** The checks of one loop iteration of validateFeed, in their order. */
  function ItemError(item: GofeedItem): (r: Option<string>)
    ensures r.None? <==> ItemComplete(item)
    ensures |item.title| == 0 ==> r == Some("Missing item title")
    ensures |item.title| > 0 && item.publishedParsed.None? ==> r == Some("Missing published date")
    ensures |item.title| > 0 && item.publishedParsed.Some? && |item.link| == 0 ==> r == Some("Missing item link")
  {
    if |item.title| == 0 then Some("Missing item title")
    else if item.publishedParsed.None? then Some("Missing published date")
    else if |item.link| == 0 then Some("Missing item link")
    else None
  }

  /** validateFeed: the feed's title, then the items in order; the first check that
      fails gives the error. */
  function ValidateFeed(raw: GofeedFeed): (r: Option<string>)
    ensures r.None? <==> WellFormed(raw)
    ensures |raw.title| == 0 ==> r == Some("Missing feed name")
  {
    if |raw.title| == 0 then Some("Missing feed name")
    else FirstFailure(raw.items, ItemError)
  }

  /** With a title present, the first incomplete item decides the error, and its first
      missing field (title, published date, link) names it. */
  lemma ValidateFeedReportsFirstBadItem(raw: GofeedFeed, i: int)
    requires |raw.title| > 0
    requires 0 <= i < |raw.items| && !ItemComplete(raw.items[i])
    requires forall j :: 0 <= j < i ==> ItemComplete(raw.items[j])
    ensures ValidateFeed(raw) == ItemError(raw.items[i])
    ensures |raw.items[i].title| == 0 ==> ValidateFeed(raw) == Some("Missing item title")
    ensures |raw.items[i].title| > 0 && raw.items[i].publishedParsed.None? ==>
      ValidateFeed(raw) == Some("Missing published date")
    ensures |raw.items[i].title| > 0 && raw.items[i].publishedParsed.Some? ==>
      ValidateFeed(raw) == Some("Missing item link")
  {
    assert FirstFailing(raw.items, ItemError, i);
    FirstFailureIsFirst(raw.items, ItemError, i);
  }

  /** The identity an item is stored under: its GUID, or its link when the GUID is
      empty. */
  function GuidOf(item: GofeedItem): (g: string)
    ensures |item.guid| > 0 ==> g == item.guid
    ensures |item.guid| == 0 ==> g == item.link
    ensures |g| > 0 <==> |item.guid| > 0 || |item.link| > 0
  {
    if |item.guid| == 0 then item.link else item.guid
  }

  /** ParseExternalFeed: a parse or validation error leaves an empty Feed; otherwise
      the feed is named after the parsed title and holds one item per parsed item, in
      their order, each with its title, link, date and GuidOf identity, and so with a
      non-empty title, url and guid. */
  method ParseExternalFeed(input: seq<bv8>, parse: seq<bv8> -> Result<GofeedFeed>)
    returns (feed: Feed, err: Option<string>)
    ensures parse(input).Err? ==> feed == Feed("", []) && err == Some(parse(input).error)
    ensures parse(input).Ok? && ValidateFeed(parse(input).value).Some? ==>
      feed == Feed("", []) && err == ValidateFeed(parse(input).value)
    ensures err.None? <==> parse(input).Ok? && ValidateFeed(parse(input).value).None?
    ensures err.None? ==>
      var raw := parse(input).value;
      && feed.name == raw.title
      && |feed.items| == |raw.items|
      && forall i :: 0 <= i < |raw.items| ==>
           && feed.items[i].title == raw.items[i].title
           && raw.items[i].publishedParsed == Some(feed.items[i].date)
           && feed.items[i].url == raw.items[i].link
           && feed.items[i].guid == GuidOf(raw.items[i])
    ensures err.None? ==> forall i :: 0 <= i < |feed.items| ==>
      |feed.items[i].title| > 0 && |feed.items[i].url| > 0 && |feed.items[i].guid| > 0
  {
    var parsed := parse(input);
    if parsed.Err? {
      return Feed("", []), Some(parsed.error);
    }
    var rawFeed := parsed.value;
    var invalid := ValidateFeed(rawFeed);
    if invalid.Some? {
      return Feed("", []), invalid;
    }
    var items: seq<FeedItem> := [];
    var i := 0;
    while i < |rawFeed.items|
      invariant 0 <= i <= |rawFeed.items|
      invariant |items| == i
      invariant forall j :: 0 <= j < i ==>
        && items[j].title == rawFeed.items[j].title
        && rawFeed.items[j].publishedParsed == Some(items[j].date)
        && items[j].url == rawFeed.items[j].link
        && items[j].guid == GuidOf(rawFeed.items[j])
    {
      var rawItem := rawFeed.items[i];
      assert ItemComplete(rawItem);
      var guid := rawItem.guid;
      if |guid| == 0 {
        guid := rawItem.link;
      }
      items := items + [FeedItem(rawItem.title, rawItem.publishedParsed.value, rawItem.link, guid)];
      i := i + 1;
    }
    feed, err := Feed(rawFeed.title, items), None;
  }

}
