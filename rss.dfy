/** The RSS loader of internal/feed/rss.go: the raw records the XML decoder fills,
    validation of the fields the store needs (the item guid included, although RSS 2.0
    makes it optional), conversion to the standard Feed and FeedItems, and the
    fetch → decode → validate → convert pipeline of LoadFeedFromUrl.

    The HTTP client, the XML decoder and the RFC 1123 (numeric zone) date parser are
    parameters: total functions that return a value or an error message. */
module Rss {

  import opened Wrappers
  import opened FeedTypes
  import opened Validation
  import opened Decimal

  // ---------------------------------------------------------------------------------
  // The raw records
  // ---------------------------------------------------------------------------------

  datatype RssChannel = RssChannel(title: string, link: string)

  datatype RssItem = RssItem(title: string, link: string, pubDate: string, guid: string)

  datatype RssFeed = RssFeed(channel: RssChannel, items: seq<RssItem>)

  /** An HTTP response as the loader reads it: the status code and the body, whose
      reading may fail too. */
  datatype HttpResponse = HttpResponse(statusCode: int, body: Result<seq<bv8>>)

  // ---------------------------------------------------------------------------------
  // validate
  // ---------------------------------------------------------------------------------

  /** Every field validate looks at in an item is set. */
  predicate ItemComplete(item: RssItem)
  {
    |item.title| > 0 && |item.link| > 0 && |item.pubDate| > 0 && |item.guid| > 0
  }

  /** What validate accepts, stated field by field. */
  ghost predicate WellFormed(raw: RssFeed)
  {
    && |raw.channel.title| > 0
    && |raw.channel.link| > 0
    && forall i :: 0 <= i < |raw.items| ==> ItemComplete(raw.items[i])
  }

  /** The checks of one loop iteration, in their order. */
  function ItemError(item: RssItem): (r: Option<string>)
    ensures r.None? <==> ItemComplete(item)
    ensures |item.title| == 0 ==> r == Some("Missing item title")
    ensures |item.title| > 0 && |item.link| == 0 ==> r == Some("Missing item link")
    ensures |item.title| > 0 && |item.link| > 0 && |item.pubDate| == 0 ==> r == Some("Missing item pubDate")
    ensures |item.title| > 0 && |item.link| > 0 && |item.pubDate| > 0 && |item.guid| == 0 ==>
      r == Some("Missing item guid")
  {
    if |item.title| == 0 then Some("Missing item title")
    else if |item.link| == 0 then Some("Missing item link")
    else if |item.pubDate| == 0 then Some("Missing item pubDate")
    else if |item.guid| == 0 then Some("Missing item guid")
    else None
  }

  /** validate: the channel's title, then its link, then the items in order; the
      first check that fails gives the error. */
  function Validate(raw: RssFeed): (r: Option<string>)
    ensures r.None? <==> WellFormed(raw)
    ensures |raw.channel.title| == 0 ==> r == Some("Missing channel title")
    ensures |raw.channel.title| > 0 && |raw.channel.link| == 0 ==> r == Some("Missing channel link")
  {
    if |raw.channel.title| == 0 then Some("Missing channel title")
    else if |raw.channel.link| == 0 then Some("Missing channel link")
    else FirstFailure(raw.items, ItemError)
  }

  /** With a good channel, the first incomplete item decides the error, and its first
      empty field (title, link, pubDate, guid) names it. */
  lemma ValidateReportsFirstBadItem(raw: RssFeed, i: int)
    requires |raw.channel.title| > 0 && |raw.channel.link| > 0
    requires 0 <= i < |raw.items| && !ItemComplete(raw.items[i])
    requires forall j :: 0 <= j < i ==> ItemComplete(raw.items[j])
    ensures Validate(raw) == ItemError(raw.items[i])
    ensures |raw.items[i].title| == 0 ==> Validate(raw) == Some("Missing item title")
    ensures |raw.items[i].title| > 0 && |raw.items[i].link| == 0 ==> Validate(raw) == Some("Missing item link")
    ensures |raw.items[i].title| > 0 && |raw.items[i].link| > 0 && |raw.items[i].pubDate| == 0 ==>
      Validate(raw) == Some("Missing item pubDate")
    ensures |raw.items[i].title| > 0 && |raw.items[i].link| > 0 && |raw.items[i].pubDate| > 0 ==>
      Validate(raw) == Some("Missing item guid")
  {
    assert FirstFailing(raw.items, ItemError, i);
    FirstFailureIsFirst(raw.items, ItemError, i);
  }

  /** A channel with no items is valid as soon as it has a title and a link. */
  lemma ChannelWithoutItemsIsValid(channel: RssChannel)
    requires |channel.title| > 0 && |channel.link| > 0
    ensures Validate(RssFeed(channel, [])) == None
  {
  }

  // ---------------------------------------------------------------------------------
  // convertToFeedAndFeedItems
  // ---------------------------------------------------------------------------------

  /** The FeedItems built from the raw items in order, or the error of the first
      pubDate the parser refuses. */
  function ConvertItems(items: seq<RssItem>, parseDate: string -> Result<Time>): (r: Result<seq<FeedItem>>)
    ensures r.Ok? <==> forall i :: 0 <= i < |items| ==> parseDate(items[i].pubDate).Ok?
    ensures r.Ok? ==>
      && |r.value| == |items|
      && forall i :: 0 <= i < |items| ==>
           r.value[i] == FeedItem(items[i].title, parseDate(items[i].pubDate).value, items[i].link, items[i].guid)
    ensures r.Err? ==> exists i ::
      && 0 <= i < |items| && parseDate(items[i].pubDate) == Err(r.error)
      && forall j :: 0 <= j < i ==> parseDate(items[j].pubDate).Ok?
    decreases |items|
  {
    if items == [] then Ok([])
    else
      var last := items[|items| - 1];
      match ConvertItems(items[..|items| - 1], parseDate)
      case Err(e) => Err(e)
      case Ok(converted) =>
        match parseDate(last.pubDate)
        case Err(e) =>
          assert forall j :: 0 <= j < |items| - 1 ==> items[j] == items[..|items| - 1][j];
          Err(e)
        case Ok(date) => Ok(converted + [FeedItem(last.title, date, last.link, last.guid)])
  }

  /** convertToFeedAndFeedItems: the feed takes the channel's link and title, and the
      items are converted one by one; a date that does not parse stops the loop and
      leaves an empty Feed and no items. */
  method ConvertToFeedAndFeedItems(raw: RssFeed, parseDate: string -> Result<Time>)
    returns (feed: UrlFeed, items: seq<FeedItem>, err: Option<string>)
    ensures match ConvertItems(raw.items, parseDate)
      case Ok(converted) => feed == UrlFeed(raw.channel.link, raw.channel.title) && items == converted && err.None?
      case Err(e) => feed == UrlFeed("", "") && items == [] && err == Some(e)
  {
    feed := UrlFeed(raw.channel.link, raw.channel.title);
    items, err := [], None;
    var i := 0;
    while i < |raw.items|
      invariant 0 <= i <= |raw.items|
      invariant ConvertItems(raw.items[..i], parseDate) == Ok(items)
    {
      var rawItem := raw.items[i];
      var date := parseDate(rawItem.pubDate);
      assert raw.items[..i + 1][..i] == raw.items[..i];
      if date.Err? {
        PrefixErrorStays(raw.items, i + 1, parseDate);
        return UrlFeed("", ""), [], Some(date.error);
      }
      items := items + [FeedItem(rawItem.title, date.value, rawItem.link, rawItem.guid)];
      i := i + 1;
    }
    assert raw.items[..i] == raw.items;
  }

  /** Once a prefix of the items fails to convert, the whole list fails with the same
      error. */
  lemma {:induction false} PrefixErrorStays(items: seq<RssItem>, n: nat, parseDate: string -> Result<Time>)
    requires n <= |items| && ConvertItems(items[..n], parseDate).Err?
    ensures ConvertItems(items, parseDate) == ConvertItems(items[..n], parseDate)
    decreases |items| - n
  {
    if n < |items| {
      assert items[..n + 1][..n] == items[..n];
      PrefixErrorStays(items, n + 1, parseDate);
    } else {
      assert items[..n] == items;
    }
  }

  // ---------------------------------------------------------------------------------
  // LoadFeedFromUrl
  // ---------------------------------------------------------------------------------

  /** The error loadFeedData reports for a response whose status is not 200. */
  function StatusError(statusCode: int, url: string): string
  {
    "Received HTTP status " + IntToString(statusCode) + " from url " + url
  }

  /** The message names the status: two statuses give the same message only when they
      are equal. */
  lemma StatusErrorNamesStatus(a: int, b: int, url: string)
    requires StatusError(a, url) == StatusError(b, url)
    ensures a == b
  {
    StatusErrorDigits("Received HTTP status ", IntToString(a), IntToString(b), " from url ", url);
    IntToStringInjective(a, b);
  }

  /** The number in a status message is the part between the fixed prefix and the
      fixed suffix. */
  lemma StatusErrorDigits(prefix: string, a: string, b: string, mid: string, tail: string)
    requires prefix + a + mid + tail == prefix + b + mid + tail
    ensures a == b
  {
    var s := prefix + a + mid + tail;
    var n := |mid| + |tail|;
    assert a == s[|prefix|..|s| - n];
    assert b == (prefix + b + mid + tail)[|prefix|..|s| - n];
  }

  /** loadFeedData: GET the url; a transport error, a status other than 200 or a body
      that cannot be read is the error, otherwise the body's bytes. */
  function LoadFeedData(url: string, get: string -> Result<HttpResponse>): (r: Result<seq<bv8>>)
    ensures get(url).Err? ==> r == Err(get(url).error)
    ensures get(url).Ok? && get(url).value.statusCode != 200 ==> r == Err(StatusError(get(url).value.statusCode, url))
    ensures r.Ok? <==> get(url).Ok? && get(url).value.statusCode == 200 && get(url).value.body.Ok?
    ensures r.Ok? ==> r.value == get(url).value.body.value
  {
    match get(url)
    case Err(e) => Err(e)
    case Ok(resp) =>
      if resp.statusCode != 200 then Err(StatusError(resp.statusCode, url))
      else resp.body
  }

  /** LoadFeedFromUrl: fetch, decode, validate and convert, in that order. The first
      stage that fails gives the error, with an empty Feed and no items, and no later
      stage runs; a feed that gets through has a url and a name, and every item a
      title, a url and a guid. */
  method LoadFeedFromUrl(
    url: string,
    get: string -> Result<HttpResponse>,
    decode: seq<bv8> -> Result<RssFeed>,
    parseDate: string -> Result<Time>)
    returns (feed: UrlFeed, items: seq<FeedItem>, err: Option<string>)
    ensures err.Some? ==> feed == UrlFeed("", "") && items == []
    ensures LoadFeedData(url, get).Err? ==> err == Some(LoadFeedData(url, get).error)
    ensures LoadFeedData(url, get).Ok? && decode(LoadFeedData(url, get).value).Err? ==>
      err == Some(decode(LoadFeedData(url, get).value).error)
    ensures LoadFeedData(url, get).Ok? && decode(LoadFeedData(url, get).value).Ok? ==>
      var raw := decode(LoadFeedData(url, get).value).value;
      && (Validate(raw).Some? ==> err == Validate(raw))
      && (Validate(raw).None? ==> match ConvertItems(raw.items, parseDate)
            case Ok(converted) => feed == UrlFeed(raw.channel.link, raw.channel.title) && items == converted && err.None?
            case Err(e) => err == Some(e))
    ensures err.None? ==>
      && |feed.url| > 0 && |feed.name| > 0
      && forall i :: 0 <= i < |items| ==> |items[i].title| > 0 && |items[i].url| > 0 && |items[i].guid| > 0
  {
    var bytes := LoadFeedData(url, get);
    if bytes.Err? {
      return UrlFeed("", ""), [], Some(bytes.error);
    }
    var rawFeed := decode(bytes.value);
    if rawFeed.Err? {
      return UrlFeed("", ""), [], Some(rawFeed.error);
    }
    var invalid := Validate(rawFeed.value);
    if invalid.Some? {
      return UrlFeed("", ""), [], invalid;
    }
    feed, items, err := ConvertToFeedAndFeedItems(rawFeed.value, parseDate);
  }

}
