/** The serverless feed proxy: it fetches and parses one allow-listed feed
    and answers with its title and the `{title, link}` of each item. */
module RssProxy {
  import opened Wrappers
  import opened Wire
  import JsString

  /** The only feeds the proxy will fetch. */
  const ALLOWED_FEEDS: set<string> := {
    "https://sreekarscribbles.com/feed.xml",
    "https://aravindballa.com/rss.xml",
    "https://rss.beehiiv.com/feeds/arqSjkRars.xml",
    "https://www.vikra.cafe/feed.xml",
    "https://sive.rs/en.atom"
  }

  /** An item as the feed parser returns it; `otherFields` stands for
      everything besides the title and the link (dates, content, ...). */
  datatype ParsedItem = ParsedItem(title: Option<string>, link: Option<string>, otherFields: map<string, string>)

  datatype ParsedFeed = ParsedFeed(title: Option<string>, items: seq<ParsedItem>)

  /** The feed parser, which downloads and parses a URL: `None` when it throws. */
  type Parser = string -> Option<ParsedFeed>

  datatype Body = ErrorBody(error: string) | FeedBody(envelope: Envelope)

  datatype Response = Response(statusCode: nat, body: Body)

  /** `items.map(item => ({title: item.title, link: item.link}))` */
  function Project(items: seq<ParsedItem>): (r: seq<Item>)
    ensures |r| == |items|
    ensures forall k :: 0 <= k < |items| ==> r[k].title == items[k].title && r[k].link == items[k].link
  {
    if items == [] then [] else [Item(items[0].title, items[0].link)] + Project(items[1..])
  }

  /** The proxy's handler, given the `url` query parameter (absent: `None`). */
  function Handler(url: Option<string>, parse: Parser): (resp: Response)
    ensures resp.statusCode in {200, 400, 403, 500}
    ensures resp.statusCode == 400 <==> !JsString.Truthy(url)
    ensures resp.statusCode == 403 <==> JsString.Truthy(url) && url.value !in ALLOWED_FEEDS
    ensures resp.statusCode == 500 <==> JsString.Truthy(url) && url.value in ALLOWED_FEEDS && parse(url.value).None?
    ensures resp.statusCode != 200 <==> resp.body.ErrorBody?
    ensures resp.statusCode == 400 ==> resp.body == ErrorBody("Missing url parameter")
    ensures resp.statusCode == 403 ==> resp.body == ErrorBody("Feed not allowed")
    ensures resp.statusCode == 500 ==> resp.body == ErrorBody("Failed to fetch feed")
    ensures resp.statusCode == 200 ==>
      var feed := parse(url.value).value;
      resp.body.envelope == Envelope("ok", feed.title, Project(feed.items))
  {
    if !JsString.Truthy(url) then
      Response(400, ErrorBody("Missing url parameter"))
    else if url.value !in ALLOWED_FEEDS then
      Response(403, ErrorBody("Feed not allowed"))
    else
      match parse(url.value)
      case None => Response(500, ErrorBody("Failed to fetch feed"))
      case Some(feed) => Response(200, FeedBody(Envelope("ok", feed.title, Project(feed.items))))
  }

  /** The parser is only ever asked about allow-listed URLs: two parsers that
      agree on those give the same response for every request. */
  lemma ParserOnlySeesAllowedFeeds(url: Option<string>, p1: Parser, p2: Parser)
    requires forall u :: u in ALLOWED_FEEDS ==> p1(u) == p2(u)
    ensures Handler(url, p1) == Handler(url, p2)
  {
  }

  /** A missing or empty `url` is answered with 400 whatever the parser would say. */
  lemma MissingUrlIsBadRequest(url: Option<string>, parse: Parser)
    requires !JsString.Truthy(url)
    ensures Handler(url, parse) == Response(400, ErrorBody("Missing url parameter"))
  {
  }

  /** A URL outside the allow-list is answered with 403 and the parser is not used. */
  lemma ForeignUrlIsForbidden(url: string, p1: Parser, p2: Parser)
    requires url != "" && url !in ALLOWED_FEEDS
    ensures Handler(Some(url), p1) == Handler(Some(url), p2) == Response(403, ErrorBody("Feed not allowed"))
  {
  }

  /** On success the items keep their number and order, each reduced to its title and link. */
  lemma SuccessProjectsItems(url: string, parse: Parser, k: nat)
    requires url in ALLOWED_FEEDS && parse(url).Some? && k < |parse(url).value.items|
    ensures var resp := Handler(Some(url), parse);
      && resp.statusCode == 200
      && resp.body.envelope.status == "ok"
      && |resp.body.envelope.items| == |parse(url).value.items|
      && resp.body.envelope.items[k] == Item(parse(url).value.items[k].title, parse(url).value.items[k].link)
  {
  }
}
