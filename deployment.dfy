/** How the page and the feed proxy fit together: the page fetches every
    configured feed through the proxy and reads its reply. */
module Deployment {
  import opened Wrappers
  import opened Wire
  import Feeds
  import RssProxy
  import Page

  /** One configured feed as the page sees it: `fetch(PROXY + url)` then
      `r.ok ? r.json() : throw`. Every reply but 200 is an error status, so
      `r.ok` holds only for the 200 reply with its feed body. */
  function FetchThroughProxy(url: string, parse: RssProxy.Parser): (r: Feeds.Settled)
    ensures r.Fulfilled? <==> RssProxy.Handler(Some(url), parse).statusCode == 200
  {
    match RssProxy.Handler(Some(url), parse)
    case Response(200, FeedBody(envelope)) => Feeds.Fulfilled(envelope)
    case _ => Feeds.Rejected
  }

  /** The settled results of `Promise.allSettled` over all configured feeds, in order. */
  function FetchAll(parse: RssProxy.Parser): (rs: seq<Feeds.Settled>)
    ensures |rs| == |Feeds.FEEDS|
    ensures forall k :: 0 <= k < |rs| ==> rs[k] == FetchThroughProxy(Feeds.FEEDS[k], parse)
  {
    seq(|Feeds.FEEDS|, k requires 0 <= k < |Feeds.FEEDS| => FetchThroughProxy(Feeds.FEEDS[k], parse))
  }

  /** The page's feed list and the proxy's allow-list hold the same five URLs. */
  lemma FeedsMatchAllowList()
    ensures (set u | u in Feeds.FEEDS) == RssProxy.ALLOWED_FEEDS
    ensures |Feeds.FEEDS| == 5
    ensures forall j, k :: 0 <= j < k < |Feeds.FEEDS| ==> Feeds.FEEDS[j] != Feeds.FEEDS[k]
  {
  }

  /** A configured feed is never refused by the proxy: its only failure is the
      parser's, and then the page drops it; otherwise the page gets every
      parsed item reduced to `{title, link}`, tagged with the feed's title. */
  lemma ConfiguredFeedContribution(k: nat, parse: RssProxy.Parser)
    requires k < |Feeds.FEEDS|
    ensures var resp := RssProxy.Handler(Some(Feeds.FEEDS[k]), parse);
            resp.statusCode != 400 && resp.statusCode != 403
    ensures var url := Feeds.FEEDS[k];
            Feeds.Contribution(FetchThroughProxy(url, parse))
            == match parse(url)
               case None => []
               case Some(feed) => Feeds.Kept(RssProxy.Project(feed.items), feed.title)
  {
    FeedsMatchAllowList();
    assert Feeds.FEEDS[k] in RssProxy.ALLOWED_FEEDS;
  }

  /** When the parser fails on every feed the page's merged list is empty. */
  lemma NothingParsedNothingShown(parse: RssProxy.Parser)
    requires forall k :: 0 <= k < |Feeds.FEEDS| ==> parse(Feeds.FEEDS[k]).None?
    ensures Feeds.Merge(FetchAll(parse)) == []
  {
    var rs := FetchAll(parse);
    forall j | 0 <= j < |rs| ensures !Feeds.Survives(rs[j]) {
      ConfiguredFeedContribution(j, parse);
    }
    Feeds.AllFailedMergesToEmpty(rs);
  }

  /** The first "Read a Blog" click of a page load, with every feed failing
      to parse: no post is shown and the empty list is kept, so later clicks
      fail too. */
  method FirstReadNothingParsed(parse: RssProxy.Parser, stored: Option<int>, u: real)
    returns (shown: Option<Feeds.Post>, loaded: Option<seq<Feeds.Post>>)
    requires forall k :: 0 <= k < |Feeds.FEEDS| ==> parse(Feeds.FEEDS[k]).None?
    requires 0.0 <= u < 1.0
    ensures shown.None?
    ensures loaded == Some([])
  {
    var session := new Page.Session(stored);
    NothingParsedNothingShown(parse);
    shown := session.ReadClick(FetchAll(parse), u);
    loaded := session.allPosts;
  }
}
