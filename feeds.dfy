/** The page's feed configuration and `loadFeeds`: merging the settled
    proxy replies into one flat list of posts. */
module Feeds {
  import opened Wrappers
  import opened Wire
  import JsString

  /** The configured feeds, in the order they are fetched. */
  const FEEDS: seq<string> := [
    "https://sreekarscribbles.com/feed.xml",
    "https://aravindballa.com/rss.xml",
    "https://rss.beehiiv.com/feeds/arqSjkRars.xml",
    "https://www.vikra.cafe/feed.xml",
    "https://sive.rs/en.atom"
  ]

  /** One slot of `Promise.allSettled`: the decoded JSON of a 2xx reply, or a rejection. */
  datatype Settled = Fulfilled(value: Envelope) | Rejected

  /** A post object; posts are compared by identity, as JavaScript objects are. */
  class Post {
    const title: string
    const link: string
    const blog: Option<string>

    constructor (title: string, link: string, blog: Option<string>)
      ensures this.title == title && this.link == link && this.blog == blog
    {
      this.title := title;
      this.link := link;
      this.blog := blog;
    }
  }

  /** The fields of a post, without its identity. */
  datatype PostData = PostData(title: string, link: string, blog: Option<string>)

  function DataOfAll(posts: seq<Post>): (r: seq<PostData>)
    ensures |r| == |posts|
    ensures forall k :: 0 <= k < |posts| ==> r[k] == PostData(posts[k].title, posts[k].link, posts[k].blog)
  {
    if posts == [] then [] else [PostData(posts[0].title, posts[0].link, posts[0].blog)] + DataOfAll(posts[1..])
  }

  /** No post object occurs twice. */
  predicate Distinct(posts: seq<Post>)
  {
    forall j, k :: 0 <= j < k < |posts| ==> posts[j] != posts[k]
  }

  /** The result is used: it was fulfilled and its `status` is `'ok'`. */
  predicate Survives(r: Settled)
  {
    r.Fulfilled? && r.value.status == "ok"
  }

  /** The item becomes a post: its title and its link are both truthy. */
  predicate Qualifies(item: Item)
  {
    JsString.Truthy(item.title) && JsString.Truthy(item.link)
  }

  /** The post an item becomes, tagged with its feed's title. */
  function PostOf(item: Item, blog: Option<string>): (r: PostData)
    requires Qualifies(item)
  {
    PostData(JsString.Trim(item.title.value), item.link.value, blog)
  }

  /** What one item adds: its post if it qualifies, nothing otherwise. */
  function KeptOne(item: Item, blog: Option<string>): (r: seq<PostData>)
    ensures |r| <= 1
    ensures forall d :: d in r ==> d.link != "" && d.blog == blog
  {
    if Qualifies(item) then [PostOf(item, blog)] else []
  }

  /** The posts of one feed's items, in item order. */
  function Kept(items: seq<Item>, blog: Option<string>): (r: seq<PostData>)
    ensures |r| <= |items|
    ensures forall d :: d in r ==> d.link != "" && d.blog == blog
  {
    if items == [] then [] else KeptOne(items[0], blog) + Kept(items[1..], blog)
  }

  /** What one settled result adds to the merged list. */
  function Contribution(result: Settled): (r: seq<PostData>)
  {
    if Survives(result) then Kept(result.value.items, result.value.feedTitle) else []
  }

  /** The number of items carried by the surviving results. */
  function SurvivingItems(results: seq<Settled>): (r: nat)
  {
    if results == [] then 0
    else (if Survives(results[0]) then |results[0].value.items| else 0) + SurvivingItems(results[1..])
  }

  /** The merged list: each result's contribution, in result order. */
  function Merge(results: seq<Settled>): (r: seq<PostData>)
    ensures |r| <= SurvivingItems(results)
    ensures forall d :: d in r ==> d.link != ""
  {
    if results == [] then [] else Contribution(results[0]) + Merge(results[1..])
  }

  lemma {:induction false} KeptAppend(a: seq<Item>, b: seq<Item>, blog: Option<string>)
    ensures Kept(a + b, blog) == Kept(a, blog) + Kept(b, blog)
  {
    if a == [] {
      assert a + b == b;
    } else {
      assert (a + b)[0] == a[0];
      assert (a + b)[1..] == a[1..] + b;
      KeptAppend(a[1..], b, blog);
      calc {
        Kept(a + b, blog);
        KeptOne(a[0], blog) + Kept(a[1..] + b, blog);
        KeptOne(a[0], blog) + (Kept(a[1..], blog) + Kept(b, blog));
        (KeptOne(a[0], blog) + Kept(a[1..], blog)) + Kept(b, blog);
      }
    }
  }

  /** Results keep their order in the merged list. */
  lemma {:induction false} MergeAppend(a: seq<Settled>, b: seq<Settled>)
    ensures Merge(a + b) == Merge(a) + Merge(b)
  {
    if a == [] {
      assert a + b == b;
    } else {
      assert (a + b)[0] == a[0];
      assert (a + b)[1..] == a[1..] + b;
      MergeAppend(a[1..], b);
      calc {
        Merge(a + b);
        Contribution(a[0]) + Merge(a[1..] + b);
        Contribution(a[0]) + (Merge(a[1..]) + Merge(b));
        (Contribution(a[0]) + Merge(a[1..])) + Merge(b);
      }
    }
  }

  /** A post comes out of one feed's items exactly when some qualifying item becomes it. */
  lemma {:induction false} KeptMembers(items: seq<Item>, blog: Option<string>, d: PostData)
    ensures d in Kept(items, blog) <==>
            exists k :: 0 <= k < |items| && Qualifies(items[k]) && d == PostOf(items[k], blog)
  {
    if items != [] {
      KeptMembers(items[1..], blog, d);
      if d in Kept(items, blog) && d !in KeptOne(items[0], blog) {
        var k :| 0 <= k < |items[1..]| && Qualifies(items[1..][k]) && d == PostOf(items[1..][k], blog);
        assert items[k + 1] == items[1..][k];
      }
      if exists k :: 0 <= k < |items| && Qualifies(items[k]) && d == PostOf(items[k], blog) {
        var k :| 0 <= k < |items| && Qualifies(items[k]) && d == PostOf(items[k], blog);
        if k > 0 {
          assert items[1..][k - 1] == items[k];
        }
      }
    }
  }

  /** The merged list holds exactly the posts of the qualifying items of the
      surviving results, each tagged with its own result's feed title. */
  lemma {:induction false} MergeMembers(results: seq<Settled>, d: PostData)
    ensures d in Merge(results) <==>
            exists j, k :: 0 <= j < |results| && Survives(results[j]) && 0 <= k < |results[j].value.items|
                           && Qualifies(results[j].value.items[k])
                           && d == PostOf(results[j].value.items[k], results[j].value.feedTitle)
  {
    if results != [] {
      MergeMembers(results[1..], d);
      var r := results[0];
      if Survives(r) {
        KeptMembers(r.value.items, r.value.feedTitle, d);
      }
      if d in Merge(results) {
        if d in Contribution(r) {
          var k :| 0 <= k < |r.value.items| && Qualifies(r.value.items[k]) && d == PostOf(r.value.items[k], r.value.feedTitle);
          assert results[0] == r;
        } else {
          var j, k :| 0 <= j < |results[1..]| && Survives(results[1..][j]) && 0 <= k < |results[1..][j].value.items|
                      && Qualifies(results[1..][j].value.items[k])
                      && d == PostOf(results[1..][j].value.items[k], results[1..][j].value.feedTitle);
          assert results[j + 1] == results[1..][j];
        }
      }
      if exists j, k :: 0 <= j < |results| && Survives(results[j]) && 0 <= k < |results[j].value.items|
                        && Qualifies(results[j].value.items[k])
                        && d == PostOf(results[j].value.items[k], results[j].value.feedTitle) {
        var j, k :| 0 <= j < |results| && Survives(results[j]) && 0 <= k < |results[j].value.items|
                    && Qualifies(results[j].value.items[k])
                    && d == PostOf(results[j].value.items[k], results[j].value.feedTitle);
        if j > 0 {
          assert results[1..][j - 1] == results[j];
        }
      }
    }
  }

  /** A merged title is already trimmed: the title is trimmed once and only once. */
  lemma MergedTitlesAreTrimmed(results: seq<Settled>, d: PostData)
    requires d in Merge(results)
    ensures JsString.Trim(d.title) == d.title
  {
    MergeMembers(results, d);
    var j, k :| 0 <= j < |results| && Survives(results[j]) && 0 <= k < |results[j].value.items|
                && Qualifies(results[j].value.items[k])
                && d == PostOf(results[j].value.items[k], results[j].value.feedTitle);
    JsString.TrimIdempotent(results[j].value.items[k].title.value);
  }

  /** When no result survives the merged list is empty, not an error. */
  lemma {:induction false} AllFailedMergesToEmpty(results: seq<Settled>)
    requires forall j :: 0 <= j < |results| ==> !Survives(results[j])
    ensures Merge(results) == []
  {
    if results != [] {
      assert forall j :: 0 <= j < |results[1..]| ==> results[1..][j] == results[j + 1];
      AllFailedMergesToEmpty(results[1..]);
    }
  }

  /** A title made only of white space passes the truthiness test and is
      trimmed to the empty string: such a post has an empty title. */
  lemma BlankTitleBecomesEmpty(item: Item, blog: Option<string>)
    requires JsString.Truthy(item.link) && JsString.Truthy(item.title)
    requires JsString.AllTrimmable(item.title.value)
    ensures Qualifies(item) && PostOf(item, blog).title == ""
  {
    JsString.TrimEmptyIff(item.title.value);
  }

  lemma KeptStep(items: seq<Item>, j: nat, blog: Option<string>)
    requires j < |items|
    ensures Kept(items[..j + 1], blog) == Kept(items[..j], blog) + KeptOne(items[j], blog)
  {
    var prefix, last := items[..j], items[j];
    assert items[..j + 1] == prefix + [last];
    KeptAppend(prefix, [last], blog);
    assert [last][1..] == [];
    assert Kept([last], blog) == KeptOne(last, blog) + Kept([], blog);
  }

  lemma MergeStep(results: seq<Settled>, i: nat)
    requires i < |results|
    ensures Merge(results[..i + 1]) == Merge(results[..i]) + Contribution(results[i])
  {
    var prefix, last := results[..i], results[i];
    assert results[..i + 1] == prefix + [last];
    MergeAppend(prefix, [last]);
    assert [last][1..] == [];
    assert Merge([last]) == Contribution(last) + Merge([]);
  }

  lemma DataOfAllAppend(a: seq<Post>, b: seq<Post>)
    ensures DataOfAll(a + b) == DataOfAll(a) + DataOfAll(b)
  {
    var l, r := DataOfAll(a + b), DataOfAll(a) + DataOfAll(b);
    assert |l| == |r|;
    forall k | 0 <= k < |l| ensures l[k] == r[k] {
      assert (a + b)[k] == if k < |a| then a[k] else b[k - |a|];
    }
  }

  /** Pushing a new object keeps a list distinct and keeps its prefix `acc`. */
  lemma DistinctSnoc(acc: seq<Post>, posts: seq<Post>, p: Post)
    requires Distinct(posts) && p !in posts
    requires |posts| >= |acc| && posts[..|acc|] == acc
    ensures Distinct(posts + [p])
    ensures |posts + [p]| >= |acc| && (posts + [p])[..|acc|] == acc
  {
    assert (posts + [p])[..|acc|] == posts[..|acc|];
  }

  /** One step of the inner loop of `loadFeeds`: the item's post object is
      pushed when its title and link are truthy. */
  method PushItem(acc: seq<Post>, posts: seq<Post>, item: Item, blogName: Option<string>) returns (next: seq<Post>)
    requires Distinct(posts) && |posts| >= |acc| && posts[..|acc|] == acc
    ensures |next| >= |posts| && next[..|posts|] == posts
    ensures |next| >= |acc| && next[..|acc|] == acc
    ensures DataOfAll(next) == DataOfAll(posts) + KeptOne(item, blogName)
    ensures Distinct(next)
  {
    if JsString.Truthy(item.title) && JsString.Truthy(item.link) {
      var post := new Post(JsString.Trim(item.title.value), item.link.value, blogName);
      DataOfAllAppend(posts, [post]);
      assert DataOfAll([post]) == KeptOne(item, blogName);
      DistinctSnoc(acc, posts, post);
      next := posts + [post];
    } else {
      next := posts;
    }
  }

  /** The inner loop of `loadFeeds`: pushes onto `acc` a new post object
      for each qualifying item of one feed, in item order. */
  method PushItems(acc: seq<Post>, items: seq<Item>, blogName: Option<string>) returns (posts: seq<Post>)
    requires Distinct(acc)
    ensures |posts| >= |acc| && posts[..|acc|] == acc
    ensures DataOfAll(posts) == DataOfAll(acc) + Kept(items, blogName)
    ensures Distinct(posts)
  {
    posts := acc;
    var j := 0;
    while j < |items|
      invariant j <= |items|
      invariant |posts| >= |acc| && posts[..|acc|] == acc
      invariant DataOfAll(posts) == DataOfAll(acc) + Kept(items[..j], blogName)
      invariant Distinct(posts)
    {
      ghost var before := DataOfAll(posts);
      posts := PushItem(acc, posts, items[j], blogName);
      KeptStep(items, j, blogName);
      assert DataOfAll(posts) == DataOfAll(acc) + Kept(items[..j + 1], blogName) by {
        assert DataOfAll(posts) == before + KeptOne(items[j], blogName);
        assert before == DataOfAll(acc) + Kept(items[..j], blogName);
      }
      j := j + 1;
    }
    assert items[..j] == items;
  }

  /** `loadFeeds` after the fetches have settled: the qualifying items of every
      surviving result become distinct post objects, results in order and
      items in order within each result. */
  method LoadFeeds(results: seq<Settled>) returns (posts: seq<Post>)
    ensures DataOfAll(posts) == Merge(results)
    ensures Distinct(posts)
  {
    posts := [];
    var i := 0;
    while i < |results|
      invariant i <= |results|
      invariant DataOfAll(posts) == Merge(results[..i])
      invariant Distinct(posts)
    {
      var r := results[i];
      MergeStep(results, i);
      if r.Fulfilled? && r.value.status == "ok" {
        posts := PushItems(posts, r.value.items, r.value.feedTitle);
      }
      i := i + 1;
    }
    assert results[..i] == results;
  }
}
