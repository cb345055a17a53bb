/** The page's session state and its three event handlers: "Read a Blog",
    "another" and the suggestion form. */
module Page {
  import opened Wrappers
  import opened Wire
  import JsString
  import opened Feeds
  import Picker

  /** One submission per ten minutes per browser. */
  const RATE_LIMIT_MS: int := 10 * 60 * 1000

  /** The stored `rab_last_submit`, read with `parseInt(... || '0', 10)`. */
  function LastSubmit(stored: Option<int>): (r: int)
  {
    if stored.Some? then stored.value else 0
  }

  /** The form is sent: the honeypot field is empty and ten minutes have passed
      since the stored timestamp. */
  predicate Admits(stored: Option<int>, honeypot: string, now: int)
  {
    honeypot == "" && now - LastSubmit(stored) >= RATE_LIMIT_MS
  }

  /** What a submit event does. */
  datatype SubmitOutcome =
    | Dropped              // honeypot filled: silently ignored
    | PleaseWait           // inside the rate-limit window
    | Sent(entry: Submission)

  /** No two accepted submissions are less than the rate limit apart, and the
      first is at least that far from the timestamp stored when the page loaded. */
  ghost predicate Spaced(initial: Option<int>, accepted: seq<int>)
  {
    && (accepted != [] ==> accepted[0] - LastSubmit(initial) >= RATE_LIMIT_MS)
    && forall k :: 0 < k < |accepted| ==> accepted[k] - accepted[k - 1] >= RATE_LIMIT_MS
  }

  /** Appending a submission a full rate-limit window after the previous one
      (or after the initial timestamp) keeps the history spaced. */
  lemma SpacedExtend(initial: Option<int>, accepted: seq<int>, t: int)
    requires Spaced(initial, accepted)
    requires accepted == [] ==> t - LastSubmit(initial) >= RATE_LIMIT_MS
    requires accepted != [] ==> t - accepted[|accepted| - 1] >= RATE_LIMIT_MS
    ensures Spaced(initial, accepted + [t])
  {
    var a := accepted + [t];
    forall k | 0 < k < |a| ensures a[k] - a[k - 1] >= RATE_LIMIT_MS {
      if k < |accepted| {
        assert a[k] == accepted[k] && a[k - 1] == accepted[k - 1];
      }
    }
  }

  /** The module-level state of the page: `allPosts`, `current` and the
      browser's stored submission timestamp. */
  class Session {
    var allPosts: Option<seq<Post>>
    var current: Option<Post>
    var stored: Option<int>
    ghost const initialStored: Option<int>
    /** The timestamps of the submissions sent in this session, oldest first. */
    ghost var accepted: seq<int>

    ghost predicate Valid()
      reads this
    {
      && (match allPosts
          case None => current.None?
          case Some(posts) =>
            && Distinct(posts)
            && (current.Some? <==> posts != [])
            && (current.Some? ==> current.value in posts))
      && Spaced(initialStored, accepted)
      && (accepted == [] ==> stored == initialStored)
      && (accepted != [] ==> stored == Some(accepted[|accepted| - 1]))
    }

    /** A fresh page load, with whatever timestamp the browser kept. */
    constructor (stored: Option<int>)
      ensures Valid()
      ensures allPosts.None? && current.None? && this.stored == stored && accepted == []
    {
      allPosts := None;
      current := None;
      this.stored := stored;
      initialStored := stored;
      accepted := [];
    }

    /** The "Read a Blog" click. The feeds are loaded only while `allPosts` is
        null, from the settled `results`; an empty list makes the click fail
        and is kept, so every later click fails too. On success a post is
        picked with nothing excluded and becomes `current`. */
    method ReadClick(results: seq<Settled>, u: real) returns (shown: Option<Post>)
      requires Valid() && 0.0 <= u < 1.0
      modifies this
      ensures Valid()
      ensures old(allPosts).Some? ==> allPosts == old(allPosts)
      ensures old(allPosts).None? ==> allPosts.Some? && DataOfAll(allPosts.value) == Merge(results)
      ensures allPosts.Some?
      ensures allPosts.value == [] ==> shown.None? && current == old(current)
      ensures allPosts.value != [] ==> shown == current == Picker.PickRandom(allPosts.value, None, u)
      ensures stored == old(stored) && accepted == old(accepted)
    {
      if allPosts.None? {
        var posts := LoadFeeds(results);
        allPosts := Some(posts);
      }
      if allPosts.value == [] {
        shown := None;
        return;
      }
      current := Picker.PickRandom(allPosts.value, None, u);
      shown := current;
    }

    /** The "another" click: nothing happens until posts are loaded; then a
        post other than the current one is picked when there is one. */
    method AnotherClick(u: real) returns (shown: Option<Post>)
      requires Valid() && 0.0 <= u < 1.0
      modifies this
      ensures Valid()
      ensures allPosts == old(allPosts) && stored == old(stored) && accepted == old(accepted)
      ensures (allPosts.None? || allPosts.value == []) ==> shown.None? && current == old(current)
      ensures allPosts.Some? && allPosts.value != [] ==>
                shown == current == Picker.PickRandom(allPosts.value, old(current), u)
    {
      if allPosts.None? || allPosts.value == [] {
        shown := None;
        return;
      }
      current := Picker.PickRandom(allPosts.value, current, u);
      shown := current;
    }

    /** The form's submit event at time `now` (ms). The two text fields are
        trimmed, the honeypot is not. A sent submission stores `now`. */
    method Submit(inputUrl: string, inputName: string, honeypot: string, now: int) returns (outcome: SubmitOutcome)
      requires Valid()
      modifies this
      ensures Valid()
      ensures allPosts == old(allPosts) && current == old(current)
      ensures outcome == Dropped <==> honeypot != ""
      ensures outcome == PleaseWait <==> honeypot == "" && now - LastSubmit(old(stored)) < RATE_LIMIT_MS
      ensures outcome.Sent? <==> Admits(old(stored), honeypot, now)
      ensures outcome.Sent? ==> outcome.entry == Submission(JsString.Trim(inputUrl), JsString.Trim(inputName))
      ensures stored == if outcome.Sent? then Some(now) else old(stored)
      ensures accepted == if outcome.Sent? then old(accepted) + [now] else old(accepted)
    {
      var blogUrl := JsString.Trim(inputUrl);
      var name := JsString.Trim(inputName);
      if honeypot != "" {
        return Dropped;
      }
      var lastSubmit := LastSubmit(stored);
      if now - lastSubmit < RATE_LIMIT_MS {
        return PleaseWait;
      }
      outcome := Sent(Submission(blogUrl, name));
      SpacedExtend(initialStored, accepted, now);
      stored := Some(now);
      accepted := accepted + [now];
    }
  }

  /** With two or more distinct posts, "another" never shows the current one again. */
  lemma AnotherNeverRepeats(posts: seq<Post>, current: Post, u: real)
    requires Distinct(posts) && |posts| >= 2 && current in posts && 0.0 <= u < 1.0
    ensures Picker.PickRandom(posts, Some(current), u).Some?
    ensures Picker.PickRandom(posts, Some(current), u) != Some(current)
  {
    var k := if posts[0] == current then 1 else 0;
    assert posts[k] != current;
  }

  /** With a single post, "another" shows it again instead of failing. */
  lemma SinglePostRepeats(post: Post, u: real)
    requires 0.0 <= u < 1.0
    ensures Picker.PickRandom([post], Some(post), u) == Some(post)
  {
  }
}
