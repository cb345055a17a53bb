# read-a-blog, modelled in Dafny

"Read a Blog" is a one-page site that shows one random post drawn from five
fixed blog feeds, and lets visitors suggest a new blog through a form. This
project models and proves properties of its three pieces of logic:

- **the page script** (`script.js`): `loadFeeds` merges the settled proxy
  replies into one flat list of post objects; `pickRandom` picks a post,
  avoiding the one already shown; the click handlers keep the loaded list
  (`allPosts`) and the shown post (`current`); the suggestion form is guarded
  by a honeypot field and a ten-minute rate limit kept as a stored timestamp.
- **the feed proxy** (`netlify/functions/rss-proxy.js`): a guard cascade
  (400 missing URL, 403 URL outside the allow-list, 500 parser failure, 200
  plus the projected feed).
- **the submission relay** (`netlify/functions/submit-blog.js`): a guard
  cascade (405 non-POST, 400 invalid URL, 400 failed CAPTCHA, 200) that
  forwards the trimmed fields to Google Forms and ignores whether that
  forwarding succeeds.

Modules, one per component:

| file | module | models |
|---|---|---|
| `wrappers.dfy` | `Wrappers` | `Option`, for JavaScript's `null`/`undefined` |
| `js_string.dfy` | `JsString` | truthiness, `x \|\| ''`, `String.prototype.trim` |
| `wire.dfy` | `Wire` | the proxy's JSON reply and the Google Forms payload |
| `rss_proxy.dfy` | `RssProxy` | the proxy handler |
| `submit_blog.dfy` | `SubmitBlog` | the relay handler |
| `feeds.dfy` | `Feeds` | the feed list, post objects, `loadFeeds` |
| `picker.dfy` | `Picker` | `pickRandom` |
| `page.dfy` | `Page` | the page's session state and its three handlers |
| `deployment.dfy` | `Deployment` | the page fetching feeds through the proxy |

How the model is built:

- Posts are objects of class `Feeds.Post` with constant fields. Two posts
  are the same only if they are the same object, as with JavaScript's `!==`.
  `loadFeeds` is a method with the source's two nested loops; the inner loop
  is the method `PushItems`, and its body is the method `PushItem`. Both
  keep the list they push onto, object for object. Their contracts tie the
  posts' fields to the specification function `Merge` and state that no
  object occurs twice.
- `Math.random()` is a real parameter `u` with `0 <= u < 1`. The index is
  `Floor(u * n)`, computed exactly over the reals. `source[k] ?? null` is
  kept: an out-of-range index gives `None`. The model proves the index is
  always in range for a non-empty candidate list; for an empty pool it is 0,
  and the result is `None`.
- The page's module-level state is the class `Page.Session`. Its fields are
  `allPosts`, `current` and the stored `rab_last_submit` timestamp. A ghost
  history of sent submissions carries the rate-limit invariant: sent
  submissions are at least 600000 ms apart.
- Collaborators the code cannot see are parameters. The feed parser is a
  function `string -> Option<ParsedFeed>`, `None` when it throws. `new
  URL(...).protocol` is a function that gives `None` when the URL does not
  parse. Turnstile's siteverify is a function of the token and the client
  address. The clock is the parameter `now`. A property that says "X is
  not consulted" is proved as independence: the outcome is the same for
  any two values of X.

Facts about the code that the model makes explicit:

- The page has no per-feed rotation: `pickRandom` picks any post, avoiding
  the one on screen.
- The page's form handler posts straight to Google Forms. Its only bot
  defences are the honeypot field and the rate limit.
  `netlify/functions/submit-blog.js` is modelled as written, though
  `script.js` never calls it.
- An item passes the filter when its title is any non-empty string. A title
  made only of white space therefore becomes a post with an empty title
  (`Feeds.BlankTitleBecomesEmpty`).

## Model

| member | source | states |
|---|---|---|
| `JsString.OrEmpty` | netlify/functions/submit-blog.js:9-11 | `v \|\| ''` is the value when it is a non-empty string and `''` when it is missing or empty |
| `JsString.TrimStartSpec` | script.js:37 | trimming the front removes a prefix made only of ECMAScript white space and line terminators, and stops at the first code point it keeps |
| `JsString.TrimEndSpec` | script.js:37 | trimming the end removes a suffix made only of trimmable code points, and stops at the last code point it keeps |
| `JsString.TrimIsTrimmedInfix` | netlify/functions/submit-blog.js:10-11 | `trim()` returns an infix of its input that neither starts nor ends with a trimmable code point; everything removed around it is trimmable |
| `JsString.TrimIdempotent` | script.js:37 | trimming an already trimmed string changes nothing |
| `JsString.TrimEmptyIff` | script.js:35-37 | `trim()` returns `''` exactly when every code point of the input is trimmable |
| `RssProxy.Project` | netlify/functions/rss-proxy.js:32 | the projected items have the same number and order as the parsed items; each keeps exactly that item's `title` and `link` |
| `RssProxy.Handler` | netlify/functions/rss-proxy.js:13-38 | the status is 200, 400, 403 or 500. It is 400 exactly when `url` is missing or empty, 403 exactly when `url` is present but not allow-listed, and 500 exactly when an allow-listed URL fails to parse. A 200 body is `{status:'ok', feed.title, projected items}`; every other status carries its error body: 'Missing url parameter', 'Feed not allowed' or 'Failed to fetch feed' |
| `RssProxy.ParserOnlySeesAllowedFeeds` | netlify/functions/rss-proxy.js:20-25 | the parser is used only for allow-listed URLs: two parsers that agree on the five URLs give the same response to every request |
| `RssProxy.MissingUrlIsBadRequest` | netlify/functions/rss-proxy.js:16-18 | a missing or empty `url` gives 400 'Missing url parameter', whatever the parser |
| `RssProxy.ForeignUrlIsForbidden` | netlify/functions/rss-proxy.js:20-22 | a URL outside the allow-list gives 403 'Feed not allowed', the same for every parser |
| `RssProxy.SuccessProjectsItems` | netlify/functions/rss-proxy.js:26-34 | an allow-listed URL that parses gives 200 with `status: 'ok'`; its k-th item is the k-th parsed item's title and link |
| `SubmitBlog.Get` | netlify/functions/submit-blog.js:8-11 | `params.get(key)` is `null` exactly when no field has that name; otherwise it is the value of the first field with that name |
| `SubmitBlog.ClientIp` | netlify/functions/submit-blog.js:22 | the client address is Netlify's connection header if that is non-empty, else `x-forwarded-for`, else `''` |
| `SubmitBlog.Handler` | netlify/functions/submit-blog.js:3-49 | 405 exactly for non-POST. 'Invalid URL' exactly for a POST whose trimmed `blogUrl` does not parse to `https:` or `http:`. 200 exactly when the URL is valid and Turnstile answers `success: true`. 200 is the only status with the `ok` body. Something is forwarded exactly on 200, and it is the trimmed `blogUrl` and `name`. The handler crashes (the exception escapes) exactly when the URL is valid and the siteverify call throws |
| `SubmitBlog.MethodCheckedFirst` | netlify/functions/submit-blog.js:4-6 | a non-POST request gives 405, the same for every URL parser, verifier and forwarding result |
| `SubmitBlog.InvalidUrlSkipsCaptcha` | netlify/functions/submit-blog.js:14-19 | a POST with an invalid URL gives 400 'Invalid URL', the same for every verifier: Turnstile is not consulted |
| `SubmitBlog.FailedCaptchaForwardsNothing` | netlify/functions/submit-blog.js:34-36 | a failed CAPTCHA gives 400 'CAPTCHA verification failed' and nothing is forwarded |
| `SubmitBlog.ForwardFailureIgnored` | netlify/functions/submit-blog.js:39-48 | the outcome is the same whether or not the Google Forms POST succeeds; `Handler` does not read the forward's result, as `.catch(() => {})` discards it |
| `SubmitBlog.MissingFieldsForwardedEmpty` | netlify/functions/submit-blog.js:10-11 | a missing `name` is forwarded as the empty string |
| `Feeds.KeptOne` | script.js:35-41 | one item adds at most one post; that post has a non-empty link and carries the feed's title |
| `Feeds.Kept` | script.js:34-42 | one feed contributes at most as many posts as it has items; each has a non-empty link and the feed's title as `blog` |
| `Feeds.Merge` | script.js:30-44 | the merged list is no longer than the number of items in surviving results, and every merged post has a non-empty link |
| `Feeds.KeptAppend` | script.js:34-42 | items keep their order: the posts of `a + b` are the posts of `a` followed by those of `b` |
| `Feeds.MergeAppend` | script.js:31-43 | results keep their order: merging `a + b` gives the merge of `a` followed by the merge of `b` |
| `Feeds.KeptMembers` | script.js:34-41 | a post comes from a feed's items exactly when some item with a truthy title and link becomes it: trimmed title, same link, the feed's title |
| `Feeds.MergeMembers` | script.js:30-44 | a post is in the merged list exactly when it comes from a qualifying item of a result that is fulfilled with `status === 'ok'`, tagged with that result's feed title |
| `Feeds.MergedTitlesAreTrimmed` | script.js:37 | every merged title is already trimmed |
| `Feeds.AllFailedMergesToEmpty` | script.js:30-44 | when no result survives, the merged list is empty rather than an error |
| `Feeds.BlankTitleBecomesEmpty` | script.js:35-37 | an item whose title is only white space passes the filter and becomes a post with the empty title |
| `Feeds.Post.constructor` | script.js:36-40 | a new post object holds the given title, link and blog name |
| `Feeds.PushItem` | script.js:35-41 | one item pushes its post as a new object when its title and link are truthy, and nothing otherwise; the list before it is kept, the same objects in the same places, and stays distinct |
| `Feeds.PushItems` | script.js:34-42 | the inner loop keeps the list so far, the same objects in the same places, and appends one new post per qualifying item, in item order; no object occurs twice |
| `Feeds.LoadFeeds` | script.js:22-45 | the returned posts have exactly the fields of `Merge(results)`, in that order, and are pairwise distinct objects |
| `Picker.Without` | script.js:48 | `pool.filter(p => p !== x)` removes every occurrence of `x` and nothing else; as a multiset it is the pool with `x` taken out |
| `Picker.PickRandom` | script.js:47-51 | `null` exactly for an empty pool; otherwise a member of the pool. Never the excluded element if the pool has another one. The excluded element when it is all the pool has |
| `Picker.DrawIndexInRange` | script.js:50 | `Math.floor(u * n)` with `0 <= u < 1` is a valid index of any non-empty list |
| `Picker.DrawIndexUniform` | script.js:50 | index j is drawn exactly when u lies in [j/n, (j+1)/n), an interval of width 1/n |
| `Picker.CandidatesSpec` | script.js:48-49 | the list drawn from is non-empty for a non-empty pool and holds only pool members. It is the filtered pool, without `exclude`, when anything else is left. Otherwise, or with nothing excluded, it is the whole pool |
| `Picker.PickedInSlot` | script.js:48-50 | the j-th candidate is picked for every u in [j/n, (j+1)/n): every candidate can be picked, each on an interval of equal width |
| `Page.SpacedExtend` | script.js:166-186 | sending a submission at least 600000 ms after the previous one keeps every pair of sent submissions 600000 ms apart |
| `Page.Session.constructor` | script.js:17-18 | a page load starts with `allPosts` and `current` null and keeps the browser's stored timestamp |
| `Page.Session.ReadClick` | script.js:127-146 | loads only while `allPosts` is null, and then `allPosts` holds `Merge(results)`. Once set, even to an empty list, it is never reloaded. An empty list fails the click and leaves `current` alone. Otherwise `current` is a pick from every post |
| `Page.Session.AnotherClick` | script.js:148-152 | does nothing when posts are not loaded or there are none. Otherwise `current` becomes a pick that excludes the previous `current`. The object invariant keeps `current` inside `allPosts` |
| `Page.Session.Submit` | script.js:156-194 | a filled honeypot is dropped. Inside 600000 ms of the stored timestamp (0 when missing) the answer is 'please wait'. Otherwise the trimmed fields are sent and the stored timestamp becomes `now`. Rejections leave it unchanged |
| `Page.AnotherNeverRepeats` | script.js:148-150 | with two or more distinct posts, "another" always shows a post and never the current one |
| `Page.SinglePostRepeats` | script.js:48-49 | with a single post, "another" shows that post again instead of failing |
| `Deployment.FetchThroughProxy` | script.js:24-27 | a feed's fetch is fulfilled exactly when the proxy answers 200 |
| `Deployment.FetchAll` | script.js:23-28 | one settled result per configured feed, in configuration order |
| `Deployment.FeedsMatchAllowList` | netlify/functions/rss-proxy.js:3-11 | the proxy's allow-list is, as a set, the page's five configured feed URLs, which are pairwise distinct |
| `Deployment.ConfiguredFeedContribution` | netlify/functions/rss-proxy.js:20-34 | a configured feed never gets 400 or 403. It contributes nothing when the parser fails. Otherwise it contributes the posts of its projected items, tagged with the parsed feed title |
| `Deployment.NothingParsedNothingShown` | script.js:30-44 | when every feed fails to parse, the merged list is empty |
| `Deployment.FirstReadNothingParsed` | script.js:133-135 | when every feed fails to parse, the first "Read a Blog" click of a page load shows no post and `allPosts` becomes the empty list, so it is not reloaded |

## Left out

- DOM rendering and animation: `setCardContent`, `revealCard`, `swapCard`, timers, button texts, the error message and the form reset (script.js:64-120 and the handlers' UI lines). They only display state.
- `isSafeUrl` (script.js:55-62) only decides the card's `href` when rendering, so it is part of that rendering.
- The concurrent fetches and `Promise.allSettled` (script.js:23-28) are represented only by their output, a sequence of settled results. The model assumes the proxy receives the URL unchanged (`encodeURIComponent` followed by Netlify's query decoding).
- A fulfilled reply with `status: 'ok'` but no `feed` or `items` would make `loadFeeds` throw and leave `allPosts` null. The proxy never sends one, so the model does not represent it.
- `Math.random()` and double-precision rounding in `Math.floor(Math.random() * n)` are replaced by a real `u` in [0, 1) and exact arithmetic.
- Network and parsing collaborators are parameters: the `rss-parser` download and parse, `new URL(...)`, the Turnstile siteverify call, and the Google Forms POSTs (the page's POST is fire-and-forget with `no-cors`, so it has no modelled result). The Turnstile secret from `process.env` is left out.
- `new URLSearchParams(event.body)` is left out: the model takes the request's form fields already decoded, in order.
- `localStorage` holds a string. The model holds the parsed integer. A stored value that is not a number (where `parseInt` gives `NaN`) is not represented.
- When the Turnstile call rejects, the relay's exception escapes the handler (`Crashed`). The response Netlify then sends is not modelled.
- JSON bodies and headers are reduced to status codes, error messages and the feed content.
- The page's handlers are run one at a time. The read button is disabled while loading, and the model does not represent overlapping clicks.
- Page.Session: the stored `rab_last_submit` is read once, when the page loads, and afterwards is written only by `Submit`. `script.js:167` reads `localStorage` on every submit, so a write by another tab of the same site, or cleared storage, is not represented. The model assumes only this page writes the timestamp.
- Page.Session.Submit: `script.js` reads `Date.now()` twice, once for the rate-limit check (line 168) and once for the stored timestamp (line 186). The model uses one `now` for both. The stored value can only be later than the checked one, so the spacing of sent submissions still holds.
- Picker.PickedInSlot: states only that the j-th candidate is picked on its whole interval, not conversely. When a pool holds the same element twice, that element is picked on more than one interval. `Picker.DrawIndexUniform` states the converse for the index.
