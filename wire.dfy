/** Values that cross a process boundary: the JSON body the feed proxy sends
    and the page reads, and the two-field payload posted to Google Forms.
    A JSON field that was `undefined` when serialised is absent, here `None`. */
module Wire {
  import opened Wrappers

  /** One entry of `items`: `{title, link}`. */
  datatype Item = Item(title: Option<string>, link: Option<string>)

  /** `{status, feed: {title}, items}` */
  datatype Envelope = Envelope(status: string, feedTitle: Option<string>, items: seq<Item>)

  /** The form entries `entry.487552982` (the blog URL) and `entry.1528747364` (the name). */
  datatype Submission = Submission(blogUrl: string, name: string)
}
