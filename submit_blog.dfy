/** The serverless submission relay: it checks the method, the blog URL and
    the Turnstile CAPTCHA token, then forwards the suggestion to Google Forms. */
module SubmitBlog {
  import opened Wrappers
  import opened Wire
  import JsString

  /** The request: its method, its decoded form fields in order, and its headers. */
  datatype Event = Event(httpMethod: string, params: seq<(string, string)>, headers: map<string, string>)

  /** Turnstile's siteverify call: its reply's `success` (a missing field is
      `false`) or `Threw` when the request or the JSON decoding rejects. */
  datatype Siteverify = Replied(success: bool) | Threw

  datatype Body = ErrorBody(error: string) | OkBody

  /** What the handler does: the response it returns with the submission it
      forwarded (if any), or an exception escaping the handler. */
  datatype Outcome =
    | Responded(statusCode: nat, body: Body, forwarded: Option<Submission>)
    | Crashed

  /** `new URL(s).protocol`, `None` when the constructor throws. */
  type ProtocolOf = string -> Option<string>

  /** Turnstile verification of a token from a client address. */
  type Verifier = (string, string) -> Siteverify

  /** `params.get(key)`: the value of the first field named `key`, `null` when there is none. */
  function Get(params: seq<(string, string)>, key: string): (r: Option<string>)
    ensures r.None? <==> forall k :: 0 <= k < |params| ==> params[k].0 != key
    ensures r.Some? ==> exists k :: 0 <= k < |params| && params[k] == (key, r.value)
                                    && forall j :: 0 <= j < k ==> params[j].0 != key
  {
    if params == [] then None
    else if params[0].0 == key then Some(params[0].1)
    else
      var r := Get(params[1..], key);
      assert r.Some? ==> exists k :: 1 <= k < |params| && params[k] == (key, r.value)
                                     && forall j :: 0 <= j < k ==> params[j].0 != key
      by {
        if r.Some? {
          var k :| 0 <= k < |params[1..]| && params[1..][k] == (key, r.value)
                   && forall j :: 0 <= j < k ==> params[1..][j].0 != key;
          assert params[k + 1] == (key, r.value);
          forall j | 0 <= j < k + 1 ensures params[j].0 != key {
            if j > 0 { assert params[1..][j - 1] == params[j]; }
          }
        }
      }
      r
  }

  function Header(headers: map<string, string>, name: string): (r: Option<string>)
  {
    if name in headers then Some(headers[name]) else None
  }

  /** The client address passed to Turnstile: Netlify's connection header,
      else `x-forwarded-for`, else the empty string. */
  function ClientIp(headers: map<string, string>): (ip: string)
    ensures JsString.Truthy(Header(headers, "x-nf-client-connection-ip")) ==> ip == headers["x-nf-client-connection-ip"]
    ensures !JsString.Truthy(Header(headers, "x-nf-client-connection-ip")) ==> ip == JsString.OrEmpty(Header(headers, "x-forwarded-for"))
  {
    var direct := Header(headers, "x-nf-client-connection-ip");
    if JsString.Truthy(direct) then direct.value else JsString.OrEmpty(Header(headers, "x-forwarded-for"))
  }

  /** The value of a form field, `''` when missing, trimmed. */
  function Field(params: seq<(string, string)>, key: string): (r: string)
  {
    JsString.Trim(JsString.OrEmpty(Get(params, key)))
  }

  predicate IsWebProtocol(protocol: Option<string>)
  {
    protocol == Some("https:") || protocol == Some("http:")
  }

  /** The relay's handler. `forwardDelivered` is whether the Google Forms POST
      succeeds. The handler never reads it, because `.catch(() => {})` discards
      the forward's failure and the reply does not depend on it. */
  function Handler(event: Event, protocolOf: ProtocolOf, verify: Verifier, forwardDelivered: bool): (out: Outcome)
    ensures out.Responded? && out.statusCode == 405 <==> event.httpMethod != "POST"
    ensures out.Responded? && out.body == ErrorBody("Invalid URL")
            <==> event.httpMethod == "POST" && !IsWebProtocol(protocolOf(Field(event.params, "blogUrl")))
    ensures out.Responded? && out.statusCode == 200
            <==> event.httpMethod == "POST" && IsWebProtocol(protocolOf(Field(event.params, "blogUrl")))
                 && verify(JsString.OrEmpty(Get(event.params, "cf-turnstile-response")), ClientIp(event.headers)) == Replied(true)
    ensures out.Crashed?
            <==> event.httpMethod == "POST" && IsWebProtocol(protocolOf(Field(event.params, "blogUrl")))
                 && verify(JsString.OrEmpty(Get(event.params, "cf-turnstile-response")), ClientIp(event.headers)) == Threw
    ensures out.Responded? ==> (out.statusCode == 200 <==> out.body == OkBody)
    ensures out.Responded? && out.forwarded.Some? <==> out.Responded? && out.statusCode == 200
    ensures out.Responded? && out.forwarded.Some? ==>
              out.forwarded.value == Submission(Field(event.params, "blogUrl"), Field(event.params, "name"))
  {
    if event.httpMethod != "POST" then
      Responded(405, ErrorBody("Method not allowed"), None)
    else
      var token := JsString.OrEmpty(Get(event.params, "cf-turnstile-response"));
      var blogUrl := Field(event.params, "blogUrl");
      var name := Field(event.params, "name");
      if !IsWebProtocol(protocolOf(blogUrl)) then
        Responded(400, ErrorBody("Invalid URL"), None)
      else
        match verify(token, ClientIp(event.headers))
        case Threw => Crashed
        case Replied(success) =>
          if !success then
            Responded(400, ErrorBody("CAPTCHA verification failed"), None)
          else
            Responded(200, OkBody, Some(Submission(blogUrl, name)))
  }

  /** Any method but POST is refused before anything else is looked at. */
  lemma MethodCheckedFirst(event: Event, u1: ProtocolOf, u2: ProtocolOf, v1: Verifier, v2: Verifier, f1: bool, f2: bool)
    requires event.httpMethod != "POST"
    ensures Handler(event, u1, v1, f1) == Handler(event, u2, v2, f2) == Responded(405, ErrorBody("Method not allowed"), None)
  {
  }

  /** A rejected URL ends the request before Turnstile is asked. */
  lemma InvalidUrlSkipsCaptcha(event: Event, protocolOf: ProtocolOf, v1: Verifier, v2: Verifier, f1: bool, f2: bool)
    requires event.httpMethod == "POST" && !IsWebProtocol(protocolOf(Field(event.params, "blogUrl")))
    ensures Handler(event, protocolOf, v1, f1) == Handler(event, protocolOf, v2, f2)
                                               == Responded(400, ErrorBody("Invalid URL"), None)
  {
  }

  /** A failed CAPTCHA is a 400 and nothing is forwarded. */
  lemma FailedCaptchaForwardsNothing(event: Event, protocolOf: ProtocolOf, verify: Verifier, forwardDelivered: bool)
    requires event.httpMethod == "POST" && IsWebProtocol(protocolOf(Field(event.params, "blogUrl")))
    requires verify(JsString.OrEmpty(Get(event.params, "cf-turnstile-response")), ClientIp(event.headers)) == Replied(false)
    ensures Handler(event, protocolOf, verify, forwardDelivered)
            == Responded(400, ErrorBody("CAPTCHA verification failed"), None)
  {
  }

  /** Whether the Google Forms POST succeeds never changes the outcome. This
      holds because `Handler` does not read `forwardDelivered` at all. */
  lemma ForwardFailureIgnored(event: Event, protocolOf: ProtocolOf, verify: Verifier)
    ensures Handler(event, protocolOf, verify, true) == Handler(event, protocolOf, verify, false)
  {
  }

  /** Missing fields are treated as empty, and the forwarded fields are trimmed. */
  lemma MissingFieldsForwardedEmpty(event: Event, protocolOf: ProtocolOf, verify: Verifier, forwardDelivered: bool)
    requires Get(event.params, "name").None?
    requires Handler(event, protocolOf, verify, forwardDelivered).Responded?
    requires Handler(event, protocolOf, verify, forwardDelivered).statusCode == 200
    ensures Handler(event, protocolOf, verify, forwardDelivered).forwarded == Some(Submission(Field(event.params, "blogUrl"), ""))
  {
  }
}
