/**
 * `callModel`: one request to one backend. It picks the endpoint from the
 * descriptor, builds the request body, and turns whatever the network does
 * into an outcome record that always carries the elapsed time.
 *
 * The network is an input here: an `Exchange` says how `fetch` ended and what
 * reading the body produced. Elapsed times are abstract natural numbers.
 */
module Caller {
  import opened Wrappers
  import opened JsText

  datatype Tier = Fast | Balanced | Powerful

  /** One catalog entry (`name` is the source's display `label`). A missing
      `isGroq` flag reads as false. */
  datatype Descriptor = Descriptor(id: string, name: string, tier: Tier, isGroq: bool)

  /** `BASE_URL`: requests go to the page's own origin. */
  const BaseUrl: string := ""

  const BedrockPrefix: string := "/bedrock/"

  /** The endpoint path chosen from the descriptor's routing flag. */
  function Endpoint(d: Descriptor): string {
    if d.isGroq then "/" + d.id else BedrockPrefix + d.id
  }

  /** The full request URL. */
  function Url(d: Descriptor): string {
    BaseUrl + Endpoint(d)
  }

  predicate HasPrefix(s: string, p: string) {
    |p| <= |s| && s[..|p|] == p
  }

  /** Reads an endpoint path back into its routing flag and identifier. */
  function RouteOf(path: string): Option<(bool, string)> {
    if HasPrefix(path, BedrockPrefix) then Some((false, path[|BedrockPrefix|..]))
    else if HasPrefix(path, "/") then Some((true, path[1..]))
    else None
  }

  /** A Groq identifier that begins with "bedrock/" is the one case whose path
      reads as a Bedrock route. */
  predicate Ambiguous(d: Descriptor) {
    d.isGroq && HasPrefix(d.id, "bedrock/")
  }

  /** The endpoint path determines the route and the identifier, except for
      an ambiguous Groq identifier. */
  lemma EndpointRoundTrip(d: Descriptor)
    ensures RouteOf(Endpoint(d)) == Some((d.isGroq, d.id)) <==> !Ambiguous(d)
  {
    var p := Endpoint(d);
    if d.isGroq {
      assert p[1..] == d.id;
      if HasPrefix(d.id, "bedrock/") {
        assert p[..|BedrockPrefix|] == "/" + d.id[..8];
      }
    } else {
      assert p[..|BedrockPrefix|] == BedrockPrefix;
      assert p[|BedrockPrefix|..] == d.id;
    }
  }

  /** Two unambiguous descriptors share an endpoint only if they share both
      route and identifier. */
  lemma EndpointsDistinct(a: Descriptor, b: Descriptor)
    requires !Ambiguous(a) && !Ambiguous(b)
    ensures Endpoint(a) == Endpoint(b) ==> a.isGroq == b.isGroq && a.id == b.id
  {
    EndpointRoundTrip(a);
    EndpointRoundTrip(b);
  }

  // ----- request body -----

  datatype Message = Message(role: string, content: string)

  /** The JSON request body; `system` and `temperature` are optional keys. */
  datatype Payload = Payload(
    messages: seq<Message>,
    maxTokens: int,
    system: Option<string>,
    temperature: Option<real>)

  /** What the body must be: the prompt as the only user turn, the token limit,
      `system` exactly when the system prompt is non-empty, and `temperature`
      exactly when one was given; nothing is filled in by default. */
  ghost predicate PayloadFor(p: Payload, prompt: string, systemPrompt: string,
                             maxTokens: int, temperature: Option<real>)
  {
    && p.messages == [Message("user", prompt)]
    && p.maxTokens == maxTokens
    && (p.system.Some? <==> systemPrompt != "")
    && (p.system.Some? ==> p.system.value == systemPrompt)
    && (p.temperature.Some? <==> temperature.Some?)
    && (p.temperature.Some? ==> p.temperature == temperature)
  }

  /** Builds the body field by field, adding the optional keys only when set. */
  method BuildPayload(prompt: string, systemPrompt: string, maxTokens: int,
                      temperature: Option<real>)
    returns (p: Payload)
    ensures PayloadFor(p, prompt, systemPrompt, maxTokens, temperature)
  {
    p := Payload([Message("user", prompt)], maxTokens, None, None);
    if systemPrompt != "" {
      p := p.(system := Some(systemPrompt));
    }
    if temperature.Some? {
      p := p.(temperature := Some(temperature.value));
    }
  }

  // ----- the reply and the outcome record -----

  /** One element of the reply's `content` array; `text` may be missing. */
  datatype Segment = Segment(text: Option<string>)

  datatype Usage = Usage(inputTokens: Option<nat>, outputTokens: Option<nat>)

  /** What `JSON.stringify` makes of an object: never the empty string. */
  type Serialized = s: string | |s| > 0 witness "{}"

  /** The parsed reply. `content` and `usage` may be missing; `serialized`
      is the body rendered back to JSON. */
  datatype Body = Body(
    content: Option<seq<Segment>>,
    usage: Option<Usage>,
    stopReason: Option<string>,
    serialized: Serialized)

  /** Reading the successful reply as JSON either gives a body or throws
      (malformed JSON); a throw is caught, so its elapsed time is measured
      again at the catch. */
  datatype Reading = Parsed(body: Body) | Threw(message: string, elapsed: nat)

  /** How the request ended: `fetch` itself threw, or a response arrived
      `elapsed` after the start, with its raw text (read when the status is
      not ok) and its JSON reading (read when it is). */
  datatype Exchange =
    | Rejected(message: string, elapsed: nat)
    | Responded(status: nat, elapsed: nat, rawText: string, json: Reading)

  /** The record `callModel` resolves to: success or error, both timed. */
  datatype Outcome =
    | Success(model: Descriptor, text: string, elapsed: nat, usage: Usage, stopReason: Option<string>)
    | Failure(model: Descriptor, error: string, elapsed: nat)

  /** `res.ok`: a status in the range 200 to 299. */
  predicate IsOk(status: nat) {
    200 <= status <= 299
  }

  function HttpErrorMessage(status: nat, body: string): string {
    "HTTP " + DecimalString(status) + ": " + body
  }

  /** A segment's text, or the empty string when it has none. */
  function SegmentText(c: Segment): string {
    if c.text.Some? then c.text.value else ""
  }

  /** The segments' texts concatenated in order, a missing text adding nothing. */
  function JoinTexts(content: seq<Segment>): string {
    if content == [] then "" else SegmentText(content[0]) + JoinTexts(content[1..])
  }

  /** Joining works segment by segment, in order. */
  lemma {:induction false} JoinTextsAppend(a: seq<Segment>, b: seq<Segment>)
    ensures JoinTexts(a + b) == JoinTexts(a) + JoinTexts(b)
  {
    if a != [] {
      assert (a + b)[1..] == a[1..] + b;
      JoinTextsAppend(a[1..], b);
    } else {
      assert a + b == b;
    }
  }

  /** The joined text is empty exactly when every segment's text is missing or empty. */
  lemma {:induction false} JoinTextsEmptyIff(content: seq<Segment>)
    ensures JoinTexts(content) == "" <==> forall i | 0 <= i < |content| :: SegmentText(content[i]) == ""
  {
    if content != [] {
      JoinTextsEmptyIff(content[1..]);
      if JoinTexts(content) == "" {
        forall i | 0 <= i < |content| ensures SegmentText(content[i]) == "" {
          if i > 0 {
            assert content[i] == content[1..][i - 1];
          }
        }
      } else if forall i | 0 <= i < |content| :: SegmentText(content[i]) == "" {
        assert SegmentText(content[0]) == "";
        forall i | 0 <= i < |content| - 1 ensures SegmentText(content[1..][i]) == "" {
          assert content[1..][i] == content[i + 1];
        }
      }
    }
  }

  /** The reply text: the joined segment texts when the body has content and
      they are not empty, otherwise the whole body serialised back to JSON. */
  function ReplyText(b: Body): string {
    if b.content.Some? && JoinTexts(b.content.value) != "" then JoinTexts(b.content.value)
    else b.serialized
  }

  /** The displayed reply text: the joined segment texts when they say
      anything, otherwise the whole body as JSON; so it is never empty. */
  lemma ReplyTextMeaning(b: Body)
    ensures ReplyText(b) != ""
    ensures b.content.Some? && (exists i | 0 <= i < |b.content.value| :: SegmentText(b.content.value[i]) != "")
            ==> ReplyText(b) == JoinTexts(b.content.value)
    ensures b.content.None? || (forall i | 0 <= i < |b.content.value| :: SegmentText(b.content.value[i]) == "")
            ==> ReplyText(b) == b.serialized
  {
    if b.content.Some? {
      JoinTextsEmptyIff(b.content.value);
    }
  }

  /** The reply's usage, or a record with no counts when it has none. */
  function UsageOrEmpty(u: Option<Usage>): (r: Usage)
    ensures u.None? ==> r.inputTokens.None? && r.outputTokens.None?
    ensures u.Some? ==> r == u.value
  {
    if u.Some? then u.value else Usage(None, None)
  }

  /** Every way the call can end, turned into an outcome record. */
  function Normalize(model: Descriptor, ex: Exchange): Outcome {
    match ex
    case Rejected(message, elapsed) => Failure(model, message, elapsed)
    case Responded(status, elapsed, rawText, json) =>
      if !IsOk(status) then Failure(model, HttpErrorMessage(status, rawText), elapsed)
      else match json
        case Threw(message, caught) => Failure(model, message, caught)
        case Parsed(b) => Success(model, ReplyText(b), elapsed, UsageOrEmpty(b.usage), b.stopReason)
  }

  /** Reads an "HTTP <status>: <body>" message back into status and body. */
  function ParseHttpError(msg: string): Option<(nat, string)> {
    if HasPrefix(msg, "HTTP ") then
      var rest := msg[5..];
      var k := LeadingDigits(rest);
      if 0 < k && k + 2 <= |rest| && rest[k..k + 2] == ": " then
        Some((DigitsValue(rest[..k]), rest[k + 2..]))
      else None
    else None
  }

  /** The number of decimal digits at the front of `s`. */
  function LeadingDigits(s: string): (k: nat)
    ensures k <= |s| && AllDigits(s[..k])
    ensures k < |s| ==> !IsDigit(s[k])
  {
    if s != [] && IsDigit(s[0]) then
      var k := 1 + LeadingDigits(s[1..]);
      assert s[..k] == [s[0]] + s[1..][..k - 1];
      k
    else 0
  }

  lemma {:induction false} LeadingDigitsOfDigits(d: string, tail: string)
    requires AllDigits(d)
    requires tail == [] || !IsDigit(tail[0])
    ensures LeadingDigits(d + tail) == |d|
  {
    if d != [] {
      assert (d + tail)[1..] == d[1..] + tail;
      LeadingDigitsOfDigits(d[1..], tail);
    }
  }

  /** An HTTP error message keeps both the status code and the raw body. */
  lemma HttpErrorRoundTrip(status: nat, body: string)
    ensures ParseHttpError(HttpErrorMessage(status, body)) == Some((status, body))
  {
    var d := DecimalString(status);
    var msg := HttpErrorMessage(status, body);
    assert msg == "HTTP " + (d + ": " + body);
    assert msg[..5] == "HTTP ";
    var rest := msg[5..];
    assert rest == d + (": " + body);
    LeadingDigitsOfDigits(d, ": " + body);
    assert rest[..|d|] == d;
    assert rest[|d|..|d| + 2] == ": ";
    assert rest[|d| + 2..] == body;
    DecimalRoundTrip(status);
  }

  /** The outcome of every path: it names the backend and is timed; `fetch`
      throwing or the JSON reading throwing yields the thrown message; a status
      that is not ok yields "HTTP <status>: <body>"; an ok status with a body
      yields a success whose text is the reply text and whose usage is passed
      through or empty. */
  lemma NormalizeOutcome(model: Descriptor, ex: Exchange)
    ensures Normalize(model, ex).model == model
    ensures ex.Rejected? ==> Normalize(model, ex) == Failure(model, ex.message, ex.elapsed)
    ensures ex.Responded? && !IsOk(ex.status) ==>
      && Normalize(model, ex).Failure?
      && Normalize(model, ex).elapsed == ex.elapsed
      && ParseHttpError(Normalize(model, ex).error) == Some((ex.status, ex.rawText))
    ensures ex.Responded? && IsOk(ex.status) && ex.json.Threw? ==>
      Normalize(model, ex) == Failure(model, ex.json.message, ex.json.elapsed)
    ensures ex.Responded? && IsOk(ex.status) && ex.json.Parsed? ==>
      && Normalize(model, ex).Success?
      && Normalize(model, ex).elapsed == ex.elapsed
      && Normalize(model, ex).text != ""
      && Normalize(model, ex).text == ReplyText(ex.json.body)
      && Normalize(model, ex).usage == UsageOrEmpty(ex.json.body.usage)
      && Normalize(model, ex).stopReason == ex.json.body.stopReason
  {
    if ex.Responded? {
      if !IsOk(ex.status) {
        HttpErrorRoundTrip(ex.status, ex.rawText);
      } else if ex.json.Parsed? {
        ReplyTextMeaning(ex.json.body);
      }
    }
  }

  /** One call: the URL it posts to, the body it sends, and the outcome it
      resolves to once the network's side of the exchange is known. */
  method CallModel(model: Descriptor, prompt: string, systemPrompt: string,
                   maxTokens: int, temperature: Option<real>, ex: Exchange)
    returns (url: string, payload: Payload, outcome: Outcome)
    ensures url == Url(model)
    ensures PayloadFor(payload, prompt, systemPrompt, maxTokens, temperature)
    ensures outcome == Normalize(model, ex)
  {
    url := BaseUrl + Endpoint(model);
    payload := BuildPayload(prompt, systemPrompt, maxTokens, temperature);
    outcome := Normalize(model, ex);
  }
}
