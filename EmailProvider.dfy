/** The mock SendGrid-like provider of providers/email_provider.py, above its
    HTTP layer: the bearer-key check, the required-field test, the simulated
    errors, the message-id counter, the extraction of the addresses, subject
    and contents from the JSON body, the LRU store of sent emails, the lookup
    endpoint, and the unified payload the simulate-incoming endpoint posts to
    the messaging service. The post itself and the random replies are not
    modelled. */
module EmailProvider {
  import opened Wrappers
  import opened Models
  import opened Text
  import opened Payloads
  import opened LruCache
  import opened Http
  import opened ProviderClients
  import EmailWebhook

  /** The Python exceptions the handler lets escape while reading the body;
      FastAPI answers each of them with 500. */
  datatype PyError = TypeError | KeyError | IndexError

  /** The answer to an exception that escapes the handler. */
  const InternalError := HttpException(500, "Internal Server Error")

  /** The header check: `Bearer ` followed by exactly the configured key. */
  predicate Authorized(header: string, apiKey: string) {
    StartsWith(header, "Bearer ") && DropPrefix(header, 7) == apiKey
  }

  /** Python's `needle in hay` on text: a substring test. */
  predicate Occurs(needle: string, hay: string)
    decreases |hay|
  {
    StartsWith(hay, needle) || (hay != [] && Occurs(needle, hay[1..]))
  }

  /** `key in j` on JSON other than null: a key test on an object, an
      element test on an array, a substring test on text. */
  predicate In(j: Json, key: string)
    requires !j.JNull?
  {
    match j
    case JObject(fields) => key in fields
    case JArray(items) => JString(key) in items
    case JString(s) => Occurs(key, s)
  }

  /** `key in j` for whatever JSON the body decoded to; on null it raises
      `TypeError`. */
  function HasMember(j: Json, key: string): (r: Result<bool, PyError>)
    ensures r.Failure? <==> j.JNull?
    ensures j.JObject? ==> r == Success(key in j.fields)
    ensures j.JArray? ==> r == Success(JString(key) in j.items)
  {
    if j.JNull? then Failure(TypeError) else Success(In(j, key))
  }

  /** `j[key]`: only an object holding the key answers. */
  function Member(j: Json, key: string): (r: Result<Json, PyError>)
    ensures r.Success? <==> j.JObject? && key in j.fields
    ensures r.Success? ==> r.value == j.fields[key]
  {
    match j
    case JObject(fields) => if key in fields then Success(fields[key]) else Failure(PyError.KeyError)
    case JArray(_) => Failure(TypeError)
    case JString(_) => Failure(TypeError)
    case JNull => Failure(TypeError)
  }

  /** `j[0]`: the first item of a list, or the first character of a text. */
  function First(j: Json): (r: Result<Json, PyError>)
    ensures r.Success? <==> (j.JArray? && j.items != []) || (j.JString? && j.s != "")
    ensures r.Success? && j.JArray? ==> r.value == j.items[0]
    ensures r.Success? && j.JString? ==> r.value == JString([j.s[0]])
  {
    match j
    case JArray(items) => if items != [] then Success(items[0]) else Failure(IndexError)
    case JString(s) => if s != "" then Success(JString([s[0]])) else Failure(IndexError)
    case JObject(_) => Failure(PyError.KeyError)
    case JNull => Failure(TypeError)
  }

  /** The four keys the body must have, in the order they are tested. */
  const RequiredKeys: seq<string> := ["personalizations", "from", "subject", "content"]

  /** The required-field test: whether one of the keys is missing. The
      `or` chain stops at the first missing key; on a null body the first
      test raises. */
  function MissingRequired(body: Json): (r: Result<bool, PyError>)
    ensures r.Failure? <==> body.JNull?
    ensures r.Success? ==> (r.value <==> exists i :: 0 <= i < |RequiredKeys| && !In(body, RequiredKeys[i]))
    ensures body.JObject? ==> r == Success(exists k :: k in RequiredKeys && k !in body.fields)
  {
    if body.JNull? then Failure(TypeError)
    else
      assert RequiredKeys == ["personalizations", "from", "subject", "content"];
      assert forall i :: 0 <= i < |RequiredKeys| ==> RequiredKeys[i] in {"personalizations", "from", "subject", "content"};
      assert !In(body, "personalizations") ==> !In(body, RequiredKeys[0]);
      assert !In(body, "from") ==> !In(body, RequiredKeys[1]);
      assert !In(body, "subject") ==> !In(body, RequiredKeys[2]);
      assert !In(body, "content") ==> !In(body, RequiredKeys[3]);
      Success(!In(body, "personalizations") || !In(body, "from") || !In(body, "subject") || !In(body, "content"))
  }

  /** A content item typed as HTML. */
  predicate HtmlTyped(j: Json) {
    j.JObject? && "type" in j.fields && j.fields["type"] == JString("text/html")
  }

  /** A content item with some other type. */
  predicate OtherTyped(j: Json) {
    j.JObject? && "type" in j.fields && j.fields["type"] != JString("text/html")
  }

  /** The loop over the content items: the value of the first item typed as
      HTML, none when no item is, or the error of the first item that has no
      type or is HTML without a value. */
  function FirstHtml(items: seq<Json>): (r: Result<Option<Json>, PyError>)
    ensures r.Success? && r.value.None? <==> forall i :: 0 <= i < |items| ==> OtherTyped(items[i])
    ensures r.Success? && r.value.Some? ==>
      exists i :: 0 <= i < |items| && HtmlTyped(items[i]) && "value" in items[i].fields
        && r.value.value == items[i].fields["value"]
        && forall j :: 0 <= j < i ==> OtherTyped(items[j])
    ensures r.Failure? ==>
      exists i :: 0 <= i < |items| && !OtherTyped(items[i]) && !(HtmlTyped(items[i]) && "value" in items[i].fields)
        && forall j :: 0 <= j < i ==> OtherTyped(items[j])
  {
    if items == [] then Success(None)
    else
      var t :- Member(items[0], "type");
      if t == JString("text/html") then
        var v :- Member(items[0], "value");
        Success(Some(v))
      else
        var rest := FirstHtml(items[1..]);
        assert forall i :: 1 <= i < |items| ==> items[i] == items[1..][i - 1];
        rest
  }

  /** What the handler reads out of the body before the HTML loop. */
  datatype EmailFields = EmailFields(toEmail: Json, fromEmail: Json, subject: Json, content: Json, contentItems: seq<Json>)

  /** The extraction: `personalizations[0].to[0].email`, `from.email`,
      `subject`, and `content[0].value` with the content list it came from.
      Any other shape raises. */
  function ExtractFields(body: Json): (r: Result<EmailFields, PyError>)
    ensures r.Success? ==>
      && body.JObject?
      && (forall k :: k in RequiredKeys ==> k in body.fields)
      && var c := body.fields["content"];
      && c.JArray? && c.items != [] && r.value.contentItems == c.items
      && r.value.subject == body.fields["subject"]
      && Member(c.items[0], "value") == Success(r.value.content)
      && Member(body.fields["from"], "email") == Success(r.value.fromEmail)
  {
    var personalizations :- Member(body, "personalizations");
    var first :- First(personalizations);
    var to :- Member(first, "to");
    var recipient :- First(to);
    var toEmail :- Member(recipient, "email");
    var from :- Member(body, "from");
    var fromEmail :- Member(from, "email");
    var subject :- Member(body, "subject");
    var content :- Member(body, "content");
    var item :- First(content);
    var value :- Member(item, "value");
    match content
    case JArray(items) => Success(EmailFields(toEmail, fromEmail, subject, value, items))
    case _ => assert false; Failure(TypeError)
  }

  /** The stored email. The addresses, subject and contents are whatever
      JSON the body held. */
  datatype EmailRecord = EmailRecord(
    messageId: string, fromEmail: Json, toEmail: Json, subject: Json, content: Json,
    htmlContent: Option<Json>, status: string, timestamp: string)

  /** The `SendGridResponse` the send endpoint answers with. */
  datatype SendGridReply = SendGridReply(messageId: string, status: string)

  /** The reply as the JSON the messaging service's email client decodes. */
  function ReplyFields(r: SendGridReply): (d: map<string, Value>)
    ensures "message_id" in d && d["message_id"] == Str(r.messageId)
    ensures "status" in d && d["status"] == Str(r.status)
  {
    map["message_id" := Str(r.messageId), "status" := Str(r.status)]
  }

  /** The email client reads a reply of this provider as a delivered message
      whose provider id is the message id. */
  lemma ClientReadsDelivered(id: string, url: string, key: string)
    ensures ExtractStatus(EmailClient(url, key), ReplyFields(SendGridReply(id, "delivered"))) == "delivered"
    ensures ExtractMessageId(EmailClient(url, key), ReplyFields(SendGridReply(id, "delivered"))) == id
  {
    EmailStatusMapping(ReplyFields(SendGridReply(id, "delivered")));
  }

  /** `f"msg_{counter}_{seconds}"`. */
  function MessageId(n: nat, seconds: nat): (id: string)
    ensures StartsWith(id, "msg_") && |id| == 5 + |NatToDecimal(n)| + |NatToDecimal(seconds)|
    ensures id[4..4 + |NatToDecimal(n)|] == NatToDecimal(n) && id[4 + |NatToDecimal(n)|] == '_'
  {
    "msg_" + NatToDecimal(n) + "_" + NatToDecimal(seconds)
  }

  /** Distinct counter values give distinct message ids, whatever the clock
      said: the digits before the second underscore differ. */
  lemma MessageIdsDistinct(a: nat, s: nat, b: nat, t: nat)
    requires a != b
    ensures MessageId(a, s) != MessageId(b, t)
  {
    var x, y := MessageId(a, s), MessageId(b, t);
    var da, db := NatToDecimal(a), NatToDecimal(b);
    if |da| < |db| {
      assert IsDigit(y[4 + |da|]) by { assert y[4 + |da|] == db[|da|]; }
      assert x[4 + |da|] != y[4 + |da|];
    } else if |db| < |da| {
      assert IsDigit(x[4 + |db|]) by { assert x[4 + |db|] == da[|db|]; }
      assert x[4 + |db|] != y[4 + |db|];
    } else {
      assert DecimalValue(da) != DecimalValue(db);
      assert x[4..4 + |da|] != y[4..4 + |db|];
    }
  }

  /** The client's request, sent with the key the provider is configured
      with, passes the key check and the field test, and its fields are read
      back: the recipient, the sender, the subject "Message", the body as
      plain content, and no HTML. */
  lemma ClientRequestAccepted(req: SendMessageRequest, url: string, key: string)
    ensures var h := SendRequest(EmailClient(url, key), req);
      && Authorized(h.headers["Authorization"], key)
      && MissingRequired(h.body) == Success(false)
      && var item := JObject(map["type" := JString("text/plain"), "value" := JString(req.body)]);
      && ExtractFields(h.body) == Success(EmailFields(
           JString(req.toAddress), JString(req.fromAddress), JString("Message"), JString(req.body), [item]))
      && FirstHtml([item]) == Success(None)
  {
    var h := SendRequest(EmailClient(url, key), req);
    assert DropPrefix("Bearer " + key, 7) == key;
    assert !(exists k :: k in RequiredKeys && k !in h.body.fields);
  }

  /** The provider process: the global `email_counter`, the configured API
      key and the `emails` cache of size `CACHE_SIZE`. */
  class Provider {
    var counter: nat
    const apiKey: string
    const emails: LRUCache<EmailRecord>

    /** The cache is well formed and holds only records stored under their
        own id, each made from a counter value already used. */
    ghost predicate Valid()
      reads this, emails
    {
      && emails.Valid()
      && forall k :: k in emails.entries ==>
           emails.entries[k].messageId == k && exists n, t :: 1 <= n <= counter && k == MessageId(n, t)
    }

    /** The process starts only with a key configured. */
    constructor (apiKey: string, cacheSize: int)
      requires apiKey != ""
      ensures Valid()
      ensures counter == 0 && this.apiKey == apiKey && emails.State() == CacheState([], map[], cacheSize)
      ensures fresh(emails)
    {
      counter := 0;
      this.apiKey := apiKey;
      emails := new LRUCache(cacheSize);
    }

    /** `generate_message_id`: the counter goes up by one and names the new
        id, which no stored email has. */
    method GenerateMessageId(seconds: nat) returns (id: string)
      requires Valid()
      modifies this
      ensures Valid()
      ensures counter == old(counter) + 1 && id == MessageId(counter, seconds)
      ensures id !in emails.entries
    {
      counter := counter + 1;
      id := MessageId(counter, seconds);
      forall k | k in emails.entries ensures k != id {
        var n, t :| 1 <= n <= counter - 1 && k == MessageId(n, t);
        MessageIdsDistinct(n, t, counter, seconds);
      }
    }

    /** The check that comes before the counter moves: key, JSON, required
        fields, simulated error. */
    predicate Admitted(authorization: Option<string>, body: Option<Json>, simulateError: Option<string>)
      reads this
    {
      && Authorized(authorization.GetOr(""), apiKey)
      && body.Some? && MissingRequired(body.value) == Success(false)
      && simulateError != Some("429") && simulateError != Some("500")
    }

    /** `POST /mail/send`. A wrong key is 401, a body that is not JSON 400, a
        missing field 400, a simulated error 429 or 500, all before anything
        changes. After that the counter takes a new id; a body of the wrong
        shape then raises (500) with nothing stored; otherwise the email is
        stored as "delivered" under its id and the id is returned. */
    method SendEmail(authorization: Option<string>, body: Option<Json>, simulateError: Option<string>,
                     seconds: nat, now: string)
      returns (r: Result<SendGridReply, HttpException>)
      requires Valid()
      modifies this, emails
      ensures Valid()
      ensures !Authorized(authorization.GetOr(""), apiKey) ==> r == Failure(HttpException(401, "Invalid API key"))
      ensures Authorized(authorization.GetOr(""), apiKey) && body.None? ==> r == Failure(HttpException(400, "Invalid JSON"))
      ensures Authorized(authorization.GetOr(""), apiKey) && body.Some? && MissingRequired(body.value).Failure? ==>
        r == Failure(InternalError)
      ensures Authorized(authorization.GetOr(""), apiKey) && body.Some? && MissingRequired(body.value) == Success(true) ==>
        r == Failure(HttpException(400, "Missing required fields"))
      ensures Authorized(authorization.GetOr(""), apiKey) && body.Some? && MissingRequired(body.value) == Success(false) ==>
        && (simulateError == Some("429") ==> r == Failure(HttpException(429, "Too many requests")))
        && (simulateError == Some("500") ==> r == Failure(HttpException(500, "Internal server error")))
      ensures !Admitted(authorization, body, simulateError) ==>
        r.Failure? && counter == old(counter) && emails.State() == old(emails.State())
      ensures Admitted(authorization, body, simulateError) ==>
        && counter == old(counter) + 1
        && var fields := ExtractFields(body.value);
        && (r.Success? <==> fields.Success? && FirstHtml(fields.value.contentItems).Success?)
        && (r.Failure? ==> r == Failure(InternalError) && emails.State() == old(emails.State()))
        && (r.Success? ==>
              && var id := MessageId(counter, seconds);
              && var f := fields.value;
              && r.value == SendGridReply(id, "delivered")
              && id !in old(emails.entries)
              && emails.State() == SetItem(old(emails.State()), id,
                   EmailRecord(id, f.fromEmail, f.toEmail, f.subject, f.content,
                               FirstHtml(f.contentItems).value, "delivered", now)))
    {
      if !Authorized(authorization.GetOr(""), apiKey) {
        return Failure(HttpException(401, "Invalid API key"));
      }
      if body.None? {
        return Failure(HttpException(400, "Invalid JSON"));
      }
      var missing := MissingRequired(body.value);
      if missing.Failure? {
        return Failure(InternalError);
      }
      if missing.value {
        return Failure(HttpException(400, "Missing required fields"));
      }
      if simulateError.Some? && simulateError.value != "" {
        if simulateError.value == "429" {
          return Failure(HttpException(429, "Too many requests"));
        } else if simulateError.value == "500" {
          return Failure(HttpException(500, "Internal server error"));
        }
      }
      var id := GenerateMessageId(seconds);
      var fields := ExtractFields(body.value);
      if fields.Failure? {
        return Failure(InternalError);
      }
      var html := FindHtmlContent(fields.value.contentItems);
      if html.Failure? {
        return Failure(InternalError);
      }
      var f := fields.value;
      var record := EmailRecord(id, f.fromEmail, f.toEmail, f.subject, f.content, html.value, "delivered", now);
      ghost var before := emails.State();
      SetItemEntries(before, id, record);
      emails.Set(id, record);
      r := Success(SendGridReply(id, "delivered"));
    }

    /** `GET /messages/{message_id}`: 404 for an unknown id, decided by a
        membership test that leaves the recency order alone; otherwise a
        cache read, which makes the id the most recent. */
    method GetEmail(id: string) returns (r: Result<EmailRecord, HttpException>)
      requires Valid()
      modifies emails
      ensures Valid()
      ensures id !in old(emails.entries) ==>
        r == Failure(HttpException(404, "Email not found")) && emails.State() == old(emails.State())
      ensures id in old(emails.entries) ==>
        && r == Success(old(emails.entries)[id])
        && r.value.messageId == id
        && emails.State() == GetItem(old(emails.State()), id).1
    {
      if !emails.Contains(id) {
        return Failure(HttpException(404, "Email not found"));
      }
      var got := emails.Get(id);
      r := Success(got.value);
    }
  }

  /** The `for` loop over the content items, stopping at the first HTML
      item. */
  method FindHtmlContent(items: seq<Json>) returns (r: Result<Option<Json>, PyError>)
    ensures r == FirstHtml(items)
  {
    var i := 0;
    while i < |items|
      invariant 0 <= i <= |items|
      invariant FirstHtml(items) == FirstHtml(items[i..])
    {
      assert items[i..][1..] == items[i + 1..];
      var item := items[i];
      var t := Member(item, "type");
      if t.Failure? {
        return Failure(t.error);
      }
      if t.value == JString("text/html") {
        var v := Member(item, "value");
        if v.Failure? {
          return Failure(v.error);
        }
        return Success(Some(v.value));
      }
      i := i + 1;
    }
    return Success(None);
  }

  /** The body of `POST /simulate/incoming`. */
  datatype IncomingEmail = IncomingEmail(
    fromEmail: string, toEmail: string, subject: string, content: string,
    htmlContent: Option<string>, xMessageId: string, timestamp: Option<string>)

  /** The text the simulator posts as the body: the HTML when it is given
      and non-empty, the plain content otherwise. */
  function IncomingBody(e: IncomingEmail): (b: string)
    ensures e.htmlContent.Some? && e.htmlContent.value != "" ==> b == e.htmlContent.value
    ensures !(e.htmlContent.Some? && e.htmlContent.value != "") ==> b == e.content
  {
    if e.htmlContent.Some? && e.htmlContent.value != "" then e.htmlContent.value else e.content
  }

  /** The unified payload the simulate-incoming endpoint posts: the
      addresses, the id as `xillio_id`, the body, no attachments, and the
      given timestamp or the current time. The subject is not sent. */
  function SimulatedPayload(e: IncomingEmail, now: string): (d: map<string, Value>)
    ensures d.Keys == {"from", "to", "xillio_id", "body", "attachments", "timestamp"}
    ensures d["from"] == Str(e.fromEmail) && d["to"] == Str(e.toEmail)
    ensures d["xillio_id"] == Str(e.xMessageId) && d["body"] == Str(IncomingBody(e))
    ensures d["attachments"] == List([])
    ensures e.timestamp.Some? && e.timestamp.value != "" ==> d["timestamp"] == Str(e.timestamp.value)
    ensures !(e.timestamp.Some? && e.timestamp.value != "") ==> d["timestamp"] == Str(now)
  {
    map[
      "from" := Str(e.fromEmail), "to" := Str(e.toEmail),
      "xillio_id" := Str(e.xMessageId),
      "body" := Str(IncomingBody(e)),
      "attachments" := List([]),
      "timestamp" := Str(if e.timestamp.Some? && e.timestamp.value != "" then e.timestamp.value else now)]
  }

  /** The email normaliser reads the simulated payload in the unified shape,
      field for field. */
  lemma SimulatedFields(e: IncomingEmail, now: string)
    ensures var stamp := if e.timestamp.Some? && e.timestamp.value != "" then e.timestamp.value else now;
      EmailWebhook.Fields(SimulatedPayload(e, now))
        == Success(Extracted(e.fromEmail, e.toEmail, Str(IncomingBody(e)), e.xMessageId, List([]), Str(stamp), "email"))
  {
    var d := SimulatedPayload(e, now);
    assert "from_email" !in d && "from" in d;
  }

  /** The messaging service's email normaliser accepts what the simulator
      posts whenever both addresses hold '@', the body and id are non-empty
      and the timestamp parses: the request carries them and no attachments. */
  lemma SimulatedPayloadAccepted(e: IncomingEmail, now: string, parse: string -> Option<Timestamp>, clock: Timestamp)
    requires '@' in e.fromEmail && '@' in e.toEmail && IncomingBody(e) != "" && e.xMessageId != "" && now != ""
    requires var stamp := if e.timestamp.Some? && e.timestamp.value != "" then e.timestamp.value else now;
      parse(ReplaceChar(stamp, 'Z', "+00:00")).Some?
    ensures var stamp := if e.timestamp.Some? && e.timestamp.value != "" then e.timestamp.value else now;
      EmailWebhook.ValidateWebhookPayload(Dict(SimulatedPayload(e, now)), parse, clock)
        == Success(WebhookMessageRequest(e.fromEmail, e.toEmail, IncomingBody(e), [], e.xMessageId,
                                         parse(ReplaceChar(stamp, 'Z', "+00:00")).value, "email"))
  {
    var stamp := if e.timestamp.Some? && e.timestamp.value != "" then e.timestamp.value else now;
    var d := SimulatedPayload(e, now);
    var x := Extracted(e.fromEmail, e.toEmail, Str(IncomingBody(e)), e.xMessageId, List([]), Str(stamp), "email");
    SimulatedFields(e, now);
    AllPresent(x, false);
    EmailWebhook.ChecksPassed(d, parse, clock);
  }
}
