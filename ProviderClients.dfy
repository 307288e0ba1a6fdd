/** The two provider adapters behind `BaseProviderClient`
    (app/clients/sms_provider_client.py, app/clients/email_provider_client.py):
    the HTTP request each one builds for an outgoing message, the message
    type it reports, and how it reads the provider's reply. The post itself
    is not part of this model; its outcome is an input of the send pipeline. */
module ProviderClients {
  import opened Wrappers
  import opened Models
  import opened Payloads

  /** A JSON document as the clients send it. */
  datatype Json = JString(s: string) | JArray(items: seq<Json>) | JObject(fields: map<string, Json>) | JNull

  /** A provider client: the abstract base class has exactly these two
      implementations, each configured with a base URL and an API key. */
  datatype ProviderClient = SmsClient(baseUrl: string, apiKey: string) | EmailClient(baseUrl: string, apiKey: string)

  /** A JSON POST: target, headers and body. */
  datatype HttpRequest = HttpRequest(url: string, headers: map<string, string>, body: Json)

  /** The statuses `extract_status` can return; the last one is not
      accepted by the `messages.status` CHECK constraint. */
  predicate KnownOrUnknownStatus(s: string) {
    AllowedStatus(s) || s == "unknown"
  }

  /** A list of strings as a JSON array. */
  function Strings(xs: seq<string>): (js: seq<Json>)
    ensures |js| == |xs|
    ensures forall i :: 0 <= i < |xs| ==> js[i] == JString(xs[i])
  {
    if xs == [] then [] else [JString(xs[0])] + Strings(xs[1..])
  }

  /** The Twilio-like body: the addresses and text copied over, and the
      media list `attachments or []`. */
  function SmsPayload(req: SendMessageRequest): (j: Json)
    ensures j.JObject? && j.fields.Keys == {"From", "To", "Body", "MediaUrl"}
    ensures j.fields["From"] == JString(req.fromAddress)
    ensures j.fields["To"] == JString(req.toAddress)
    ensures j.fields["Body"] == JString(req.body)
    ensures j.fields["MediaUrl"] == JArray(Strings(req.attachments.GetOr([])))
    ensures req.attachments.None? ==> j.fields["MediaUrl"] == JArray([])
  {
    JObject(map[
      "From" := JString(req.fromAddress),
      "To" := JString(req.toAddress),
      "Body" := JString(req.body),
      "MediaUrl" := JArray(Strings(req.attachments.GetOr([])))])
  }

  /** The SendGrid-like body: one personalization to the recipient, the
      sender, the fixed subject "Message" and one plain-text content item
      holding the body. Attachments are not sent. */
  function EmailPayload(req: SendMessageRequest): (j: Json)
    ensures j.JObject? && j.fields.Keys == {"personalizations", "from", "subject", "content"}
    ensures j.fields["personalizations"] == JArray([JObject(map["to" := JArray([JObject(map["email" := JString(req.toAddress)])])])])
    ensures j.fields["from"] == JObject(map["email" := JString(req.fromAddress)])
    ensures j.fields["subject"] == JString("Message")
    ensures j.fields["content"] == JArray([JObject(map["type" := JString("text/plain"), "value" := JString(req.body)])])
  {
    JObject(map[
      "personalizations" := JArray([JObject(map["to" := JArray([JObject(map["email" := JString(req.toAddress)])])])]),
      "from" := JObject(map["email" := JString(req.fromAddress)]),
      "subject" := JString("Message"),
      "content" := JArray([JObject(map["type" := JString("text/plain"), "value" := JString(req.body)])])])
  }

  /** The POST `send_message` makes: `{base_url}/messages` or
      `{base_url}/mail/send`, a JSON content type and a bearer token. */
  function SendRequest(client: ProviderClient, req: SendMessageRequest): (h: HttpRequest)
    ensures client.SmsClient? ==> h.url == client.baseUrl + "/messages" && h.body == SmsPayload(req)
    ensures client.EmailClient? ==> h.url == client.baseUrl + "/mail/send" && h.body == EmailPayload(req)
    ensures h.headers == map["Content-Type" := "application/json", "Authorization" := "Bearer " + client.apiKey]
  {
    var headers := map["Content-Type" := "application/json", "Authorization" := "Bearer " + client.apiKey];
    match client
    case SmsClient(base, _) => HttpRequest(base + "/messages", headers, SmsPayload(req))
    case EmailClient(base, _) => HttpRequest(base + "/mail/send", headers, EmailPayload(req))
  }

  /** Attachments never reach the email provider: two requests that differ
      only in their attachments produce the same POST. */
  lemma EmailIgnoresAttachments(client: ProviderClient, req: SendMessageRequest, other: Option<seq<string>>)
    requires client.EmailClient?
    ensures SendRequest(client, req) == SendRequest(client, req.(attachments := other))
  {
  }

  /** `get_provider_type`: "mms" exactly when the SMS client is given a
      non-null, non-empty attachment list; "email" for the email client
      whatever the request. */
  function GetProviderType(client: ProviderClient, req: SendMessageRequest): (t: string)
    ensures AllowedProviderType(t)
    ensures client.EmailClient? <==> t == "email"
    ensures client.SmsClient? ==> (t == "mms" <==> req.attachments.Some? && req.attachments.value != [])
  {
    match client
    case SmsClient(_, _) => if req.attachments.Some? && req.attachments.value != [] then "mms" else "sms"
    case EmailClient(_, _) => "email"
  }

  /** `extract_message_id`: `str(response.get(key, ""))` with key `sid`
      (SMS) or `message_id` (email). */
  function ExtractMessageId(client: ProviderClient, response: map<string, Value>): (id: string)
    ensures var key := if client.SmsClient? then "sid" else "message_id";
      && (key !in response ==> id == "")
      && (key in response ==> id == PyStr(response[key]))
  {
    GetText(response, if client.SmsClient? then "sid" else "message_id")
  }

  /** The Twilio status table. */
  const SmsStatusTable: map<string, string> := map[
    "queued" := "pending", "sending" := "pending", "sent" := "sent",
    "delivered" := "delivered", "undelivered" := "failed", "failed" := "failed"]

  /** The SendGrid status table. */
  const EmailStatusTable: map<string, string> := map[
    "pending" := "pending", "processed" := "sent", "dropped" := "failed",
    "deferred" := "pending", "bounce" := "failed", "delivered" := "delivered",
    "blocked" := "failed"]

  function StatusTable(client: ProviderClient): (table: map<string, string>)
    ensures forall k :: k in table ==> AllowedStatus(table[k])
  {
    if client.SmsClient? then SmsStatusTable else EmailStatusTable
  }

  /** The reply's `status` as text; an absent status reads as "unknown". */
  function RawStatus(response: map<string, Value>): string {
    if "status" in response then PyStr(response["status"]) else "unknown"
  }

  /** `extract_status`: the provider's status through the client's table;
      anything not in the table, a missing status included, is "unknown". */
  function ExtractStatus(client: ProviderClient, response: map<string, Value>): (s: string)
    ensures KnownOrUnknownStatus(s)
    ensures AllowedStatus(s) <==> RawStatus(response) in StatusTable(client)
    ensures s != "unknown" <==> RawStatus(response) in StatusTable(client)
    ensures RawStatus(response) in StatusTable(client) ==> s == StatusTable(client)[RawStatus(response)]
  {
    var raw := RawStatus(response);
    var table := StatusTable(client);
    if raw in table then table[raw] else "unknown"
  }

  /** The Twilio table in full. */
  lemma SmsStatusMapping(response: map<string, Value>)
    ensures var raw := RawStatus(response); var s := ExtractStatus(SmsClient("", ""), response);
      && (raw in {"queued", "sending"} ==> s == "pending")
      && (raw == "sent" ==> s == "sent")
      && (raw == "delivered" ==> s == "delivered")
      && (raw in {"undelivered", "failed"} ==> s == "failed")
      && (raw !in {"queued", "sending", "sent", "delivered", "undelivered", "failed"} ==> s == "unknown")
  {
  }

  /** The SendGrid table in full. */
  lemma EmailStatusMapping(response: map<string, Value>)
    ensures var raw := RawStatus(response); var s := ExtractStatus(EmailClient("", ""), response);
      && (raw in {"pending", "deferred"} ==> s == "pending")
      && (raw == "processed" ==> s == "sent")
      && (raw == "delivered" ==> s == "delivered")
      && (raw in {"dropped", "bounce", "blocked"} ==> s == "failed")
      && (raw !in {"pending", "deferred", "processed", "delivered", "dropped", "bounce", "blocked"} ==> s == "unknown")
  {
  }

  /** The email client reads a provider's "sent" or "queued", and a reply
      without a status, as "unknown", a status the `messages` table does not
      accept. */
  lemma EmailSentQueuedUnknown(client: ProviderClient, raw: string)
    requires client.EmailClient? && raw in {"sent", "queued"}
    ensures ExtractStatus(client, map["status" := Str(raw)]) == "unknown"
    ensures ExtractStatus(client, map[]) == "unknown"
    ensures !AllowedStatus(ExtractStatus(client, map["status" := Str(raw)]))
  {
  }
}
