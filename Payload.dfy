/** Webhook payloads as the normalisers see them: a JSON body that should be
    an object, its values read with `dict.get`, coerced with `str()` and
    tested for truthiness; the checks and the timestamp rule both
    normalisers share. */
module Payloads {
  import opened Wrappers
  import opened Models
  import Text

  /** What `str()` makes of a number or a boolean ("0", "1.5", "False"):
      never the empty text. */
  type Rendering = s: string | s != "" witness "0"

  /** A value of the payload. `Str` is a JSON string; `Scalar` is a number or
      boolean, given by the text `str()` renders it as and by its truthiness;
      `Null` is JSON null (Python `None`); `List` is a JSON array of strings. */
  datatype Value = Str(s: string) | Scalar(repr: Rendering, truthy: bool) | Null | List(items: seq<string>)

  /** The request body: a JSON object, or anything else. */
  datatype Payload = Dict(fields: map<string, Value>) | NotADict

  /** The validation failures of the normalisers. All but the last one are
      `ValueError`s (building the request model raises pydantic's
      `ValidationError`, itself a `ValueError`), which the webhook router
      answers with 400; the last is the `AttributeError` a non-text timestamp
      raises, which it answers with 500. */
  datatype WebhookError =
    | NotADictionary
    | UnrecognizedFormat
    | MissingField(field: string)
    | InvalidProviderType(providerType: string)
    | InvalidAddressFormat(field: string, address: string)
    | InvalidTimestamp(timestamp: string)
    | AttachmentsNotAList
    | TimestampNotText

  /** The message text each failure carries. */
  function ErrorMessage(e: WebhookError): string {
    match e
    case NotADictionary => "Webhook payload must be a dictionary"
    case UnrecognizedFormat => "Invalid webhook format: missing required fields"
    case MissingField(f) => "Missing required field: " + f
    case InvalidProviderType(t) => "Invalid provider_type: " + t + ". Must be 'sms' or 'mms'"
    case InvalidAddressFormat(f, a) => "Invalid " + f + " format: " + a
    case InvalidTimestamp(t) => "Invalid timestamp format: " + t
    case AttachmentsNotAList => "attachments: Input should be a valid list"
    case TimestampNotText => "object has no attribute 'replace'"
  }

  /** Whether the failure is a `ValueError` (HTTP 400) rather than another
      exception (HTTP 500). */
  predicate IsValueError(e: WebhookError) {
    !e.TimestampNotText?
  }

  /** Python truthiness: empty text, zero, `False`, `None` and an empty list
      are false. */
  predicate Truthy(v: Value) {
    match v
    case Str(s) => s != ""
    case Scalar(_, t) => t
    case Null => false
    case List(xs) => xs != []
  }

  /** `str(v)`. */
  function PyStr(v: Value): (r: string)
    ensures v.Str? ==> r == v.s
    ensures v.Null? ==> r == "None"
    ensures v.List? ==> r != ""
    ensures v.Scalar? ==> r == v.repr
    ensures r == "" <==> v == Str("")
  {
    match v
    case Str(s) => s
    case Scalar(r, _) => r
    case Null => "None"
    case List(xs) => Text.ListRepr(xs)
  }

  /** `d.get(key)`: an absent key reads as `None`. */
  function Get(d: map<string, Value>, key: string): (v: Value)
    ensures key !in d ==> v == Null
    ensures key in d ==> v == d[key]
  {
    if key in d then d[key] else Null
  }

  /** `str(d.get(key, ""))`: an absent key gives the empty text, a present
      `None` gives the (non-empty) text "None". */
  function GetText(d: map<string, Value>, key: string): (t: string)
    ensures key !in d ==> t == ""
    ensures key in d ==> t == PyStr(d[key])
    ensures t == "" <==> key !in d || d[key] == Str("")
  {
    if key in d then PyStr(d[key]) else ""
  }

  /** `d.get(key, []) or []`: a falsy or absent value becomes the empty list. */
  function GetListOrEmpty(d: map<string, Value>, key: string): (v: Value)
    ensures Truthy(v) || v == List([])
    ensures Truthy(Get(d, key)) ==> v == Get(d, key)
    ensures !Truthy(Get(d, key)) ==> v == List([])
  {
    var raw := if key in d then d[key] else List([]);
    if Truthy(raw) then raw else List([])
  }

  /** Building `WebhookMessageRequest` validates `attachments` as a list of
      strings: a list passes, any other (truthy) value fails. */
  function AttachmentsList(v: Value): (r: Result<seq<string>, WebhookError>)
    ensures v.List? <==> r.Success?
    ensures v.List? ==> r.value == v.items
    ensures r.Failure? ==> r.error == AttachmentsNotAList
  {
    match v
    case List(xs) => Success(xs)
    case _ => Failure(AttachmentsNotAList)
  }

  /** The timestamp rule shared by both normalisers: an absent or falsy
      timestamp takes the current time `now`; a text timestamp has every `Z`
      rewritten to `+00:00` and the result handed to the ISO 8601 parser
      `parse` (`datetime.fromisoformat`), whose failure is reported with the
      original text; any other truthy value has no `replace` method. */
  function ParseTimestamp(raw: Value, parse: string -> Option<Timestamp>, now: Timestamp): (r: Result<Timestamp, WebhookError>)
    ensures !Truthy(raw) ==> r == Success(now)
    ensures raw.Str? && raw.s != "" ==>
      var rewritten := Text.ReplaceChar(raw.s, 'Z', "+00:00");
      && 'Z' !in rewritten
      && (parse(rewritten).Some? ==> r == Success(parse(rewritten).value))
      && (parse(rewritten).None? ==> r == Failure(InvalidTimestamp(raw.s)))
    ensures Truthy(raw) && !raw.Str? ==> r == Failure(TimestampNotText)
  {
    if !Truthy(raw) then Success(now)
    else match raw
      case Str(s) =>
        (match parse(Text.ReplaceChar(s, 'Z', "+00:00"))
         case Some(t) => Success(t)
         case None => Failure(InvalidTimestamp(s)))
      case _ => Failure(TimestampNotText)
  }

  /** A timestamp without `Z` reaches the parser unchanged. */
  lemma TimestampWithoutZ(s: string, parse: string -> Option<Timestamp>, now: Timestamp)
    requires s != "" && 'Z' !in s
    ensures ParseTimestamp(Str(s), parse, now) ==
      (if parse(s).Some? then Success(parse(s).value) else Failure(InvalidTimestamp(s)))
  {
  }

  /** The index of the first check that fails, in the order given, or `None`
      when every check passes: the normalisers test their required fields one
      after the other and report the first one that is missing. */
  function FirstFailing(passes: seq<bool>): (r: Option<nat>)
    ensures r.None? <==> forall i :: 0 <= i < |passes| ==> passes[i]
    ensures r.Some? ==> r.value < |passes| && !passes[r.value]
    ensures r.Some? ==> forall j :: 0 <= j < r.value ==> passes[j]
  {
    if passes == [] then None
    else if !passes[0] then Some(0)
    else match FirstFailing(passes[1..])
      case None => None
      case Some(i) => Some(i + 1)
  }

  /** The text of a required field that passes `not v or not isinstance(v, str)`:
      a non-empty string. */
  function RequiredText(v: Value): (r: Option<string>)
    ensures r.Some? <==> v.Str? && v.s != ""
    ensures r.Some? ==> r.value == v.s && r.value != ""
  {
    if v.Str? && v.s != "" then Some(v.s) else None
  }

  /** What a normaliser has read out of the payload before checking it: the
      body is kept as a value because the email provider shape can take it
      uncoerced from `html_content`. */
  datatype Extracted = Extracted(
    fromAddress: string,
    toAddress: string,
    body: Value,
    providerMessageId: string,
    attachments: Value,
    timestamp: Value,
    providerType: string)

  /** The required-field checks in their fixed order; the SMS/MMS normaliser
      also requires `provider_type`. */
  function RequiredChecks(e: Extracted, withType: bool): (checks: seq<(string, bool)>)
    ensures |checks| == if withType then 5 else 4
    ensures checks[0] == ("from_address", e.fromAddress != "")
    ensures checks[1] == ("to_address", e.toAddress != "")
    ensures checks[2] == ("body", RequiredText(e.body).Some?)
    ensures checks[3] == ("provider_message_id", e.providerMessageId != "")
    ensures withType ==> checks[4] == ("provider_type", e.providerType != "")
  {
    [("from_address", e.fromAddress != ""),
     ("to_address", e.toAddress != ""),
     ("body", RequiredText(e.body).Some?),
     ("provider_message_id", e.providerMessageId != "")]
    + (if withType then [("provider_type", e.providerType != "")] else [])
  }

  /** Runs the required-field checks: fails naming the first field that is
      missing, or gives the body text. */
  function CheckRequired(e: Extracted, withType: bool): (r: Result<string, WebhookError>)
    ensures var checks := RequiredChecks(e, withType);
      && (r.Success? <==> forall i :: 0 <= i < |checks| ==> checks[i].1)
      && (r.Success? ==> RequiredText(e.body) == Some(r.value))
      && (r.Failure? ==> exists i :: 0 <= i < |checks| && !checks[i].1
                          && (forall j :: 0 <= j < i ==> checks[j].1)
                          && r.error == MissingField(checks[i].0))
  {
    var checks := RequiredChecks(e, withType);
    var passes := seq(|checks|, i requires 0 <= i < |checks| => checks[i].1);
    assert forall i :: 0 <= i < |checks| ==> passes[i] == checks[i].1;
    match FirstFailing(passes)
    case Some(i) => Failure(MissingField(checks[i].0))
    case None =>
      assert passes[2];
      Success(RequiredText(e.body).value)
  }

  /** Every required field present: the checks pass and give the body. */
  lemma AllPresent(e: Extracted, withType: bool)
    requires e.fromAddress != "" && e.toAddress != "" && RequiredText(e.body).Some? && e.providerMessageId != ""
    requires withType ==> e.providerType != ""
    ensures CheckRequired(e, withType) == Success(e.body.s)
  {
    var checks := RequiredChecks(e, withType);
    assert forall i :: 0 <= i < |checks| ==> checks[i].1;
  }

  /** The last steps both normalisers share: parse the timestamp, then build
      the request model, whose `attachments` must be a list. */
  function Finish(e: Extracted, body: string, providerType: string,
                  parse: string -> Option<Timestamp>, now: Timestamp): (r: Result<WebhookMessageRequest, WebhookError>)
    ensures ParseTimestamp(e.timestamp, parse, now).Failure? ==>
      r == Failure(ParseTimestamp(e.timestamp, parse, now).error)
    ensures ParseTimestamp(e.timestamp, parse, now).Success? && !e.attachments.List? ==>
      r == Failure(AttachmentsNotAList)
    ensures r.Success? <==> ParseTimestamp(e.timestamp, parse, now).Success? && e.attachments.List?
    ensures r.Success? ==> r.value == WebhookMessageRequest(
      e.fromAddress, e.toAddress, body, e.attachments.items, e.providerMessageId,
      ParseTimestamp(e.timestamp, parse, now).value, providerType)
  {
    var t :- ParseTimestamp(e.timestamp, parse, now);
    var attachments :- AttachmentsList(e.attachments);
    Success(WebhookMessageRequest(e.fromAddress, e.toAddress, body, attachments, e.providerMessageId, t, providerType))
  }
}
