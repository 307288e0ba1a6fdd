/** The SMS/MMS webhook normaliser (`_validate_webhook_payload` of
    app/services/receive_sms_mms_webhook_service.py): a payload in either the
    unified shape (key `"from"`) or the Twilio-like provider shape (key
    `"From"`) becomes a canonical `WebhookMessageRequest` or a validation
    error. */
module SmsWebhook {
  import opened Wrappers
  import opened Models
  import opened Payloads

  /** The keys the unified shape reads. */
  const UnifiedKeys: set<string> := {"from", "to", "body", "messaging_provider_id", "attachments", "timestamp", "type"}

  /** The keys the provider shape reads. */
  const ProviderKeys: set<string> := {"From", "To", "Body", "MessageSid", "MediaUrl", "Timestamp"}

  /** The unified shape: every field read by name, `provider_type` from
      `"type"`. */
  function UnifiedFields(d: map<string, Value>): Extracted {
    Extracted(
      GetText(d, "from"), GetText(d, "to"), Str(GetText(d, "body")),
      GetText(d, "messaging_provider_id"), GetListOrEmpty(d, "attachments"),
      Get(d, "timestamp"), GetText(d, "type"))
  }

  /** The provider shape: `provider_type` is derived from whether any media
      is attached. */
  function ProviderFields(d: map<string, Value>): Extracted {
    var attachments := GetListOrEmpty(d, "MediaUrl");
    Extracted(
      GetText(d, "From"), GetText(d, "To"), Str(GetText(d, "Body")),
      GetText(d, "MessageSid"), attachments,
      Get(d, "Timestamp"), if Truthy(attachments) then "mms" else "sms")
  }

  /** Shape selection: `"from"` wins over `"From"`. */
  function Fields(d: map<string, Value>): Result<Extracted, WebhookError> {
    if "from" in d then Success(UnifiedFields(d))
    else if "From" in d then Success(ProviderFields(d))
    else Failure(UnrecognizedFormat)
  }

  /** The request carries the extracted fields unchanged, with the parsed
      timestamp. */
  predicate Carries(req: WebhookMessageRequest, e: Extracted, parse: string -> Option<Timestamp>, now: Timestamp) {
    && e.body.Str? && e.attachments.List?
    && ParseTimestamp(e.timestamp, parse, now).Success?
    && req == WebhookMessageRequest(
         e.fromAddress, e.toAddress, e.body.s, e.attachments.items,
         e.providerMessageId, ParseTimestamp(e.timestamp, parse, now).value, e.providerType)
  }

  /** `_validate_webhook_payload`. */
  function ValidateWebhookPayload(p: Payload, parse: string -> Option<Timestamp>, now: Timestamp): (r: Result<WebhookMessageRequest, WebhookError>)
    ensures p.NotADict? ==> r == Failure(NotADictionary)
    ensures p.Dict? && "from" !in p.fields && "From" !in p.fields ==> r == Failure(UnrecognizedFormat)
    // the required fields are checked first, in their fixed order
    ensures p.Dict? && Fields(p.fields).Success? && CheckRequired(Fields(p.fields).value, true).Failure? ==>
      r == Failure(CheckRequired(Fields(p.fields).value, true).error)
    // then the provider type
    ensures p.Dict? && Fields(p.fields).Success? && CheckRequired(Fields(p.fields).value, true).Success?
            && Fields(p.fields).value.providerType !in {"sms", "mms"} ==>
      r == Failure(InvalidProviderType(Fields(p.fields).value.providerType))
    // an accepted payload: every required field non-empty, a known type, the
    // fields of the selected shape
    ensures r.Success? ==>
      && p.Dict? && Fields(p.fields).Success?
      && Carries(r.value, Fields(p.fields).value, parse, now)
      && r.value.fromAddress != "" && r.value.toAddress != "" && r.value.body != ""
      && r.value.providerMessageId != ""
      && r.value.providerType in {"sms", "mms"}
    ensures r.Success? && "from" !in p.fields ==>
      (r.value.providerType == "mms" <==> r.value.attachments != [])
  {
    if p.NotADict? then Failure(NotADictionary)
    else
      var e :- Fields(p.fields);
      var body :- CheckRequired(e, true);
      if e.providerType != "sms" && e.providerType != "mms" then
        Failure(InvalidProviderType(e.providerType))
      else
        Finish(e, body, e.providerType, parse, now)
  }

  /** Once the shape is recognised, the required fields are present and the
      type is known, the outcome is that of the shared last steps. */
  lemma ChecksPassed(d: map<string, Value>, parse: string -> Option<Timestamp>, now: Timestamp)
    requires Fields(d).Success? && CheckRequired(Fields(d).value, true).Success?
    requires Fields(d).value.providerType in {"sms", "mms"}
    ensures ValidateWebhookPayload(Dict(d), parse, now)
         == Finish(Fields(d).value, CheckRequired(Fields(d).value, true).value, Fields(d).value.providerType, parse, now)
  {
  }

  /** Once `"from"` is present, keys the unified shape does not read, such as
      those of the provider shape, have no effect on the outcome. */
  lemma UnifiedShapeIgnoresOtherKeys(d: map<string, Value>, k: string, v: Value, parse: string -> Option<Timestamp>, now: Timestamp)
    requires "from" in d && k !in UnifiedKeys
    ensures ValidateWebhookPayload(Dict(d[k := v]), parse, now) == ValidateWebhookPayload(Dict(d), parse, now)
  {
    assert UnifiedFields(d[k := v]) == UnifiedFields(d);
  }

  /** A unified payload whose required fields are all present text, whose
      `type` is "sms" or "mms", whose timestamp is absent and whose
      attachments are absent or null is accepted, with the attachments
      defaulted to [] and the time taken from the clock. */
  lemma UnifiedDefaults(from: string, to: string, body: string, id: string, kind: string,
                        extra: map<string, Value>, parse: string -> Option<Timestamp>, now: Timestamp)
    requires from != "" && to != "" && body != "" && id != "" && kind in {"sms", "mms"}
    requires "attachments" !in extra && "timestamp" !in extra
    ensures var d := extra["from" := Str(from)]["to" := Str(to)]["body" := Str(body)]
                          ["messaging_provider_id" := Str(id)]["type" := Str(kind)];
      ValidateWebhookPayload(Dict(d), parse, now) == Success(WebhookMessageRequest(from, to, body, [], id, now, kind))
  {
    var d := extra["from" := Str(from)]["to" := Str(to)]["body" := Str(body)]
                  ["messaging_provider_id" := Str(id)]["type" := Str(kind)];
    var e := Extracted(from, to, Str(body), id, List([]), Null, kind);
    assert Fields(d) == Success(e);
    AllPresent(e, true);
    ChecksPassed(d, parse, now);
  }

  /** In the provider shape with media attached, the type is "mms"; the
      attachments are the media list. */
  lemma ProviderShapeWithMedia(from: string, to: string, body: string, sid: string, media: seq<string>,
                               parse: string -> Option<Timestamp>, now: Timestamp)
    requires from != "" && to != "" && body != "" && sid != "" && media != []
    ensures var d := map["From" := Str(from), "To" := Str(to), "Body" := Str(body),
                         "MessageSid" := Str(sid), "MediaUrl" := List(media)];
      ValidateWebhookPayload(Dict(d), parse, now) == Success(WebhookMessageRequest(from, to, body, media, sid, now, "mms"))
  {
    var d := map["From" := Str(from), "To" := Str(to), "Body" := Str(body),
                 "MessageSid" := Str(sid), "MediaUrl" := List(media)];
    var e := Extracted(from, to, Str(body), sid, List(media), Null, "mms");
    assert Fields(d) == Success(e) by {
      assert "from" !in d && "From" in d;
    }
    AllPresent(e, true);
    ChecksPassed(d, parse, now);
  }

  /** A null `"from"` still selects the unified shape and, rendered by
      `str()`, reads as the (non-empty) address "None". */
  lemma NullFromIsText(to: string, body: string, id: string, parse: string -> Option<Timestamp>, now: Timestamp)
    requires to != "" && body != "" && id != ""
    ensures var d := map["from" := Null, "to" := Str(to), "body" := Str(body),
                         "messaging_provider_id" := Str(id), "type" := Str("sms")];
      ValidateWebhookPayload(Dict(d), parse, now) == Success(WebhookMessageRequest("None", to, body, [], id, now, "sms"))
  {
    var d := map["from" := Null, "to" := Str(to), "body" := Str(body),
                 "messaging_provider_id" := Str(id), "type" := Str("sms")];
    var e := Extracted("None", to, Str(body), id, List([]), Null, "sms");
    assert Fields(d) == Success(e);
    AllPresent(e, true);
    ChecksPassed(d, parse, now);
  }
}
