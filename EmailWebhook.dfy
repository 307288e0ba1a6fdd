/** The email webhook normaliser (`_validate_webhook_payload` of
    app/services/receive_email_webhook_service.py): a payload in the
    SendGrid-like provider shape (key `"from_email"`) or the unified shape
    (key `"from"`) becomes a canonical `WebhookMessageRequest` of type
    "email", or a validation error. */
module EmailWebhook {
  import opened Wrappers
  import opened Models
  import opened Payloads

  /** The keys the provider shape reads. */
  const ProviderKeys: set<string> := {"from_email", "to_email", "subject", "content", "html_content", "x_message_id", "timestamp"}

  /** The body of the provider shape: `html_content` when it is truthy (taken
      as it is, not coerced), else `content`; a non-empty subject is put in
      front, which renders the chosen body with `str()`. */
  function ProviderBody(d: map<string, Value>): (body: Value)
    ensures GetText(d, "subject") != "" ==>
      var chosen := if Truthy(Get(d, "html_content")) then PyStr(Get(d, "html_content")) else GetText(d, "content");
      body == Str("Subject: " + GetText(d, "subject") + "\n\n" + chosen)
    ensures GetText(d, "subject") == "" && Truthy(Get(d, "html_content")) ==> body == Get(d, "html_content")
    ensures GetText(d, "subject") == "" && !Truthy(Get(d, "html_content")) ==> body == Str(GetText(d, "content"))
  {
    var html := Get(d, "html_content");
    var chosen := if Truthy(html) then html else Str(GetText(d, "content"));
    var subject := GetText(d, "subject");
    if subject != "" then Str("Subject: " + subject + "\n\n" + PyStr(chosen)) else chosen
  }

  /** The provider shape: no attachments are read. */
  function ProviderFields(d: map<string, Value>): Extracted {
    Extracted(
      GetText(d, "from_email"), GetText(d, "to_email"), ProviderBody(d),
      GetText(d, "x_message_id"), List([]), Get(d, "timestamp"), "email")
  }

  /** The unified shape: the provider message id comes from `"xillio_id"`. */
  function UnifiedFields(d: map<string, Value>): Extracted {
    Extracted(
      GetText(d, "from"), GetText(d, "to"), Str(GetText(d, "body")),
      GetText(d, "xillio_id"), GetListOrEmpty(d, "attachments"),
      Get(d, "timestamp"), "email")
  }

  /** Shape selection: `"from_email"` wins over `"from"`. */
  function Fields(d: map<string, Value>): Result<Extracted, WebhookError> {
    if "from_email" in d then Success(ProviderFields(d))
    else if "from" in d then Success(UnifiedFields(d))
    else Failure(UnrecognizedFormat)
  }

  /** The address checks that follow the presence checks. */
  function CheckAddresses(e: Extracted): (r: Result<(), WebhookError>)
    ensures r.Success? <==> '@' in e.fromAddress && '@' in e.toAddress
    ensures '@' !in e.fromAddress ==> r == Failure(InvalidAddressFormat("from_address", e.fromAddress))
    ensures '@' in e.fromAddress && '@' !in e.toAddress ==> r == Failure(InvalidAddressFormat("to_address", e.toAddress))
  {
    if '@' !in e.fromAddress then Failure(InvalidAddressFormat("from_address", e.fromAddress))
    else if '@' !in e.toAddress then Failure(InvalidAddressFormat("to_address", e.toAddress))
    else Success(())
  }

  /** `_validate_webhook_payload`. */
  function ValidateWebhookPayload(p: Payload, parse: string -> Option<Timestamp>, now: Timestamp): (r: Result<WebhookMessageRequest, WebhookError>)
    ensures p.NotADict? ==> r == Failure(NotADictionary)
    ensures p.Dict? && "from_email" !in p.fields && "from" !in p.fields ==> r == Failure(UnrecognizedFormat)
    // presence first, in the fixed order, then the '@' of each address
    ensures p.Dict? && Fields(p.fields).Success? && CheckRequired(Fields(p.fields).value, false).Failure? ==>
      r == Failure(CheckRequired(Fields(p.fields).value, false).error)
    ensures p.Dict? && Fields(p.fields).Success? && CheckRequired(Fields(p.fields).value, false).Success?
            && CheckAddresses(Fields(p.fields).value).Failure? ==>
      r == Failure(CheckAddresses(Fields(p.fields).value).error)
    ensures r.Success? ==>
      && p.Dict? && Fields(p.fields).Success?
      && var e := Fields(p.fields).value;
      && e.body.Str? && e.attachments.List?
      && ParseTimestamp(e.timestamp, parse, now).Success?
      && r.value == WebhookMessageRequest(e.fromAddress, e.toAddress, e.body.s, e.attachments.items,
                                          e.providerMessageId, ParseTimestamp(e.timestamp, parse, now).value, "email")
    ensures r.Success? ==>
      && '@' in r.value.fromAddress && '@' in r.value.toAddress
      && r.value.body != "" && r.value.providerMessageId != ""
      && r.value.providerType == "email"
    ensures r.Success? && "from_email" in p.fields ==> r.value.attachments == []
  {
    if p.NotADict? then Failure(NotADictionary)
    else
      var e :- Fields(p.fields);
      var body :- CheckRequired(e, false);
      var _ :- CheckAddresses(e);
      Finish(e, body, "email", parse, now)
  }

  /** Once the shape is recognised and the presence and address checks
      pass, the outcome is that of the shared last steps. */
  lemma ChecksPassed(d: map<string, Value>, parse: string -> Option<Timestamp>, now: Timestamp)
    requires Fields(d).Success? && CheckRequired(Fields(d).value, false).Success?
    requires CheckAddresses(Fields(d).value).Success?
    ensures ValidateWebhookPayload(Dict(d), parse, now)
         == Finish(Fields(d).value, CheckRequired(Fields(d).value, false).value, "email", parse, now)
  {
  }

  /** A non-empty subject alone satisfies the body check: with empty
      content the body is the subject line and a blank line. */
  lemma SubjectAloneIsABody(from: string, to: string, subject: string, id: string,
                            parse: string -> Option<Timestamp>, now: Timestamp)
    requires '@' in from && '@' in to && subject != "" && id != ""
    ensures var d := map["from_email" := Str(from), "to_email" := Str(to), "subject" := Str(subject),
                         "content" := Str(""), "x_message_id" := Str(id)];
      ValidateWebhookPayload(Dict(d), parse, now)
        == Success(WebhookMessageRequest(from, to, "Subject: " + subject + "\n\n", [], id, now, "email"))
  {
    var d := map["from_email" := Str(from), "to_email" := Str(to), "subject" := Str(subject),
                 "content" := Str(""), "x_message_id" := Str(id)];
    var line := "Subject: " + subject + "\n\n";
    assert line + "" == line;
    var e := Extracted(from, to, Str(line), id, List([]), Null, "email");
    assert Fields(d) == Success(e);
    AllPresent(e, false);
    ChecksPassed(d, parse, now);
  }

  /** Without a subject, non-empty HTML content is preferred over the plain
      content. */
  lemma HtmlPreferred(from: string, to: string, content: string, html: string, id: string,
                      parse: string -> Option<Timestamp>, now: Timestamp)
    requires '@' in from && '@' in to && html != "" && id != ""
    ensures var d := map["from_email" := Str(from), "to_email" := Str(to), "content" := Str(content),
                         "html_content" := Str(html), "x_message_id" := Str(id)];
      ValidateWebhookPayload(Dict(d), parse, now) == Success(WebhookMessageRequest(from, to, html, [], id, now, "email"))
  {
    var d := map["from_email" := Str(from), "to_email" := Str(to), "content" := Str(content),
                 "html_content" := Str(html), "x_message_id" := Str(id)];
    var e := Extracted(from, to, Str(html), id, List([]), Null, "email");
    assert Fields(d) == Success(e);
    AllPresent(e, false);
    ChecksPassed(d, parse, now);
  }

  /** Without a subject, an HTML content that is not text (a number, say)
      becomes the body uncoerced and fails the body check. */
  lemma NonTextHtmlRejected(from: string, to: string, repr: Rendering, id: string,
                            parse: string -> Option<Timestamp>, now: Timestamp)
    requires '@' in from && '@' in to && id != ""
    ensures var d := map["from_email" := Str(from), "to_email" := Str(to),
                         "html_content" := Scalar(repr, true), "x_message_id" := Str(id)];
      ValidateWebhookPayload(Dict(d), parse, now) == Failure(MissingField("body"))
  {
    var d := map["from_email" := Str(from), "to_email" := Str(to),
                 "html_content" := Scalar(repr, true), "x_message_id" := Str(id)];
    assert RequiredChecks(ProviderFields(d), false)[2].1 == false;
  }

  /** A phone number is no email address: the '@' check rejects it after the
      presence checks pass. */
  lemma PhoneSenderRejected(from: string, to: string, body: string, id: string,
                            parse: string -> Option<Timestamp>, now: Timestamp)
    requires from != "" && '@' !in from && to != "" && body != "" && id != ""
    ensures var d := map["from" := Str(from), "to" := Str(to), "body" := Str(body), "xillio_id" := Str(id)];
      ValidateWebhookPayload(Dict(d), parse, now) == Failure(InvalidAddressFormat("from_address", from))
  {
  }
}
