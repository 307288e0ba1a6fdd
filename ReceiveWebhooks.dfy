/** `process_webhook` of the two receive services
    (app/services/receive_sms_mms_webhook_service.py and
    app/services/receive_email_webhook_service.py): normalise the payload,
    resolve the conversation of its two addresses, store the inbound message.
    The two services differ only in their normaliser. */
module ReceiveWebhooks {
  import opened Wrappers
  import opened Models
  import opened Database
  import opened Payloads
  import opened ConversationRepository
  import opened ConversationResolver
  import MessageRepository
  import SmsWebhook
  import EmailWebhook

  /** Which receive service handles the webhook. */
  datatype Channel = Sms | Email

  /** The errors `process_webhook` lets escape: a validation `ValueError`,
      an `AttributeError` for a repository method that does not exist, or a
      storage error. */
  datatype WebhookFailure =
    | Invalid(error: WebhookError)
    | MissingRepositoryMethod(name: string)
    | StoreFailed(cause: StoreError)

  /** The channel's `_validate_webhook_payload`. */
  function Validate(ch: Channel, p: Payload, parse: string -> Option<Timestamp>, now: Timestamp)
    : (r: Result<WebhookMessageRequest, WebhookError>)
    ensures p.NotADict? ==> r == Failure(NotADictionary)
    ensures r.Success? ==>
      && AllowedProviderType(r.value.providerType)
      && (ch.Sms? <==> r.value.providerType in {"sms", "mms"})
      && r.value.fromAddress != "" && r.value.toAddress != ""
  {
    match ch
    case Sms => SmsWebhook.ValidateWebhookPayload(p, parse, now)
    case Email => EmailWebhook.ValidateWebhookPayload(p, parse, now)
  }

  /** `process_webhook` as written: it calls
      `message_repo.create_inbound_message`, which `MessageRepository`
      does not define. Every valid webhook therefore fails after its
      conversation and participants have been committed, and no message is
      ever stored. */
  method ProcessWebhookAsWritten(db: Db, ch: Channel, p: Payload, parse: string -> Option<Timestamp>, now: Timestamp)
    returns (r: Result<MessageResponse, WebhookFailure>)
    requires db.Valid()
    modifies db
    ensures db.Valid()
    ensures db.messages == old(db.messages)
    ensures Validate(ch, p, parse, now).Failure? ==>
      r == Failure(Invalid(Validate(ch, p, parse, now).error)) && unchanged(db)
    ensures Validate(ch, p, parse, now).Success? ==>
      && r == Failure(MissingRepositoryMethod("create_inbound_message"))
      && var req := Validate(ch, p, parse, now).value;
      && var found := old(Lookup(db.conversations, db.participants, db.messages, [req.fromAddress, req.toAddress]));
      && (found.Some? ==> db.conversations == old(db.conversations) && db.participants == old(db.participants))
      && (found.None? ==>
            && |db.conversations| == |old(db.conversations)| + 1
            && var id := db.conversations[|old(db.conversations)|].id;
            && db.conversations == old(db.conversations) + [ConversationRow(id, now, now)]
            && !HasConversation(old(db.conversations), id)
            && AddressesOf(db.participants, id) == Dedup([req.fromAddress, req.toAddress])
            && OthersUnchanged(old(db.participants), db.participants, id)
            && (forall p :: p in db.participants && p !in old(db.participants) ==>
                  p.conversationId == id && p.addressType == AddressType(p.address) && p.createdAt == now))
  {
    var validated := Validate(ch, p, parse, now);
    if validated.Failure? {
      return Failure(Invalid(validated.error));
    }
    var req := validated.value;
    var conversation := FindOrCreateConversation(db, [req.fromAddress, req.toAddress], now);
    r := Failure(MissingRepositoryMethod("create_inbound_message"));
  }

  /** A concrete webhook the as-written service rejects although it is
      valid: a unified SMS payload with every required field. */
  lemma AsWrittenRejectsValidSms(parse: string -> Option<Timestamp>, now: Timestamp)
    ensures var d := map["from" := Str("+15550001"), "to" := Str("+15550002"), "body" := Str("hi"),
                         "messaging_provider_id" := Str("m1"), "type" := Str("sms")];
      Validate(Sms, Dict(d), parse, now)
        == Success(WebhookMessageRequest("+15550001", "+15550002", "hi", [], "m1", now, "sms"))
  {
    SmsWebhook.UnifiedDefaults("+15550001", "+15550002", "hi", "m1", "sms", map[], parse, now);
  }

  /** The inbound record the services build: the request's fields, direction
      "inbound", status "delivered". */
  predicate IsInbound(m: MessageResponse, req: WebhookMessageRequest, cid: Id, now: Timestamp) {
    && m.conversationId == cid
    && m.providerType == req.providerType
    && m.providerMessageId == Some(req.providerMessageId)
    && m.fromAddress == req.fromAddress && m.toAddress == req.toAddress && m.body == req.body
    && m.attachments == req.attachments
    && m.direction == "inbound" && m.status == "delivered"
    && m.messageTimestamp == req.timestamp
    && m.createdAt == now && m.updatedAt == now
  }

  /** The store operation the services evidently meant by
      `create_inbound_message`: insert the request as a delivered inbound
      message of the conversation. It fails only on the schema's
      constraints. */
  method CreateInboundMessage(db: Db, cid: Id, req: WebhookMessageRequest, now: Timestamp)
    returns (r: Result<MessageResponse, StoreError>)
    requires db.Valid()
    modifies db
    ensures db.Valid()
    ensures db.conversations == old(db.conversations) && db.participants == old(db.participants)
    ensures r.Success? <==> HasConversation(db.conversations, cid) && AllowedProviderType(req.providerType)
    ensures r.Failure? ==> db.messages == old(db.messages)
    ensures r.Success? ==>
      && IsInbound(r.value, req, cid, now)
      && (forall m :: m in old(db.messages) ==> m.id != r.value.id)
      && db.messages == old(db.messages) + [MessageRepository.FromResponse(r.value)]
  {
    var message := MessageResponse(
      db.FreshId(), cid, req.providerType, Some(req.providerMessageId),
      req.fromAddress, req.toAddress, req.body, req.attachments,
      "inbound", "delivered", req.timestamp, now, now);
    r := MessageRepository.Create(db, message);
  }

  /** `process_webhook` with `create_inbound_message` as above: a valid
      webhook is stored as one delivered inbound message of the conversation
      of its two addresses, and the record returned echoes it. */
  method ProcessWebhook(db: Db, ch: Channel, p: Payload, parse: string -> Option<Timestamp>, now: Timestamp)
    returns (r: Result<MessageResponse, WebhookFailure>)
    requires db.Valid()
    modifies db
    ensures db.Valid()
    ensures Validate(ch, p, parse, now).Failure? ==>
      r == Failure(Invalid(Validate(ch, p, parse, now).error)) && unchanged(db)
    ensures Validate(ch, p, parse, now).Success? ==>
      && r.Success?
      && var req := Validate(ch, p, parse, now).value;
      && IsInbound(r.value, req, r.value.conversationId, now)
      && HasConversation(db.conversations, r.value.conversationId)
      && (forall m :: m in old(db.messages) ==> m.id != r.value.id)
      && db.messages == old(db.messages) + [MessageRepository.FromResponse(r.value)]
      && var found := old(Lookup(db.conversations, db.participants, db.messages, [req.fromAddress, req.toAddress]));
      && (found.Some? ==>
            && r.value.conversationId == found.value.id
            && db.conversations == old(db.conversations) && db.participants == old(db.participants))
      && (found.None? ==>
            && db.conversations == old(db.conversations) + [ConversationRow(r.value.conversationId, now, now)]
            && !HasConversation(old(db.conversations), r.value.conversationId)
            && AddressesOf(db.participants, r.value.conversationId) == Dedup([req.fromAddress, req.toAddress])
            && OthersUnchanged(old(db.participants), db.participants, r.value.conversationId)
            && (forall p :: p in db.participants && p !in old(db.participants) ==>
                  p.conversationId == r.value.conversationId && p.addressType == AddressType(p.address)
                  && p.createdAt == now))
  {
    var validated := Validate(ch, p, parse, now);
    if validated.Failure? {
      return Failure(Invalid(validated.error));
    }
    var req := validated.value;
    var conversation := FindOrCreateConversation(db, [req.fromAddress, req.toAddress], now);
    var stored := CreateInboundMessage(db, conversation.id, req, now);
    match stored
    case Success(m) =>
      r := Success(MessageResponse(
        m.id, conversation.id, req.providerType, Some(req.providerMessageId),
        req.fromAddress, req.toAddress, req.body, req.attachments,
        "inbound", "delivered", req.timestamp, m.createdAt, m.updatedAt));
    case Failure(e) =>
      assert false;
      r := Failure(StoreFailed(e));
  }
}
