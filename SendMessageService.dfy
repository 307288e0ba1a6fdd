/** `SendMessageService` (app/services/send_message_service.py): pick the
    provider by the recipient address, resolve the conversation of the two
    addresses, post the message, and store the outbound record built from the
    provider's reply. The post is an input: a function from the request the
    client builds to the provider's reply or the error it raised. */
module SendMessageService {
  import opened Wrappers
  import opened Models
  import opened Database
  import opened Payloads
  import opened ProviderClients
  import opened ConversationRepository
  import opened ConversationResolver
  import MessageRepository

  /** The two providers' base URLs and API keys, read from the environment
      in the source. */
  datatype ProviderConfig = ProviderConfig(smsUrl: string, smsKey: string, emailUrl: string, emailKey: string)

  /** What the provider post gave: the decoded JSON reply, or a raised
      error, with the HTTP status when the error carries a response. */
  datatype SendOutcome = Replied(response: map<string, Value>) | Raised(httpStatus: Option<int>)

  /** The errors `send_message` lets escape. */
  datatype SendError = ProviderFailed(httpStatus: Option<int>) | StoreFailed(cause: StoreError)

  /** `_get_provider_for_request`: the email client exactly when the
      recipient contains '@'; the SMS client otherwise, MMS included. */
  function ProviderFor(req: SendMessageRequest, cfg: ProviderConfig): (client: ProviderClient)
    ensures client.EmailClient? <==> '@' in req.toAddress
    ensures client.EmailClient? ==> client.baseUrl == cfg.emailUrl && client.apiKey == cfg.emailKey
    ensures client.SmsClient? ==> client.baseUrl == cfg.smsUrl && client.apiKey == cfg.smsKey
  {
    if '@' in req.toAddress then EmailClient(cfg.emailUrl, cfg.emailKey)
    else SmsClient(cfg.smsUrl, cfg.smsKey)
  }

  /** The branches of `_handle_provider_error`. Each of them only passes. */
  datatype ErrorBranch = RateLimited | ServerError | OtherError

  /** `_handle_provider_error`: which branch an error takes. The branch
      bodies are empty, so handling an error has no effect and never raises;
      `send_message` re-raises the error unchanged. */
  function ProviderErrorBranch(httpStatus: Option<int>): (b: ErrorBranch)
    ensures b == RateLimited <==> httpStatus == Some(429)
    ensures b == ServerError <==> httpStatus.Some? && httpStatus.value != 429 && httpStatus.value >= 500
  {
    match httpStatus
    case None => OtherError
    case Some(code) => if code == 429 then RateLimited else if code >= 500 then ServerError else OtherError
  }

  /** The fields `send_message` fixes on the outbound record it stores. */
  predicate IsOutbound(m: MessageResponse, req: SendMessageRequest, client: ProviderClient,
                       response: map<string, Value>, now: Timestamp)
  {
    && m.direction == "outbound"
    && m.status == ExtractStatus(client, response)
    && m.providerMessageId == Some(ExtractMessageId(client, response))
    && m.providerType == GetProviderType(client, req)
    && m.fromAddress == req.fromAddress && m.toAddress == req.toAddress && m.body == req.body
    && m.attachments == req.attachments.GetOr([])
    && m.messageTimestamp == req.timestamp
    && m.createdAt == now && m.updatedAt == now
  }

  /** `send_message`. The conversation of `[from, to]` is resolved first and
      stays whatever the provider does. A raised provider error is
      re-raised and nothing is stored. Otherwise the outbound record is
      stored and echoed; the insert fails, and nothing is stored, exactly
      when the client read the reply's status as "unknown". */
  method SendMessage(db: Db, req: SendMessageRequest, cfg: ProviderConfig,
                     send: HttpRequest -> SendOutcome, now: Timestamp)
    returns (r: Result<MessageResponse, SendError>)
    requires db.Valid()
    modifies db
    ensures db.Valid()
    ensures old(Lookup(db.conversations, db.participants, db.messages, [req.fromAddress, req.toAddress])).Some? ==>
      db.conversations == old(db.conversations) && db.participants == old(db.participants)
    ensures old(Lookup(db.conversations, db.participants, db.messages, [req.fromAddress, req.toAddress])).None? ==>
      && |db.conversations| == |old(db.conversations)| + 1
      && var id := db.conversations[|old(db.conversations)|].id;
      && db.conversations == old(db.conversations) + [ConversationRow(id, now, now)]
      && !HasConversation(old(db.conversations), id)
      && AddressesOf(db.participants, id) == Dedup([req.fromAddress, req.toAddress])
      && OthersUnchanged(old(db.participants), db.participants, id)
      && (forall p :: p in db.participants && p !in old(db.participants) ==>
            p.conversationId == id && p.addressType == AddressType(p.address) && p.createdAt == now)
    ensures var client := ProviderFor(req, cfg);
      var outcome := send(SendRequest(client, req));
      && (outcome.Raised? ==> r == Failure(ProviderFailed(outcome.httpStatus)) && db.messages == old(db.messages))
      && (outcome.Replied? ==>
            && (r.Success? <==> AllowedStatus(ExtractStatus(client, outcome.response)))
            && (r.Failure? ==> r == Failure(StoreFailed(CheckViolation("status"))) && db.messages == old(db.messages))
            && (r.Success? ==>
                  && IsOutbound(r.value, req, client, outcome.response, now)
                  && (forall m :: m in old(db.messages) ==> m.id != r.value.id)
                  && db.messages == old(db.messages) + [MessageRepository.FromResponse(r.value)]))
    ensures r.Success? ==>
      && HasConversation(db.conversations, r.value.conversationId)
      && (old(Lookup(db.conversations, db.participants, db.messages, [req.fromAddress, req.toAddress])).Some? ==>
            r.value.conversationId == old(Lookup(db.conversations, db.participants, db.messages, [req.fromAddress, req.toAddress])).value.id)
      && (old(Lookup(db.conversations, db.participants, db.messages, [req.fromAddress, req.toAddress])).None? ==>
            r.value.conversationId == db.conversations[|old(db.conversations)|].id)
  {
    var client := ProviderFor(req, cfg);
    var conversation := FindOrCreateConversation(db, [req.fromAddress, req.toAddress], now);
    var outcome := send(SendRequest(client, req));
    if outcome.Raised? {
      var _ := ProviderErrorBranch(outcome.httpStatus);
      return Failure(ProviderFailed(outcome.httpStatus));
    }
    var response := outcome.response;
    var message := MessageResponse(
      db.FreshId(), conversation.id, GetProviderType(client, req), Some(ExtractMessageId(client, response)),
      req.fromAddress, req.toAddress, req.body, req.attachments.GetOr([]),
      "outbound", ExtractStatus(client, response), req.timestamp, now, now);
    var stored := MessageRepository.Create(db, message);
    match stored
    case Success(m) =>
      r := Success(m);
    case Failure(e) =>
      r := Failure(StoreFailed(e));
  }

  /** Sending to an email address through the default configuration posts
      to the email provider, which stores an "unknown" status for a reply
      of "sent" or "queued": that send stores nothing but keeps the
      conversation it resolved. */
  lemma EmailSentReplyStoresNothing(req: SendMessageRequest, cfg: ProviderConfig, raw: string)
    requires '@' in req.toAddress && raw in {"sent", "queued"}
    ensures var client := ProviderFor(req, cfg);
      !AllowedStatus(ExtractStatus(client, map["status" := Str(raw)]))
  {
    EmailSentQueuedUnknown(ProviderFor(req, cfg), raw);
  }
}
