# Messaging service — a Dafny model

This project models the core of a small messaging service in Dafny 4.11 and
proves properties of that model. The service sends SMS, MMS and email
through two provider APIs. It receives the providers' webhooks and keeps
conversations between participant addresses in a relational store.

The model covers these parts:

- **the bounded LRU cache** the mock providers store into (`LruCache`), as a
  class over a recency-ordered key sequence and a map, specified by
  functions on its state;
- **an in-memory store** (`Database`): a class holding the three tables
  (conversations, participants, messages). Its inserts enforce the schema's
  CHECK, primary-key, foreign-key and unique-membership constraints, and
  its `Valid()` keeps them as an invariant;
- **the three repositories** (`ConversationRepository`,
  `ParticipantRepository`, `MessageRepository`). This includes the lookup
  of a conversation by its participant list, which compares sorted lists;
- **the two webhook normalisers** (`SmsWebhook`, `EmailWebhook`, with the
  shared value model and checks in `Payloads`);
- **the two provider clients** (`ProviderClients`): payloads, requests,
  classification, id extraction and the two status tables;
- **the services**: conversation resolution (`ConversationResolver`),
  sending (`SendMessageService`), receiving (`ReceiveWebhooks`), listing
  conversations (`ListConversationsService`) and reading messages
  (`GetConversationMessagesService`);
- **the two mock providers** (`SmsProvider`, `EmailProvider`): counters,
  key and field checks, simulated errors, HTML-content selection, storage
  in the LRU cache, and the payloads they post back to the service.

Some inputs are parameters rather than effects:

- "now" is a `Timestamp` (an instant) or, in the providers, an ISO text;
- `datetime.fromisoformat` is a partial function `string -> Option<Timestamp>`;
- the provider post in `send_message` is a function from the request to the
  reply or the error it raised;
- the wall-clock seconds of the email provider's ids are a `nat`.

UUIDs are natural numbers drawn from the store (`Db.FreshId`).

## Model

| member | source | states |
|---|---|---|
| LruCache.LRUCache.constructor | providers/cache.py:7-9 | An empty cache with the given maximum size. |
| LruCache.LRUCache.Set | providers/cache.py:11-20 | The new state is `SetItem` of the old one; the cache stays well formed (distinct keys, keys equal to the entries, size at most the capacity). |
| LruCache.SetItemWellFormed | providers/cache.py:15-20 | After any insertion the keys are distinct, match the entries, and number at most `max(max_size, 0)`. |
| LruCache.SetExistingKeepsValue | providers/cache.py:12-14 | Setting a present key keeps the stored value (the new one is discarded), moves the key to the most recent end and keeps the size. |
| LruCache.SetNewKeyEvictsOldest | providers/cache.py:17-20 | A new key in a full cache removes exactly the oldest key; every other entry survives and the new key is last. |
| LruCache.SetNewKeyWithRoom | providers/cache.py:16-17 | A new key in a cache with room is appended with its value and nothing is evicted. |
| LruCache.SetItemEntries | providers/cache.py:11-20 | Every entry after a set is an old entry unchanged, or the new key with the new value. |
| LruCache.SetNewKeyStored | providers/cache.py:16-20 | With capacity at least one, a new key is stored with its value and is the most recent. |
| LruCache.ZeroCapacityStaysEmpty | providers/cache.py:17-20 | With `max_size == 0`, inserting into an empty cache leaves it empty. |
| LruCache.LRUCache.Get | providers/cache.py:22-27 | The result and the new state are those of `GetItem` on the old state. |
| LruCache.GetItemEffect | providers/cache.py:22-27 | An absent key gives `KeyError` and changes nothing. A present key gives its value, becomes the most recent, and the other keys keep their relative order. |
| LruCache.LRUCache.Contains | providers/cache.py:29-30 | Membership is a read of the entries only: true exactly for a key in the order. |
| LruCache.LRUCache.Keys | providers/cache.py:32-33 | Every cached key once, in recency order, no more than the capacity. |
| LruCache.LRUCache.Values | providers/cache.py:35-36 | The stored values in the same order as the keys. |
| Database.Db.constructor | migrations/versions/0d22580b00df_create_initial_schema.py:34-68 | An empty store satisfies the schema's constraints. |
| Database.Db.FreshId | app/repositories/conversation_repository.py:88 | The id a `uuid4()` stands for differs from every stored row's id. |
| Database.Db.InsertConversation | migrations/versions/0d22580b00df_create_initial_schema.py:35-39 | A duplicate id is a primary-key violation that changes nothing; otherwise the row is appended. |
| Database.Db.InsertParticipant | migrations/versions/0d22580b00df_create_initial_schema.py:61-67 | The address-type CHECK, the primary key, the unique `(conversation_id, address)` index (line 77) and the foreign key decide failure, in that order; success appends the row. |
| Database.Db.InsertMessage | migrations/versions/0d22580b00df_create_initial_schema.py:43-57 | The direction, provider-type and status CHECKs, the primary key and the foreign key decide failure, in that order; success appends the row. |
| Database.Db.UpdateMessage | migrations/versions/0d22580b00df_create_initial_schema.py:43-57 | Replacing a message row succeeds exactly when the new row meets the message constraints, and changes only that row. |
| Database.AddressesOf | app/repositories/conversation_repository.py:177 | A conversation's participant addresses, in stored order: exactly the addresses of its participant rows. |
| Database.MessagesOf | app/repositories/conversation_repository.py:178 | A conversation's messages: exactly the stored messages with its id. |
| Database.AddressesOfDistinct | migrations/versions/0d22580b00df_create_initial_schema.py:77 | Under the unique index, a conversation lists each address at most once. |
| ConversationRepository.LastTimestamp | app/repositories/conversation_repository.py:179-186 | None for no messages; otherwise the timestamp of some message that no other message exceeds. |
| ConversationRepository.ToResponse | app/repositories/conversation_repository.py:175-195 | The view copies id and times, lists the addresses in stored order, counts the messages and gives the latest message timestamp, None exactly when there are no messages. |
| ConversationRepository.SortedEqualIffMatches | app/repositories/conversation_repository.py:57 | Equal sorted lists are exactly equal multisets: the match is order-insensitive and duplicate-sensitive. |
| ConversationRepository.MatchContainsQuery | app/repositories/conversation_repository.py:76-81 | A matching conversation holds every queried address. |
| ConversationRepository.FirstMatch | app/repositories/conversation_repository.py:61-83 | Some stored matching conversation, or None exactly when no stored conversation matches. |
| ConversationRepository.LookupFinds | app/repositories/conversation_repository.py:52-83 | The lookup returns the view of a matching stored conversation; it returns None exactly for an empty query or when nothing matches. |
| ConversationRepository.MissingAddressNoMatch | app/repositories/conversation_repository.py:61-80 | A conversation lacking a queried address never matches. |
| ConversationRepository.NoMatchAnywhere | app/repositories/conversation_repository.py:61-83 | Scanning only the conversations holding the smallest address finds every match there is. |
| ConversationRepository.GetByParticipants | app/repositories/conversation_repository.py:52-83 | The nested search loop returns exactly what `Lookup` specifies. |
| ConversationRepository.ScanFor | app/repositories/conversation_repository.py:75-81 | One pass over the conversations holding a sorted address: what it returns is the lookup's answer, and when it returns nothing no conversation matches the query. |
| ConversationRepository.RepeatedAddressNeverMatches | app/repositories/conversation_repository.py:57 | In a consistent store no conversation matches `[a, a]`. |
| ConversationRepository.LookupIgnoresOrder | app/repositories/conversation_repository.py:57 | Queries with the same multiset of addresses find the same conversation. |
| ConversationRepository.FirstMatchSameMatches | app/repositories/conversation_repository.py:57 | Queries with equal sorted forms have the same first match. |
| ConversationRepository.CreateEmpty | app/repositories/conversation_repository.py:85-96 | Exactly one conversation with a fresh id and both times `now` is appended; it has no participants and no messages, and nothing else changes. |
| ConversationRepository.FindConversation | app/repositories/base_repository.py:21-28 | The stored row with the id, or None exactly when there is none. |
| ConversationRepository.GetById | app/repositories/conversation_repository.py:21-33 | None for an unknown id; otherwise the view of the stored conversation with that id. |
| ConversationRepository.WithParticipant | app/repositories/conversation_repository.py:156-159 | Exactly the stored conversations having the address among their participants. |
| ConversationRepository.Page | app/repositories/conversation_repository.py:165-168 | `offset` entries skipped, at most `limit` kept, in order. |
| ConversationRepository.Responses | app/repositories/conversation_repository.py:173 | One view per row, in order. |
| ConversationRepository.Selected | app/repositories/conversation_repository.py:156-162 | The filtered conversations (all of them with no or an empty filter) as a permutation, newest first. |
| ConversationRepository.ListConversations | app/repositories/conversation_repository.py:140-173 | At most `limit` views, newest first, each of a stored conversation holding the filter address; the length is what the offset leaves. |
| ConversationRepository.ListedFromStore | app/repositories/conversation_repository.py:155-162 | A selected conversation is stored and, under a filter, holds the address. |
| ConversationRepository.ListAll | app/repositories/conversation_repository.py:140-173 | Without filter, limit or offset every stored conversation is listed. |
| ParticipantRepository.FindPair | app/repositories/participant_repository.py:43-48 | A stored participant of the conversation with the address, or None exactly when there is none. |
| ParticipantRepository.UniquePairCount | migrations/versions/0d22580b00df_create_initial_schema.py:77 | Under the unique index a pair occurs at most once. |
| ParticipantRepository.AddParticipant | app/repositories/participant_repository.py:38-62 | An existing pair is returned and nothing is created. Otherwise exactly one participant with the address and type is appended. Afterwards the pair occurs exactly once. |
| ParticipantRepository.GetByConversation | app/repositories/participant_repository.py:20-29 | Exactly the participants of the conversation. |
| ParticipantRepository.GetByConversationAddresses | app/repositories/participant_repository.py:20-29 | Their addresses are the conversation view's participant list. |
| ParticipantRepository.GetByAddress | app/repositories/participant_repository.py:31-36 | Exactly the participants with the address, across conversations. |
| ParticipantRepository.GetByAddressOncePerConversation | app/repositories/participant_repository.py:31-36 | Under the unique index those participants belong to distinct conversations. |
| MessageRepository.ResponseRoundTrip | app/repositories/message_repository.py:64-98 | Converting a view to a row and back is the identity. |
| MessageRepository.RowRoundTrip | app/repositories/message_repository.py:74 | A row survives the round trip exactly when its attachments are not null; null becomes `[]`. |
| MessageRepository.Views | app/repositories/message_repository.py:27 | One view per row, in order. |
| MessageRepository.Create | app/repositories/base_repository.py:30-36 | The insert succeeds exactly under the message constraints and appends the row; a status outside the CHECK fails with a CHECK violation and stores nothing. |
| MessageRepository.GetById | app/repositories/base_repository.py:21-28 | None for an unknown id; otherwise the view of the stored message with that id. |
| MessageRepository.StatusUpdated | app/repositories/message_repository.py:55-60 | Only the status changes, apart from null attachments becoming `[]` and the update time. |
| MessageRepository.UpdateStatus | app/repositories/message_repository.py:47-62 | An unknown id gives None and changes nothing. A known id rewrites that one message with the new status; every other message is unchanged. |
| MessageRepository.UpdatedStatusReadsBack | app/repositories/message_repository.py:47-62 | After an update, reading the id gives the new status and every other field as before. |
| MessageRepository.GetByStatus | app/repositories/message_repository.py:40-45 | Exactly the messages with that status. |
| MessageRepository.ViewOfSameElements | app/repositories/message_repository.py:18-27 | Reordering rows does not change which views a listing holds. |
| MessageRepository.GetByConversation | app/repositories/message_repository.py:18-27 | Exactly the conversation's messages, oldest first. |
| Models.AddressType | app/services/send_message_service.py:124 | "email" exactly when the address contains '@', else "phone"; always an allowed type. |
| Payloads.PyStr | app/services/receive_sms_mms_webhook_service.py:77 | `str()` of a value: text as is, a number or boolean as its non-empty rendering, null as "None", a list as non-empty text; empty exactly for the empty text. |
| Payloads.Get | app/services/receive_sms_mms_webhook_service.py:82 | `dict.get`: the value, or null when absent. |
| Payloads.GetText | app/services/receive_sms_mms_webhook_service.py:77-80 | `str(d.get(k, ""))`: empty exactly for an absent key or an empty text; `str()` of a number, a boolean, `None` or a list is never empty. |
| Payloads.GetListOrEmpty | app/services/receive_sms_mms_webhook_service.py:81 | `d.get(k, []) or []`: a truthy value as is, otherwise the empty list. |
| Payloads.AttachmentsList | app/services/receive_sms_mms_webhook_service.py:132 | The attachments are accepted exactly when they are a list. |
| Payloads.ParseTimestamp | app/services/receive_sms_mms_webhook_service.py:119-126 | A falsy timestamp gives now. A text has every 'Z' rewritten to "+00:00" and is then parsed, failing with the invalid-timestamp error. |
| Payloads.TimestampWithoutZ | app/services/receive_sms_mms_webhook_service.py:122 | A text without 'Z' is parsed unchanged. |
| Payloads.RequiredText | app/services/receive_sms_mms_webhook_service.py:105 | The body passes only as non-empty text. |
| Payloads.RequiredChecks | app/services/receive_sms_mms_webhook_service.py:101-110 | The presence checks in their fixed order: from, to, body, provider id and, for SMS, provider type. |
| Payloads.CheckRequired | app/services/receive_sms_mms_webhook_service.py:101-110 | Fails naming the first failing field; succeeds with the body when all pass. |
| Payloads.Finish | app/services/receive_sms_mms_webhook_service.py:119-136 | Timestamp errors come first, then non-list attachments; otherwise the request carries the fields. |
| SmsWebhook.ValidateWebhookPayload | app/services/receive_sms_mms_webhook_service.py:61-136 | Non-dict payloads and unknown shapes fail with their errors. Presence is checked before the provider type. Success means the unified or provider fields, a type of sms/mms, and the parsed timestamp. |
| SmsWebhook.UnifiedShapeIgnoresOtherKeys | app/services/receive_sms_mms_webhook_service.py:75-83 | With "from" present, keys outside the unified shape (such as "From") change nothing. |
| SmsWebhook.UnifiedDefaults | app/services/receive_sms_mms_webhook_service.py:75-83 | A unified payload without attachments or timestamp gives `[]` and now. |
| SmsWebhook.ProviderShapeWithMedia | app/services/receive_sms_mms_webhook_service.py:85-95 | The provider shape with media is MMS and carries the media. |
| SmsWebhook.NullFromIsText | app/services/receive_sms_mms_webhook_service.py:77 | A null sender is stringified to "None" and passes the presence check. |
| EmailWebhook.ProviderBody | app/services/receive_email_webhook_service.py:85-90 | The HTML content when truthy, else the content. A non-empty subject is prefixed as "Subject: …" and a blank line. |
| EmailWebhook.CheckAddresses | app/services/receive_email_webhook_service.py:115-118 | Both addresses must contain '@'; the sender is checked first. |
| EmailWebhook.ValidateWebhookPayload | app/services/receive_email_webhook_service.py:61-138 | "from_email" wins over "from". The presence checks come in order, then the '@' checks. Success gives type "email" and no attachments for the provider shape. |
| EmailWebhook.SubjectAloneIsABody | app/services/receive_email_webhook_service.py:88-90 | A subject alone satisfies the body check. |
| EmailWebhook.HtmlPreferred | app/services/receive_email_webhook_service.py:85-86 | Non-empty HTML wins over the plain content. |
| EmailWebhook.NonTextHtmlRejected | app/services/receive_email_webhook_service.py:80-86 | A non-text HTML value becomes the body unstringified and fails the body check. |
| EmailWebhook.PhoneSenderRejected | app/services/receive_email_webhook_service.py:115-116 | A sender without '@' fails the address check after the presence checks pass. |
| ProviderClients.SmsPayload | app/clients/sms_provider_client.py:19-24 | From/To/Body copied; MediaUrl is the attachments, or `[]` when null. |
| ProviderClients.EmailPayload | app/clients/email_provider_client.py:19-24 | The payload has one personalization to the recipient, the sender, subject "Message", and one text/plain content holding the body. |
| ProviderClients.SendRequest | app/clients/sms_provider_client.py:26-35 | The target is `/messages` or `/mail/send` under the base URL, with a JSON content type and a bearer header. |
| ProviderClients.EmailIgnoresAttachments | app/clients/email_provider_client.py:26-31 | The email request does not depend on the attachments. |
| ProviderClients.GetProviderType | app/clients/sms_provider_client.py:40-42 | "email" for the email client. For the SMS client, "mms" exactly with non-empty attachments. |
| ProviderClients.ExtractMessageId | app/clients/sms_provider_client.py:44-46 | `str()` of "sid" or "message_id", or "" when absent. |
| ProviderClients.StatusTable | app/clients/sms_provider_client.py:53-60 | Each table maps only to statuses the schema allows. |
| ProviderClients.ExtractStatus | app/clients/sms_provider_client.py:48-62 | The table's status for a known raw status, else "unknown"; allowed by the schema exactly when known. |
| ProviderClients.SmsStatusMapping | app/clients/sms_provider_client.py:53-62 | queued/sending→pending, sent→sent, delivered→delivered, undelivered/failed→failed, anything else→unknown. |
| ProviderClients.EmailStatusMapping | app/clients/email_provider_client.py:55-70 | pending/deferred→pending, processed→sent, delivered→delivered, dropped/bounce/blocked→failed, anything else→unknown. |
| ProviderClients.EmailSentQueuedUnknown | app/clients/email_provider_client.py:60-70 | "sent", "queued" and a missing status read as "unknown", which the status CHECK rejects. |
| ConversationResolver.Dedup | app/repositories/participant_repository.py:50-51 | What the idempotent adds leave: the same addresses, each once, in first-seen order. |
| ConversationResolver.DedupDistinct | app/repositories/participant_repository.py:50-51 | Distinct addresses are kept as they are. |
| ConversationResolver.AddParticipants | app/services/send_message_service.py:122-129 | The loop gives the new conversation exactly `Dedup(participants)`, typed by '@', and leaves every other conversation's participants alone. |
| ConversationResolver.AddOne | app/services/send_message_service.py:123-129 | One `add_participant` call extends the new conversation's list by the address exactly when it is new, and leaves every other conversation's list alone. |
| ConversationResolver.FindOrCreateConversation | app/services/send_message_service.py:111-131 | An existing match is returned and nothing changes. Otherwise one conversation is appended whose participants are `Dedup(participants)`. |
| ConversationResolver.CreatedIsFound | app/services/send_message_service.py:111-131 | For distinct addresses, a conversation created by the resolver is what the next lookup returns. |
| ConversationResolver.SelfConversationNotFound | app/repositories/conversation_repository.py:76-81 | A lookup of `[a, a]` never finds anything, so every send to oneself creates another conversation. |
| SendMessageService.ProviderFor | app/services/send_message_service.py:96-109 | The email client exactly when the recipient contains '@'; the SMS client otherwise. |
| SendMessageService.ProviderErrorBranch | app/services/send_message_service.py:133-143 | 429, then ≥ 500, then anything else; each branch only passes. |
| SendMessageService.SendMessage | app/services/send_message_service.py:25-94 | Resolution happens before the send and stays. A raised error is re-raised and nothing is stored. Otherwise the outbound record is stored and echoed, unless its status is "unknown": then the insert fails and nothing is stored. |
| SendMessageService.EmailSentReplyStoresNothing | app/clients/email_provider_client.py:60-70 | An email send answered "sent" or "queued" cannot be stored. |
| ReceiveWebhooks.Validate | app/services/receive_sms_mms_webhook_service.py:32 | The channel's normaliser; success has an allowed type matching the channel and non-empty addresses. |
| ReceiveWebhooks.ProcessWebhookAsWritten | app/services/receive_sms_mms_webhook_service.py:22-59 | An invalid payload fails unchanged. A valid one resolves its conversation and then fails on the missing repository method, storing no message. |
| ReceiveWebhooks.AsWrittenRejectsValidSms | app/services/receive_sms_mms_webhook_service.py:40-42 | A concrete valid SMS webhook reaches the missing call. |
| ReceiveWebhooks.CreateInboundMessage | app/services/receive_sms_mms_webhook_service.py:40-42 | The request is stored as a delivered inbound message; this fails only for an unknown conversation or type. |
| ReceiveWebhooks.ProcessWebhook | app/services/receive_email_webhook_service.py:22-59 | A valid webhook is stored once in the conversation of its two addresses, and the record echoes the request. |
| ListConversationsService.ListConversations | app/services/list_conversations_service.py:29-42 | The limit check comes before the offset check, with the exact messages. Defaults are 50 and 0. Otherwise the repository's page is returned, with at most `limit ≤ 1000` entries. |
| ListConversationsService.SmallStoreListedWhole | app/services/list_conversations_service.py:36-42 | With at most 50 conversations the default page lists each of them. |
| ListConversationsService.NotFoundMessage | app/services/list_conversations_service.py:53 | The message starts "Conversation with ID ". |
| ListConversationsService.GetConversationSummary | app/services/list_conversations_service.py:47-54 | Fails exactly for an unknown id, with the message naming it. |
| ListConversationsService.NotFoundMessagesDiffer | app/services/list_conversations_service.py:53 | Different ids give different messages. |
| GetConversationMessagesService.CheckParameters | app/services/get_conversation_messages_service.py:34-45 | The three 400 errors for limit, offset and direction, in that order. |
| GetConversationMessagesService.GetConversationMessagesAsWritten | app/services/get_conversation_messages_service.py:20-62 | Always fails: a parameter error, then 404, then the missing repository method. |
| GetConversationMessagesService.WithDirection | app/services/get_conversation_messages_service.py:57-61 | Exactly the messages of the direction, as a subsequence of the input, so in their order. |
| GetConversationMessagesService.WithDirectionOldestFirst | app/services/get_conversation_messages_service.py:57-61 | Filtering keeps oldest-first order. |
| GetConversationMessagesService.MessagesPage | app/services/get_conversation_messages_service.py:57-62 | At most `limit` stored messages of the conversation and direction, oldest first, all of them when the offset is 0 and they fit. |
| GetConversationMessagesService.GetConversationMessages | app/services/get_conversation_messages_service.py:20-62 | The checks, then 404, then that page with defaults 100 and 0. |
| GetConversationMessagesService.AsWrittenDiffersOnlyAtTheQuery | app/services/get_conversation_messages_service.py:51-62 | The two versions agree on every error and differ only where the missing method is called. |
| GetConversationMessagesService.GetMessageDetails | app/services/get_conversation_messages_service.py:67-72 | 404 "Message not found" exactly for an unknown id; otherwise that message. |
| SmsProvider.Sid | providers/sms_provider.py:59-63 | "MM" followed by 32 or more digits whose value is the counter. |
| SmsProvider.SidsDistinct | providers/sms_provider.py:59-63 | Distinct counter values give distinct SIDs. |
| SmsProvider.DetermineMessageType | providers/sms_provider.py:66-70 | "mms" exactly for a non-null, non-empty media list. |
| SmsProvider.SameTypeAsClient | providers/sms_provider.py:66-70 | The provider classifies a request as the service's SMS client does. |
| SmsProvider.ReplyFields | providers/sms_provider.py:121-132 | The reply carries the SID and the status. |
| SmsProvider.ClientReadsDelivered | providers/sms_provider.py:126 | The SMS client reads a delivered reply as delivered, with the SID as id. |
| SmsProvider.Provider.constructor | providers/sms_provider.py:28-29 | Counter 0 and an empty cache of the configured size. |
| SmsProvider.Provider.GenerateMessageSid | providers/sms_provider.py:59-63 | The counter goes up by one and names a SID no stored message has. |
| SmsProvider.Provider.SendMessage | providers/sms_provider.py:95-146 | "429" or "500" fails before anything changes. Otherwise a new SID is taken, the record is "delivered" with `date_sent` set, and it is stored under its SID as the most recent. |
| SmsProvider.Provider.StoreNew | providers/sms_provider.py:114-136 | Past the simulated errors: the counter goes up by one, and the delivered record under the new SID becomes the cache's most recent entry. |
| SmsProvider.Provider.GetMessage | providers/sms_provider.py:169-179 | An unknown SID is 404 with the cache untouched; a known one is read through the cache, which touches it. |
| SmsProvider.SimulatedPayload | providers/sms_provider.py:187-195 | The unified payload has the type from the media, the SID as provider id, the media as attachments, and the given timestamp or now. |
| SmsProvider.SimulatedPayloadAccepted | providers/sms_provider.py:183-198 | The service's SMS normaliser accepts that payload when its fields are non-empty and the timestamp parses. |
| EmailProvider.HasMember | providers/email_provider.py:116-121 | `key in body` is a key test on an object and an element test on a list; on null it is a TypeError. |
| EmailProvider.Member | providers/email_provider.py:158-166 | Indexing by key succeeds exactly on an object holding the key. |
| EmailProvider.First | providers/email_provider.py:158-161 | `[0]` gives a list's first item or a text's first character. |
| EmailProvider.MissingRequired | providers/email_provider.py:116-124 | True exactly when one of the four keys is missing; on an object this is a key test. |
| EmailProvider.FirstHtml | providers/email_provider.py:162-166 | The value of the first item typed text/html; None when every item has another type; an error at the first item lacking a type, or HTML lacking a value. |
| EmailProvider.ExtractFields | providers/email_provider.py:158-161 | On success the body is an object with the four keys; the subject, the from email and the first content value are read from it. |
| EmailProvider.FindHtmlContent | providers/email_provider.py:163-166 | The loop returns exactly `FirstHtml`. |
| EmailProvider.ReplyFields | providers/email_provider.py:198 | The reply carries the message id and the status. |
| EmailProvider.ClientReadsDelivered | providers/email_provider.py:169-171 | The email client reads the provider's "delivered" reply as delivered, with the message id. |
| EmailProvider.MessageId | providers/email_provider.py:67 | "msg_", the counter's digits, then '_'. |
| EmailProvider.MessageIdsDistinct | providers/email_provider.py:63-67 | Distinct counter values give distinct ids, whatever the clock. |
| EmailProvider.ClientRequestAccepted | providers/email_provider.py:99-166 | The service's email request passes the key and field checks and reads back its recipient, sender, subject, body and no HTML. |
| EmailProvider.Provider.constructor | providers/email_provider.py:21-30 | Counter 0, the configured non-empty key and an empty cache. |
| EmailProvider.Provider.GenerateMessageId | providers/email_provider.py:63-67 | The counter goes up by one and names an id no stored email has. |
| EmailProvider.Provider.SendEmail | providers/email_provider.py:91-198 | The errors come in order: 401 key, 400 JSON, 400 fields, then 429/500 simulated; none of them changes anything. A body of the wrong shape then fails with 500 after the counter moved. Otherwise the email is stored "delivered" under its new id. |
| EmailProvider.Provider.GetEmail | providers/email_provider.py:237-247 | An unknown id is 404 "Email not found" with the cache untouched; a known one is read through the cache. |
| EmailProvider.IncomingBody | providers/email_provider.py:228 | Non-empty HTML, else the content. |
| EmailProvider.SimulatedPayload | providers/email_provider.py:224-231 | The unified payload has `xillio_id`, the chosen body, no attachments, and the given timestamp or now. |
| EmailProvider.SimulatedPayloadAccepted | providers/email_provider.py:219-234 | The service's email normaliser accepts that payload when the addresses have '@', the body and id are non-empty and the timestamp parses. |

## Left out

- HTTP transport is not modelled: the clients' posts, the providers' webhook posts, `raise_for_status`, and FastAPI's routing and error mapping. The post in `send_message` is a parameter.
- Randomness is not modelled: the providers' random reply simulation and its delays.
- `datetime.now` and `time.time()` are parameters. Where the source reads the clock twice in one call, the model uses one value.
- UUIDs are natural numbers from the store. Ids are written in decimal where a message names them.
- Column lengths (`VARCHAR(n)`) are not modelled, and neither is the `updated_at` trigger. Cascading deletes are not modelled because no core operation deletes.
- Numbers, booleans and nested objects inside webhook payloads are reduced to their `str()` text or truthiness. The email provider's JSON has no numbers or booleans.
- The `isinstance(…, str)` checks in the normalisers always hold on stringified values. The `isinstance(email_data, dict)` checks in the providers always hold on stored records.
- The providers' error bodies are reduced to their message text. Environment configuration is left out: URLs, keys and cache sizes are parameters.
- Concurrency is not modelled: requests run one at a time, so the find-or-create race does not arise.
- `BaseProviderClient` is a datatype with one constructor per client, because traits are not used.
- `MessageRepository.get_by_provider_message_id`, `BaseRepository.update`/`delete`/`get_all`, `ConversationRepository.get_all`/`create`/`get_with_messages` and the `/health` and `/emails` endpoints are not part of this model.
- Text.ListRepr: puts every item in single quotes and escapes nothing. Python's `repr` uses double quotes for an item that holds a single quote, and escapes backslashes and control characters. Only the facts that the text is non-empty and starts with '[' are relied on.
- GetConversationMessagesService.MessagesPage: takes `get_by_conversation`'s oldest-first order as the intended order of the missing query.

## Findings

| source | as written | input that shows it | evidently intended | confidence | as-written member | corrected member |
|---|---|---|---|---|---|---|
| app/services/receive_sms_mms_webhook_service.py:40-42 (and app/services/receive_email_webhook_service.py:40-42) | `process_webhook` calls `message_repo.create_inbound_message`, which `MessageRepository` does not define, so every valid webhook raises after its conversation was committed | the unified SMS payload from "+15550001" to "+15550002" with body "hi", id "m1" and type "sms" | store the request as a delivered inbound message of the resolved conversation | high, not executed | ReceiveWebhooks.ProcessWebhookAsWritten, ReceiveWebhooks.AsWrittenRejectsValidSms | ReceiveWebhooks.ProcessWebhook, ReceiveWebhooks.CreateInboundMessage |
| app/services/get_conversation_messages_service.py:57-62 | `get_conversation_messages` calls `message_repo.get_by_conversation_id`, which `MessageRepository` does not define, so the service never returns messages | any valid limit, offset and direction for a stored conversation | the page of the conversation's messages of that direction, oldest first | high, not executed | GetConversationMessagesService.GetConversationMessagesAsWritten | GetConversationMessagesService.GetConversationMessages, GetConversationMessagesService.MessagesPage |
