/** The records the services pass around (the API models of app/models/api) and the value
    constraints the initial schema migration puts on stored rows. */
module Models {
  import opened Wrappers

  /** An aware `datetime`, represented by the instant it denotes; comparisons
      of aware datetimes compare instants. */
  type Timestamp = int

  /** A UUID. Fresh identifiers come from the store (see Database.Db.FreshId). */
  type Id = nat

  /** `SendMessageRequest`: `attachments` may be null. */
  datatype SendMessageRequest = SendMessageRequest(
    fromAddress: string,
    toAddress: string,
    body: string,
    attachments: Option<seq<string>>,
    timestamp: Timestamp)

  /** `WebhookMessageRequest`, the canonical inbound message the normalisers
      produce. */
  datatype WebhookMessageRequest = WebhookMessageRequest(
    fromAddress: string,
    toAddress: string,
    body: string,
    attachments: seq<string>,
    providerMessageId: string,
    timestamp: Timestamp,
    providerType: string)

  /** `MessageResponse`. */
  datatype MessageResponse = MessageResponse(
    id: Id,
    conversationId: Id,
    providerType: string,
    providerMessageId: Option<string>,
    fromAddress: string,
    toAddress: string,
    body: string,
    attachments: seq<string>,
    direction: string,
    status: string,
    messageTimestamp: Timestamp,
    createdAt: Timestamp,
    updatedAt: Timestamp)

  /** `ConversationResponse`. */
  datatype ConversationResponse = ConversationResponse(
    id: Id,
    createdAt: Timestamp,
    updatedAt: Timestamp,
    participants: seq<string>,
    messageCount: nat,
    lastMessageTimestamp: Option<Timestamp>)

  /** `ParticipantResponse`. */
  datatype ParticipantResponse = ParticipantResponse(
    id: Id,
    conversationId: Id,
    address: string,
    addressType: string,
    createdAt: Timestamp)

  /** CHECK (provider_type IN ('sms', 'mms', 'email')). */
  predicate AllowedProviderType(t: string) {
    t == "sms" || t == "mms" || t == "email"
  }

  /** CHECK (direction IN ('inbound', 'outbound')). */
  predicate AllowedDirection(d: string) {
    d == "inbound" || d == "outbound"
  }

  /** CHECK (status IN ('pending', 'sent', 'delivered', 'failed')). */
  predicate AllowedStatus(s: string) {
    s == "pending" || s == "sent" || s == "delivered" || s == "failed"
  }

  /** CHECK (address_type IN ('phone', 'email')). */
  predicate AllowedAddressType(t: string) {
    t == "phone" || t == "email"
  }

  /** `"email" if "@" in address else "phone"`, the address classification
      every find-or-create uses. */
  function AddressType(address: string): (t: string)
    ensures AllowedAddressType(t)
    ensures t == "email" <==> '@' in address
  {
    if '@' in address then "email" else "phone"
  }
}
