/** The mock Twilio-like provider of providers/sms_provider.py, above its
    HTTP layer: the SID counter, the send endpoint with its simulated
    errors, the LRU store of sent messages, the lookup endpoint, and the
    unified payload the simulate-incoming endpoint posts to the messaging
    service. The post itself and the random reply are not modelled. */
module SmsProvider {
  import opened Wrappers
  import opened Models
  import opened Text
  import opened Payloads
  import opened LruCache
  import opened Http
  import ProviderClients
  import SmsWebhook

  /** The body of `POST /messages`. */
  datatype MessageRequest = MessageRequest(from: string, to: string, body: string, mediaUrl: Option<seq<string>>)

  /** The provider's `MessageResponse`, stored and returned as is. */
  datatype SmsRecord = SmsRecord(
    sid: string, from: string, to: string, body: string, status: string,
    dateCreated: string, dateSent: Option<string>, mediaUrls: Option<seq<string>>)

  /** `"MM" + str(n).zfill(32)`. */
  function Sid(n: nat): (s: string)
    ensures |s| >= 34 && s[..2] == "MM" && AllDigits(s[2..])
    ensures DecimalValue(s[2..]) == n
  {
    var digits := ZFill(NatToDecimal(n), 32);
    ZFillValue(NatToDecimal(n), 32);
    var s := "MM" + digits;
    assert s[2..] == digits;
    s
  }

  /** The text has the shape of a SID. */
  predicate IsSid(s: string) {
    |s| >= 2 && s[..2] == "MM" && AllDigits(s[2..])
  }

  /** The counter value a SID was made from. */
  function SidNumber(s: string): nat
    requires IsSid(s)
  {
    DecimalValue(s[2..])
  }

  /** Successive counter values give distinct SIDs. */
  lemma SidsDistinct(a: nat, b: nat)
    requires a != b
    ensures Sid(a) != Sid(b)
  {
  }

  /** `determine_message_type`: "mms" exactly for a non-null, non-empty
      media list. */
  function DetermineMessageType(mediaUrls: Option<seq<string>>): (t: string)
    ensures t in {"sms", "mms"}
    ensures t == "mms" <==> mediaUrls.Some? && mediaUrls.value != []
  {
    if mediaUrls.Some? && mediaUrls.value != [] then "mms" else "sms"
  }

  /** The provider classifies a message as the messaging service's SMS
      client does for the request it came from. */
  lemma SameTypeAsClient(req: SendMessageRequest, url: string, key: string)
    ensures DetermineMessageType(req.attachments) == ProviderClients.GetProviderType(ProviderClients.SmsClient(url, key), req)
  {
  }

  /** The record as the JSON reply the SMS client decodes. */
  function ReplyFields(r: SmsRecord): (d: map<string, Value>)
    ensures "sid" in d && d["sid"] == Str(r.sid)
    ensures "status" in d && d["status"] == Str(r.status)
  {
    map[
      "sid" := Str(r.sid), "from_" := Str(r.from), "to" := Str(r.to), "body" := Str(r.body),
      "status" := Str(r.status), "date_created" := Str(r.dateCreated),
      "date_sent" := (if r.dateSent.Some? then Str(r.dateSent.value) else Null),
      "media_urls" := (if r.mediaUrls.Some? then List(r.mediaUrls.value) else Null)]
  }

  /** The SMS client reads a successful reply of this provider as a
      delivered message whose provider id is the SID. */
  lemma ClientReadsDelivered(r: SmsRecord, url: string, key: string)
    requires r.status == "delivered"
    ensures ProviderClients.ExtractStatus(ProviderClients.SmsClient(url, key), ReplyFields(r)) == "delivered"
    ensures ProviderClients.ExtractMessageId(ProviderClients.SmsClient(url, key), ReplyFields(r)) == r.sid
  {
    ProviderClients.SmsStatusMapping(ReplyFields(r));
  }

  /** The provider process: the global `message_counter` and the
      `messages` cache of size `CACHE_SIZE`. */
  class Provider {
    var counter: nat
    const messages: LRUCache<SmsRecord>

    /** The cache is well formed and holds only records stored under their
        own SID, each made from a counter value already used. */
    ghost predicate Valid()
      reads this, messages
    {
      && messages.Valid()
      && forall k :: k in messages.entries ==>
           IsSid(k) && SidNumber(k) <= counter && messages.entries[k].sid == k
    }

    constructor (cacheSize: int)
      ensures Valid()
      ensures counter == 0 && messages.State() == CacheState([], map[], cacheSize)
      ensures fresh(messages)
    {
      counter := 0;
      messages := new LRUCache(cacheSize);
    }

    /** `generate_message_sid`: the counter goes up by one and names the
        new SID. */
    method GenerateMessageSid() returns (sid: string)
      requires Valid()
      modifies this
      ensures Valid()
      ensures counter == old(counter) + 1 && sid == Sid(counter)
      ensures sid !in messages.entries
    {
      counter := counter + 1;
      sid := Sid(counter);
    }

    /** `POST /messages`. A `simulate_error` of "429" or "500" fails before
        anything changes; any other value is ignored. A send takes a new
        SID, answers "delivered" with `date_sent` set, and stores the record
        in the cache under its SID. */
    method SendMessage(msg: MessageRequest, simulateError: Option<string>, now: string)
      returns (r: Result<SmsRecord, HttpException>)
      requires Valid()
      modifies this, messages
      ensures Valid()
      ensures simulateError == Some("429") ==>
        r == Failure(HttpException(429, "Too Many Requests - Rate limit exceeded"))
      ensures simulateError == Some("500") ==>
        r == Failure(HttpException(500, "Internal Server Error - Provider temporarily unavailable"))
      ensures r.Success? <==> simulateError != Some("429") && simulateError != Some("500")
      ensures r.Failure? ==> counter == old(counter) && messages.State() == old(messages.State())
      ensures r.Success? ==>
        && counter == old(counter) + 1
        && r.value == SmsRecord(Sid(counter), msg.from, msg.to, msg.body, "delivered", now, Some(now), msg.mediaUrl)
        && r.value.sid !in old(messages.entries)
        && messages.State() == SetItem(old(messages.State()), r.value.sid, r.value)
      ensures r.Success? && messages.maxSize >= 1 ==>
        && r.value.sid in messages.entries && messages.entries[r.value.sid] == r.value
        && messages.order[|messages.order| - 1] == r.value.sid
    {
      if simulateError.Some? && simulateError.value != "" {
        if simulateError.value == "429" {
          return Failure(HttpException(429, "Too Many Requests - Rate limit exceeded"));
        } else if simulateError.value == "500" {
          return Failure(HttpException(500, "Internal Server Error - Provider temporarily unavailable"));
        }
      }
      var record := StoreNew(msg, now);
      r := Success(record);
    }

    /** The part of a send past the simulated errors: a new SID, and the
        delivered record stored under it as the most recent entry. */
    method StoreNew(msg: MessageRequest, now: string) returns (record: SmsRecord)
      requires Valid()
      modifies this, messages
      ensures Valid()
      ensures counter == old(counter) + 1
      ensures record == SmsRecord(Sid(counter), msg.from, msg.to, msg.body, "delivered", now, Some(now), msg.mediaUrl)
      ensures record.sid !in old(messages.entries)
      ensures messages.State() == SetItem(old(messages.State()), record.sid, record)
      ensures messages.maxSize >= 1 ==>
        && record.sid in messages.entries && messages.entries[record.sid] == record
        && messages.order[|messages.order| - 1] == record.sid
    {
      var sid := GenerateMessageSid();
      record := SmsRecord(sid, msg.from, msg.to, msg.body, "delivered", now, Some(now), msg.mediaUrl);
      ghost var before := messages.State();
      SetItemEntries(before, sid, record);
      if messages.maxSize >= 1 {
        SetNewKeyStored(before, sid, record);
      }
      messages.Set(sid, record);
    }

    /** `GET /messages/{sid}`: 404 for an unknown SID, decided by a
        membership test that leaves the recency order alone; otherwise a
        cache read, which makes the SID the most recent. */
    method GetMessage(sid: string) returns (r: Result<SmsRecord, HttpException>)
      requires Valid()
      modifies messages
      ensures Valid()
      ensures sid !in old(messages.entries) ==>
        r == Failure(HttpException(404, "Message not found")) && messages.State() == old(messages.State())
      ensures sid in old(messages.entries) ==>
        && r == Success(old(messages.entries)[sid])
        && r.value.sid == sid
        && messages.State() == GetItem(old(messages.State()), sid).1
    {
      if !messages.Contains(sid) {
        return Failure(HttpException(404, "Message not found"));
      }
      var got := messages.Get(sid);
      r := Success(got.value);
    }
  }

  /** The body of `POST /simulate/incoming`. */
  datatype IncomingWebhookPayload = IncomingWebhookPayload(
    from: string, to: string, body: string, messageSid: string,
    mediaUrl: Option<seq<string>>, timestamp: Option<string>)

  /** The unified payload the simulate-incoming endpoint posts: the
      addresses and text copied over, the type from the media, the SID as
      provider id, the media as attachments, and the given timestamp or the
      current time. */
  function SimulatedPayload(p: IncomingWebhookPayload, now: string): (d: map<string, Value>)
    ensures d.Keys == {"from", "to", "type", "messaging_provider_id", "body", "attachments", "timestamp"}
    ensures d["type"] == Str(DetermineMessageType(p.mediaUrl))
    ensures d["messaging_provider_id"] == Str(p.messageSid)
    ensures d["attachments"] == if p.mediaUrl.Some? then List(p.mediaUrl.value) else Null
    ensures p.timestamp.Some? && p.timestamp.value != "" ==> d["timestamp"] == Str(p.timestamp.value)
    ensures !(p.timestamp.Some? && p.timestamp.value != "") ==> d["timestamp"] == Str(now)
  {
    map[
      "from" := Str(p.from), "to" := Str(p.to),
      "type" := Str(DetermineMessageType(p.mediaUrl)),
      "messaging_provider_id" := Str(p.messageSid),
      "body" := Str(p.body),
      "attachments" := (if p.mediaUrl.Some? then List(p.mediaUrl.value) else Null),
      "timestamp" := Str(if p.timestamp.Some? && p.timestamp.value != "" then p.timestamp.value else now)]
  }

  /** The SMS normaliser reads the simulated payload in the unified shape,
      field for field; a null media list becomes no attachments. */
  lemma SimulatedFields(p: IncomingWebhookPayload, now: string)
    ensures var stamp := if p.timestamp.Some? && p.timestamp.value != "" then p.timestamp.value else now;
      SmsWebhook.Fields(SimulatedPayload(p, now))
        == Success(Extracted(p.from, p.to, Str(p.body), p.messageSid, List(p.mediaUrl.GetOr([])), Str(stamp),
                             DetermineMessageType(p.mediaUrl)))
  {
    var d := SimulatedPayload(p, now);
    assert "from" in d;
    assert GetListOrEmpty(d, "attachments") == List(p.mediaUrl.GetOr([]));
  }

  /** The messaging service's SMS normaliser accepts what the simulator
      posts, whenever the addresses, body and SID are non-empty and the
      timestamp parses: the request carries them, the media (none for a
      null list) and the type the simulator chose. */
  lemma SimulatedPayloadAccepted(p: IncomingWebhookPayload, now: string, parse: string -> Option<Timestamp>, clock: Timestamp)
    requires p.from != "" && p.to != "" && p.body != "" && p.messageSid != "" && now != ""
    requires var stamp := if p.timestamp.Some? && p.timestamp.value != "" then p.timestamp.value else now;
      parse(ReplaceChar(stamp, 'Z', "+00:00")).Some?
    ensures var stamp := if p.timestamp.Some? && p.timestamp.value != "" then p.timestamp.value else now;
      SmsWebhook.ValidateWebhookPayload(Dict(SimulatedPayload(p, now)), parse, clock)
        == Success(WebhookMessageRequest(p.from, p.to, p.body, p.mediaUrl.GetOr([]), p.messageSid,
                                         parse(ReplaceChar(stamp, 'Z', "+00:00")).value,
                                         DetermineMessageType(p.mediaUrl)))
  {
    var stamp := if p.timestamp.Some? && p.timestamp.value != "" then p.timestamp.value else now;
    var d := SimulatedPayload(p, now);
    var e := Extracted(p.from, p.to, Str(p.body), p.messageSid, List(p.mediaUrl.GetOr([])), Str(stamp),
                       DetermineMessageType(p.mediaUrl));
    SimulatedFields(p, now);
    AllPresent(e, true);
    SmsWebhook.ChecksPassed(d, parse, clock);
  }
}
