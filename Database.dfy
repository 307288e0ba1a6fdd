/** The PostgreSQL store behind the repositories, reduced to its three tables
    and the constraints the initial schema migration declares: primary keys,
    the foreign keys to `conversations`, the CHECK constraints on
    `provider_type`, `direction`, `status` and `address_type`, and the unique
    index on `participants(conversation_id, address)`. Rows are kept in
    insertion order. */
module Database {
  import opened Wrappers
  import opened Models

  datatype ConversationRow = ConversationRow(id: Id, createdAt: Timestamp, updatedAt: Timestamp)

  datatype ParticipantRow = ParticipantRow(
    id: Id,
    conversationId: Id,
    address: string,
    addressType: string,
    createdAt: Timestamp)

  /** A `messages` row; `attachments` is a nullable JSON column. */
  datatype MessageRow = MessageRow(
    id: Id,
    conversationId: Id,
    providerType: string,
    providerMessageId: Option<string>,
    fromAddress: string,
    toAddress: string,
    body: string,
    attachments: Option<seq<string>>,
    direction: string,
    status: string,
    messageTimestamp: Timestamp,
    createdAt: Timestamp,
    updatedAt: Timestamp)

  /** The `IntegrityError`s the store raises. */
  datatype StoreError =
    | PrimaryKeyViolation
    | ForeignKeyViolation
    | UniqueViolation
    | CheckViolation(constraint: string)

  predicate HasConversation(cs: seq<ConversationRow>, id: Id) {
    exists i :: 0 <= i < |cs| && cs[i].id == id
  }

  /** The addresses of a conversation's participants, in table order. */
  function AddressesOf(ps: seq<ParticipantRow>, cid: Id): (addrs: seq<string>)
    ensures |addrs| <= |ps|
    ensures forall a :: a in addrs <==> exists p :: p in ps && p.conversationId == cid && p.address == a
  {
    if ps == [] then []
    else (if ps[0].conversationId == cid then [ps[0].address] else []) + AddressesOf(ps[1..], cid)
  }

  /** A conversation's messages, in table order. */
  function MessagesOf(ms: seq<MessageRow>, cid: Id): (r: seq<MessageRow>)
    ensures |r| <= |ms|
    ensures forall m :: m in r <==> m in ms && m.conversationId == cid
  {
    if ms == [] then []
    else (if ms[0].conversationId == cid then [ms[0]] else []) + MessagesOf(ms[1..], cid)
  }

  predicate DistinctConversationIds(cs: seq<ConversationRow>) {
    forall i, j :: 0 <= i < j < |cs| ==> cs[i].id != cs[j].id
  }

  predicate DistinctParticipantIds(ps: seq<ParticipantRow>) {
    forall i, j :: 0 <= i < j < |ps| ==> ps[i].id != ps[j].id
  }

  predicate DistinctMessageIds(ms: seq<MessageRow>) {
    forall i, j :: 0 <= i < j < |ms| ==> ms[i].id != ms[j].id
  }

  /** The unique index on `participants(conversation_id, address)`. */
  predicate UniqueMembership(ps: seq<ParticipantRow>) {
    forall i, j :: 0 <= i < j < |ps| ==> ps[i].conversationId != ps[j].conversationId || ps[i].address != ps[j].address
  }

  predicate ParticipantConstraints(cs: seq<ConversationRow>, p: ParticipantRow) {
    HasConversation(cs, p.conversationId) && AllowedAddressType(p.addressType)
  }

  predicate MessageConstraints(cs: seq<ConversationRow>, m: MessageRow) {
    && HasConversation(cs, m.conversationId)
    && AllowedProviderType(m.providerType)
    && AllowedDirection(m.direction)
    && AllowedStatus(m.status)
  }

  /** Every constraint of the schema holds for the three tables. */
  predicate Consistent(cs: seq<ConversationRow>, ps: seq<ParticipantRow>, ms: seq<MessageRow>) {
    && DistinctConversationIds(cs)
    && DistinctParticipantIds(ps)
    && DistinctMessageIds(ms)
    && UniqueMembership(ps)
    && (forall p :: p in ps ==> ParticipantConstraints(cs, p))
    && (forall m :: m in ms ==> MessageConstraints(cs, m))
  }

  /** A conversation's participant list holds every address once. */
  lemma {:induction false} AddressesOfDistinct(ps: seq<ParticipantRow>, cid: Id)
    requires UniqueMembership(ps)
    ensures forall i, j :: 0 <= i < j < |AddressesOf(ps, cid)| ==> AddressesOf(ps, cid)[i] != AddressesOf(ps, cid)[j]
  {
    if ps != [] {
      AddressesOfDistinct(ps[1..], cid);
      if ps[0].conversationId == cid {
        assert forall p :: p in ps[1..] && p.conversationId == cid ==> p.address != ps[0].address by {
          forall p | p in ps[1..] && p.conversationId == cid ensures p.address != ps[0].address {
            var k :| 0 <= k < |ps[1..]| && ps[1..][k] == p;
            assert ps[k + 1] == p;
          }
        }
        var rest := AddressesOf(ps[1..], cid);
        var all := AddressesOf(ps, cid);
        assert all == [ps[0].address] + rest;
        assert ps[0].address !in rest;
        forall i, j | 0 <= i < j < |all| ensures all[i] != all[j] {
          assert all[j] == rest[j - 1];
          if i > 0 {
            assert all[i] == rest[i - 1];
          } else {
            assert rest[j - 1] in rest;
          }
        }
      }
    }
  }

  /** An identifier above every identifier in use, the role `uuid4()` plays. */
  function Above(ids: seq<Id>): (n: Id)
    ensures forall i :: 0 <= i < |ids| ==> ids[i] < n
  {
    if ids == [] then 0
    else
      var rest := Above(ids[1..]);
      var n := if ids[0] + 1 > rest then ids[0] + 1 else rest;
      assert forall i :: 1 <= i < |ids| ==> ids[i] == ids[1..][i - 1];
      n
  }

  class Db {
    var conversations: seq<ConversationRow>
    var participants: seq<ParticipantRow>
    var messages: seq<MessageRow>

    ghost predicate Valid()
      reads this
    {
      Consistent(conversations, participants, messages)
    }

    /** An empty database. */
    constructor ()
      ensures Valid()
      ensures conversations == [] && participants == [] && messages == []
    {
      conversations := [];
      participants := [];
      messages := [];
    }

    /** An identifier no row of any table carries. */
    function FreshId(): (id: Id)
      reads this
      ensures forall c :: c in conversations ==> c.id != id
      ensures forall p :: p in participants ==> p.id != id
      ensures forall m :: m in messages ==> m.id != id
    {
      var ids := seq(|conversations|, i requires 0 <= i < |conversations| reads this => conversations[i].id)
               + seq(|participants|, i requires 0 <= i < |participants| reads this => participants[i].id)
               + seq(|messages|, i requires 0 <= i < |messages| reads this => messages[i].id);
      var n := Above(ids);
      assert forall i :: 0 <= i < |conversations| ==> ids[i] == conversations[i].id;
      assert forall i :: 0 <= i < |participants| ==> ids[|conversations| + i] == participants[i].id;
      assert forall i :: 0 <= i < |messages| ==> ids[|conversations| + |participants| + i] == messages[i].id;
      n
    }

    /** `INSERT INTO conversations`. */
    method InsertConversation(row: ConversationRow) returns (r: Result<ConversationRow, StoreError>)
      requires Valid()
      modifies this
      ensures Valid()
      ensures HasConversation(old(conversations), row.id) ==> r == Failure(PrimaryKeyViolation) && unchanged(this)
      ensures !HasConversation(old(conversations), row.id) ==>
        && r == Success(row)
        && conversations == old(conversations) + [row]
        && participants == old(participants) && messages == old(messages)
    {
      if exists i :: 0 <= i < |conversations| && conversations[i].id == row.id {
        return Failure(PrimaryKeyViolation);
      }
      conversations := conversations + [row];
      assert forall c :: HasConversation(old(conversations), c) ==> HasConversation(conversations, c) by {
        forall c | HasConversation(old(conversations), c) ensures HasConversation(conversations, c) {
          var i :| 0 <= i < |old(conversations)| && old(conversations)[i].id == c;
          assert conversations[i].id == c;
        }
      }
      r := Success(row);
    }

    /** `INSERT INTO participants`: the CHECK on `address_type`, the primary
        key, the unique index and the foreign key, in that order. */
    method InsertParticipant(row: ParticipantRow) returns (r: Result<ParticipantRow, StoreError>)
      requires Valid()
      modifies this
      ensures Valid()
      ensures r.Failure? ==> unchanged(this)
      ensures !AllowedAddressType(row.addressType) ==> r == Failure(CheckViolation("address_type"))
      ensures AllowedAddressType(row.addressType) && (exists p :: p in old(participants) && p.id == row.id) ==>
        r == Failure(PrimaryKeyViolation)
      ensures && AllowedAddressType(row.addressType)
              && (forall p :: p in old(participants) ==> p.id != row.id)
              && (exists p :: p in old(participants) && p.conversationId == row.conversationId && p.address == row.address) ==>
        r == Failure(UniqueViolation)
      ensures && AllowedAddressType(row.addressType)
              && (forall p :: p in old(participants) ==> p.id != row.id)
              && (forall p :: p in old(participants) ==> p.conversationId != row.conversationId || p.address != row.address)
              && !HasConversation(conversations, row.conversationId) ==>
        r == Failure(ForeignKeyViolation)
      ensures r.Success? <==>
        && AllowedAddressType(row.addressType)
        && (forall p :: p in old(participants) ==> p.id != row.id)
        && (forall p :: p in old(participants) ==> p.conversationId != row.conversationId || p.address != row.address)
        && HasConversation(conversations, row.conversationId)
      ensures r.Success? ==>
        && r.value == row
        && participants == old(participants) + [row]
        && conversations == old(conversations) && messages == old(messages)
    {
      if !AllowedAddressType(row.addressType) {
        return Failure(CheckViolation("address_type"));
      }
      if exists p :: p in participants && p.id == row.id {
        return Failure(PrimaryKeyViolation);
      }
      if exists p :: p in participants && p.conversationId == row.conversationId && p.address == row.address {
        return Failure(UniqueViolation);
      }
      if !exists i :: 0 <= i < |conversations| && conversations[i].id == row.conversationId {
        return Failure(ForeignKeyViolation);
      }
      participants := participants + [row];
      r := Success(row);
    }

    /** `INSERT INTO messages`: the CHECK constraints (by name: direction,
        provider_type, status), then the primary key and the foreign key. */
    method InsertMessage(row: MessageRow) returns (r: Result<MessageRow, StoreError>)
      requires Valid()
      modifies this
      ensures Valid()
      ensures r.Failure? ==> unchanged(this)
      ensures !AllowedDirection(row.direction) ==> r == Failure(CheckViolation("direction"))
      ensures AllowedDirection(row.direction) && !AllowedProviderType(row.providerType) ==>
        r == Failure(CheckViolation("provider_type"))
      ensures AllowedDirection(row.direction) && AllowedProviderType(row.providerType) && !AllowedStatus(row.status) ==>
        r == Failure(CheckViolation("status"))
      ensures && AllowedDirection(row.direction) && AllowedProviderType(row.providerType) && AllowedStatus(row.status)
              && (exists m :: m in old(messages) && m.id == row.id) ==>
        r == Failure(PrimaryKeyViolation)
      ensures && AllowedDirection(row.direction) && AllowedProviderType(row.providerType) && AllowedStatus(row.status)
              && (forall m :: m in old(messages) ==> m.id != row.id)
              && !HasConversation(conversations, row.conversationId) ==>
        r == Failure(ForeignKeyViolation)
      ensures r.Success? <==>
        && MessageConstraints(conversations, row)
        && (forall m :: m in old(messages) ==> m.id != row.id)
      ensures r.Success? ==>
        && r.value == row
        && messages == old(messages) + [row]
        && conversations == old(conversations) && participants == old(participants)
    {
      if !AllowedDirection(row.direction) {
        return Failure(CheckViolation("direction"));
      }
      if !AllowedProviderType(row.providerType) {
        return Failure(CheckViolation("provider_type"));
      }
      if !AllowedStatus(row.status) {
        return Failure(CheckViolation("status"));
      }
      if exists m :: m in messages && m.id == row.id {
        return Failure(PrimaryKeyViolation);
      }
      if !exists i :: 0 <= i < |conversations| && conversations[i].id == row.conversationId {
        return Failure(ForeignKeyViolation);
      }
      messages := messages + [row];
      r := Success(row);
    }

    /** `UPDATE messages` of the row at index `i`, keeping its key: the CHECK
        constraints apply to the new values. */
    method UpdateMessage(i: nat, row: MessageRow) returns (r: Result<MessageRow, StoreError>)
      requires Valid()
      requires i < |messages| && row.id == messages[i].id && row.conversationId == messages[i].conversationId
      modifies this
      ensures Valid()
      ensures r.Failure? ==> unchanged(this)
      ensures r.Success? <==> MessageConstraints(conversations, row)
      ensures !AllowedDirection(row.direction) ==> r == Failure(CheckViolation("direction"))
      ensures AllowedDirection(row.direction) && !AllowedProviderType(row.providerType) ==>
        r == Failure(CheckViolation("provider_type"))
      ensures AllowedDirection(row.direction) && AllowedProviderType(row.providerType) && !AllowedStatus(row.status) ==>
        r == Failure(CheckViolation("status"))
      ensures r.Success? ==>
        && r.value == row
        && messages == old(messages)[i := row]
        && conversations == old(conversations) && participants == old(participants)
    {
      if !AllowedDirection(row.direction) {
        return Failure(CheckViolation("direction"));
      }
      if !AllowedProviderType(row.providerType) {
        return Failure(CheckViolation("provider_type"));
      }
      if !AllowedStatus(row.status) {
        return Failure(CheckViolation("status"));
      }
      assert MessageConstraints(conversations, messages[i]);
      messages := messages[i := row];
      assert forall m :: m in messages ==> MessageConstraints(conversations, m) by {
        forall m | m in messages ensures MessageConstraints(conversations, m) {
          var k :| 0 <= k < |messages| && messages[k] == m;
          if k != i {
            assert m == old(messages)[k];
          }
        }
      }
      r := Success(row);
    }
  }
}
