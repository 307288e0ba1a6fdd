/** `ParticipantRepository` (app/repositories/participant_repository.py):
    the idempotent `add_participant` and the two read filters. */
module ParticipantRepository {
  import opened Wrappers
  import opened Models
  import opened Database

  /** `_to_pydantic`: a field-for-field copy of the stored row. */
  function ToResponse(p: ParticipantRow): ParticipantResponse {
    ParticipantResponse(p.id, p.conversationId, p.address, p.addressType, p.createdAt)
  }

  /** The stored row for the pair `(conversation_id, address)`, the one
      `scalar_one_or_none` returns. */
  function FindPair(ps: seq<ParticipantRow>, cid: Id, address: string): (r: Option<ParticipantRow>)
    ensures r.None? <==> forall p :: p in ps ==> p.conversationId != cid || p.address != address
    ensures r.Some? ==> r.value in ps && r.value.conversationId == cid && r.value.address == address
  {
    if ps == [] then None
    else if ps[0].conversationId == cid && ps[0].address == address then Some(ps[0])
    else
      assert forall p :: p in ps ==> p == ps[0] || p in ps[1..];
      FindPair(ps[1..], cid, address)
  }

  /** How many stored rows carry the pair. */
  function PairCount(ps: seq<ParticipantRow>, cid: Id, address: string): (n: nat)
    ensures n <= |ps|
    ensures n == 0 <==> forall p :: p in ps ==> p.conversationId != cid || p.address != address
  {
    if ps == [] then 0
    else
      assert forall p :: p in ps ==> p == ps[0] || p in ps[1..];
      (if ps[0].conversationId == cid && ps[0].address == address then 1 else 0) + PairCount(ps[1..], cid, address)
  }

  /** Under the unique index a pair is stored at most once. */
  lemma {:induction false} UniquePairCount(ps: seq<ParticipantRow>, cid: Id, address: string)
    requires UniqueMembership(ps)
    ensures PairCount(ps, cid, address) <= 1
  {
    if ps != [] {
      UniquePairCount(ps[1..], cid, address);
      if ps[0].conversationId == cid && ps[0].address == address {
        forall p | p in ps[1..] ensures p.conversationId != cid || p.address != address {
          var k :| 0 <= k < |ps[1..]| && ps[1..][k] == p;
          assert ps[k + 1] == p;
        }
      }
    }
  }

  lemma {:induction false} PairCountAppend(ps: seq<ParticipantRow>, row: ParticipantRow, cid: Id, address: string)
    ensures PairCount(ps + [row], cid, address)
            == PairCount(ps, cid, address) + (if row.conversationId == cid && row.address == address then 1 else 0)
  {
    if ps != [] {
      assert (ps + [row])[1..] == ps[1..] + [row];
      PairCountAppend(ps[1..], row, cid, address);
    }
  }

  /** `add_participant`: the stored row for the pair when there is one,
      without writing; otherwise one new row with a fresh id, stamped `now`.
      The insert fails only on the schema's constraints: an address type
      outside ('phone', 'email') or an unknown conversation. */
  method AddParticipant(db: Db, cid: Id, address: string, addressType: string, now: Timestamp)
    returns (r: Result<ParticipantResponse, StoreError>)
    requires db.Valid()
    modifies db
    ensures db.Valid()
    ensures db.conversations == old(db.conversations) && db.messages == old(db.messages)
    ensures FindPair(old(db.participants), cid, address).Some? ==>
      && r == Success(ToResponse(FindPair(old(db.participants), cid, address).value))
      && db.participants == old(db.participants)
    ensures FindPair(old(db.participants), cid, address).None? ==>
      && (r.Success? <==> AllowedAddressType(addressType) && HasConversation(db.conversations, cid))
      && (!AllowedAddressType(addressType) ==> r == Failure(CheckViolation("address_type")))
      && (AllowedAddressType(addressType) && !HasConversation(db.conversations, cid) ==> r == Failure(ForeignKeyViolation))
      && (r.Failure? ==> db.participants == old(db.participants))
      && (r.Success? ==>
            && r.value.conversationId == cid && r.value.address == address
            && r.value.addressType == addressType && r.value.createdAt == now
            && (forall p :: p in old(db.participants) ==> p.id != r.value.id)
            && db.participants == old(db.participants) + [ParticipantRow(r.value.id, cid, address, addressType, now)])
    ensures r.Success? ==> PairCount(db.participants, cid, address) == 1
  {
    var existing := FindPair(db.participants, cid, address);
    if existing.Some? {
      UniquePairCount(db.participants, cid, address);
      return Success(ToResponse(existing.value));
    }
    var row := ParticipantRow(db.FreshId(), cid, address, addressType, now);
    var inserted := db.InsertParticipant(row);
    match inserted
    case Success(p) =>
      PairCountAppend(old(db.participants), row, cid, address);
      r := Success(ToResponse(p));
    case Failure(e) =>
      r := Failure(e);
  }

  /** `get_by_conversation`: the participants of one conversation, in table
      order. */
  function GetByConversation(ps: seq<ParticipantRow>, cid: Id): (r: seq<ParticipantResponse>)
    ensures forall x :: x in r <==> exists p :: p in ps && p.conversationId == cid && x == ToResponse(p)
    ensures |r| <= |ps|
  {
    if ps == [] then []
    else
      assert forall p :: p in ps <==> p == ps[0] || p in ps[1..];
      (if ps[0].conversationId == cid then [ToResponse(ps[0])] else []) + GetByConversation(ps[1..], cid)
  }

  /** The addresses `get_by_conversation` lists are the participant list of
      the conversation's own view. */
  lemma {:induction false} GetByConversationAddresses(ps: seq<ParticipantRow>, cid: Id)
    ensures var r := GetByConversation(ps, cid);
      seq(|r|, i requires 0 <= i < |r| => r[i].address) == AddressesOf(ps, cid)
  {
    if ps != [] {
      GetByConversationAddresses(ps[1..], cid);
      var r := GetByConversation(ps, cid);
      var rest := GetByConversation(ps[1..], cid);
      var head := if ps[0].conversationId == cid then [ToResponse(ps[0])] else [];
      assert r == head + rest;
      assert seq(|r|, i requires 0 <= i < |r| => r[i].address)
          == seq(|head|, i requires 0 <= i < |head| => head[i].address)
             + seq(|rest|, i requires 0 <= i < |rest| => rest[i].address);
    }
  }

  /** `get_by_address`: every participant row with that address, across
      conversations, in table order. */
  function GetByAddress(ps: seq<ParticipantRow>, address: string): (r: seq<ParticipantResponse>)
    ensures forall x :: x in r <==> exists p :: p in ps && p.address == address && x == ToResponse(p)
    ensures |r| <= |ps|
  {
    if ps == [] then []
    else
      assert forall p :: p in ps <==> p == ps[0] || p in ps[1..];
      (if ps[0].address == address then [ToResponse(ps[0])] else []) + GetByAddress(ps[1..], address)
  }

  /** Under the unique index, an address is listed by `get_by_address` at
      most once per conversation. */
  lemma {:induction false} GetByAddressOncePerConversation(ps: seq<ParticipantRow>, address: string)
    requires UniqueMembership(ps)
    ensures forall i, j :: 0 <= i < j < |GetByAddress(ps, address)| ==>
      GetByAddress(ps, address)[i].conversationId != GetByAddress(ps, address)[j].conversationId
  {
    if ps != [] {
      assert UniqueMembership(ps[1..]) by {
        forall i, j | 0 <= i < j < |ps[1..]| ensures ps[1..][i].conversationId != ps[1..][j].conversationId || ps[1..][i].address != ps[1..][j].address {
          assert ps[1..][i] == ps[i + 1] && ps[1..][j] == ps[j + 1];
        }
      }
      GetByAddressOncePerConversation(ps[1..], address);
      var r := GetByAddress(ps, address);
      var rest := GetByAddress(ps[1..], address);
      if ps[0].address == address {
        assert r == [ToResponse(ps[0])] + rest;
        forall j | 0 <= j < |rest| ensures rest[j].conversationId != ps[0].conversationId {
          assert rest[j] in rest;
          var p :| p in ps[1..] && p.address == address && rest[j] == ToResponse(p);
          var k :| 0 <= k < |ps[1..]| && ps[1..][k] == p;
          assert ps[k + 1] == p;
        }
        forall i, j | 0 <= i < j < |r| ensures r[i].conversationId != r[j].conversationId {
          if i > 0 {
            assert r[i] == rest[i - 1] && r[j] == rest[j - 1];
          } else {
            assert r[j] == rest[j - 1];
          }
        }
      } else {
        assert r == rest;
      }
    }
  }
}
