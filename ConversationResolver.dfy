/** `_find_or_create_conversation`, written out identically in
    app/services/send_message_service.py,
    app/services/receive_sms_mms_webhook_service.py and
    app/services/receive_email_webhook_service.py: look the participant list
    up; when nothing matches, create an empty conversation and add each
    address with the type its '@' gives it. */
module ConversationResolver {
  import opened Wrappers
  import opened Models
  import opened Database
  import opened ConversationRepository
  import ParticipantRepository

  /** The list with later repetitions dropped, first occurrences in order. */
  function Dedup(xs: seq<string>): (d: seq<string>)
    ensures forall x :: x in d <==> x in xs
    ensures forall i, j :: 0 <= i < j < |d| ==> d[i] != d[j]
    decreases |xs|
  {
    if xs == [] then []
    else
      var front := xs[..|xs| - 1];
      var x := xs[|xs| - 1];
      assert xs == front + [x];
      var d := Dedup(front);
      if x in d then d else d + [x]
  }

  /** A list without repetitions is its own deduplication. */
  lemma {:induction false} DedupDistinct(xs: seq<string>)
    requires forall i, j :: 0 <= i < j < |xs| ==> xs[i] != xs[j]
    ensures Dedup(xs) == xs
    decreases |xs|
  {
    if xs != [] {
      var front := xs[..|xs| - 1];
      DedupDistinct(front);
      assert xs[|xs| - 1] !in front;
      assert xs == front + [xs[|xs| - 1]];
    }
  }

  /** A new participant row adds its address to its own conversation's list
      and to no other. */
  lemma {:induction false} AddressesOfAppend(ps: seq<ParticipantRow>, row: ParticipantRow, cid: Id)
    ensures AddressesOf(ps + [row], cid) == AddressesOf(ps, cid) + (if row.conversationId == cid then [row.address] else [])
  {
    if ps != [] {
      assert (ps + [row])[1..] == ps[1..] + [row];
      AddressesOfAppend(ps[1..], row, cid);
    }
  }

  /** The participant lists of all conversations other than `cid` agree. */
  ghost predicate OthersUnchanged(ps: seq<ParticipantRow>, ps': seq<ParticipantRow>, cid: Id) {
    forall other :: other != cid ==> AddressesOf(ps', other) == AddressesOf(ps, other)
  }

  /** `_find_or_create_conversation`. The conversation returned for a new
      list is the view `create_empty` gave back, before any participant was
      added. */
  method FindOrCreateConversation(db: Db, participants: seq<string>, now: Timestamp) returns (c: ConversationResponse)
    requires db.Valid()
    modifies db
    ensures db.Valid()
    ensures db.messages == old(db.messages)
    ensures old(Lookup(db.conversations, db.participants, db.messages, participants)).Some? ==>
      && c == old(Lookup(db.conversations, db.participants, db.messages, participants)).value
      && db.conversations == old(db.conversations) && db.participants == old(db.participants)
    ensures old(Lookup(db.conversations, db.participants, db.messages, participants)).None? ==>
      && c == ConversationResponse(c.id, now, now, [], 0, None)
      && !HasConversation(old(db.conversations), c.id)
      && db.conversations == old(db.conversations) + [ConversationRow(c.id, now, now)]
      && AddressesOf(db.participants, c.id) == Dedup(participants)
      && OthersUnchanged(old(db.participants), db.participants, c.id)
      && (forall p :: p in db.participants && p !in old(db.participants) ==>
            p.conversationId == c.id && p.addressType == AddressType(p.address) && p.createdAt == now)
    ensures HasConversation(db.conversations, c.id)
  {
    var found := GetByParticipants(db, participants);
    if found.Some? {
      LookupFinds(db.conversations, db.participants, db.messages, participants);
      var row :| row in db.conversations && Matches(db.participants, row.id, participants)
                && found.value == ToResponse(row, db.participants, db.messages);
      var k :| 0 <= k < |db.conversations| && db.conversations[k] == row;
      return found.value;
    }
    c := CreateEmpty(db, now);
    assert HasConversation(db.conversations, c.id) by {
      assert db.conversations[|db.conversations| - 1].id == c.id;
    }
    AddParticipants(db, c.id, participants, now);
  }

  /** The loop of `_find_or_create_conversation` that adds each address of
      the list to the freshly created, still empty conversation. */
  method AddParticipants(db: Db, cid: Id, participants: seq<string>, now: Timestamp)
    requires db.Valid() && HasConversation(db.conversations, cid)
    requires AddressesOf(db.participants, cid) == []
    modifies db
    ensures db.Valid()
    ensures db.conversations == old(db.conversations) && db.messages == old(db.messages)
    ensures AddressesOf(db.participants, cid) == Dedup(participants)
    ensures OthersUnchanged(old(db.participants), db.participants, cid)
    ensures forall p :: p in db.participants && p !in old(db.participants) ==>
              p.conversationId == cid && p.addressType == AddressType(p.address) && p.createdAt == now
  {
    ghost var ps0 := db.participants;
    assert participants[..0] == [];
    var i := 0;
    while i < |participants|
      invariant 0 <= i <= |participants|
      invariant db.Valid()
      invariant db.conversations == old(db.conversations) && db.messages == old(db.messages)
      invariant AddressesOf(db.participants, cid) == Dedup(participants[..i])
      invariant OthersUnchanged(ps0, db.participants, cid)
      invariant forall p :: p in db.participants && p !in ps0 ==>
                  p.conversationId == cid && p.addressType == AddressType(p.address) && p.createdAt == now
    {
      AddOne(db, cid, participants[i], now, ps0, participants[..i]);
      assert participants[..i + 1] == participants[..i] + [participants[i]];
      i := i + 1;
    }
    assert participants[..i] == participants;
  }

  /** One turn of that loop: `add_participant` for one address, which
      extends the conversation's list exactly when the address is new. */
  method AddOne(db: Db, cid: Id, address: string, now: Timestamp, ghost ps0: seq<ParticipantRow>, ghost done: seq<string>)
    requires db.Valid() && HasConversation(db.conversations, cid)
    requires AddressesOf(db.participants, cid) == Dedup(done)
    requires OthersUnchanged(ps0, db.participants, cid)
    requires forall p :: p in db.participants && p !in ps0 ==>
               p.conversationId == cid && p.addressType == AddressType(p.address) && p.createdAt == now
    modifies db
    ensures db.Valid()
    ensures db.conversations == old(db.conversations) && db.messages == old(db.messages)
    ensures AddressesOf(db.participants, cid) == Dedup(done + [address])
    ensures OthersUnchanged(ps0, db.participants, cid)
    ensures forall p :: p in db.participants && p !in ps0 ==>
              p.conversationId == cid && p.addressType == AddressType(p.address) && p.createdAt == now
  {
    ghost var before := db.participants;
    var added := ParticipantRepository.AddParticipant(db, cid, address, AddressType(address), now);
    var found := ParticipantRepository.FindPair(before, cid, address);
    if found.Some? {
      assert address in AddressesOf(before, cid);
      DedupKnown(done, address);
    } else {
      var row := ParticipantRow(added.value.id, cid, address, AddressType(address), now);
      assert address !in AddressesOf(before, cid);
      AddStep(ps0, before, row, done);
    }
  }

  /** Adding an address already present leaves the deduplication as it is. */
  lemma DedupKnown(done: seq<string>, address: string)
    requires address in done
    ensures Dedup(done + [address]) == Dedup(done)
  {
    assert (done + [address])[..|done|] == done;
  }

  /** One new participant row for a new address extends the conversation's
      list by that address and leaves every other list alone. */
  lemma AddStep(ps0: seq<ParticipantRow>, before: seq<ParticipantRow>, row: ParticipantRow, done: seq<string>)
    requires AddressesOf(before, row.conversationId) == Dedup(done)
    requires OthersUnchanged(ps0, before, row.conversationId)
    requires row.address !in done
    ensures AddressesOf(before + [row], row.conversationId) == Dedup(done + [row.address])
    ensures OthersUnchanged(ps0, before + [row], row.conversationId)
  {
    assert (done + [row.address])[..|done|] == done;
    AddressesOfAppend(before, row, row.conversationId);
    forall other | other != row.conversationId
      ensures AddressesOf(before + [row], other) == AddressesOf(ps0, other)
    {
      AddressesOfAppend(before, row, other);
    }
  }

  /** Once a list of distinct addresses has been given a new conversation,
      looking the list up again finds that conversation: every older
      conversation still fails to match, and the new one holds exactly the
      list. */
  lemma CreatedIsFound(cs: seq<ConversationRow>, ps: seq<ParticipantRow>, ps': seq<ParticipantRow>,
                       ms: seq<MessageRow>, row: ConversationRow, q: seq<string>)
    requires q != [] && Lookup(cs, ps, ms, q).None?
    requires forall i, j :: 0 <= i < j < |q| ==> q[i] != q[j]
    requires !HasConversation(cs, row.id)
    requires AddressesOf(ps', row.id) == Dedup(q)
    requires OthersUnchanged(ps, ps', row.id)
    ensures Lookup(cs + [row], ps', ms, q) == Some(ToResponse(row, ps', ms))
  {
    DedupDistinct(q);
    assert Matches(ps', row.id, q);
    LookupFinds(cs, ps, ms, q);
    OlderStillUnmatched(cs, ps, ps', row, q);
    FirstMatchAt(cs + [row], ps', q, |cs|);
  }

  /** Conversations whose participants did not change and that did not
      match before still do not match. */
  lemma OlderStillUnmatched(cs: seq<ConversationRow>, ps: seq<ParticipantRow>, ps': seq<ParticipantRow>,
                            row: ConversationRow, q: seq<string>)
    requires forall c :: c in cs ==> !Matches(ps, c.id, q)
    requires !HasConversation(cs, row.id)
    requires OthersUnchanged(ps, ps', row.id)
    ensures forall k :: 0 <= k < |cs| ==> !Matches(ps', (cs + [row])[k].id, q)
  {
    forall k | 0 <= k < |cs| ensures !Matches(ps', (cs + [row])[k].id, q) {
      assert (cs + [row])[k] == cs[k] && cs[k] in cs;
      assert cs[k].id != row.id;
    }
  }

  /** When a message is sent to oneself the list is `[a, a]`: the
      conversation created for it holds `a` once and can never be found
      again, so every such send creates another conversation. */
  lemma SelfConversationNotFound(cs: seq<ConversationRow>, ps: seq<ParticipantRow>, ms: seq<MessageRow>, a: string)
    requires Consistent(cs, ps, ms)
    ensures Lookup(cs, ps, ms, [a, a]).None?
  {
    forall c | c in cs ensures !Matches(ps, c.id, [a, a]) {
      RepeatedAddressNeverMatches(cs, ps, ms, c.id, a);
    }
  }
}
