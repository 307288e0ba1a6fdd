/** `ConversationRepository` (app/repositories/conversation_repository.py):
    finding a conversation by its participants, creating an empty one,
    reading one by id, listing them, and the view `_to_pydantic` builds of a
    stored conversation. */
module ConversationRepository {
  import opened Wrappers
  import opened Models
  import opened Database
  import opened Sorting

  /** The latest message timestamp (`max(..., key=message_timestamp)`), or
      `None` without messages. */
  function LastTimestamp(ms: seq<MessageRow>): (r: Option<Timestamp>)
    ensures r.None? <==> ms == []
    ensures r.Some? ==> exists m :: m in ms && m.messageTimestamp == r.value
    ensures r.Some? ==> forall m :: m in ms ==> m.messageTimestamp <= r.value
  {
    if ms == [] then None
    else match LastTimestamp(ms[1..])
      case None => Some(ms[0].messageTimestamp)
      case Some(t) =>
        assert forall m :: m in ms ==> m == ms[0] || m in ms[1..];
        Some(if ms[0].messageTimestamp > t then ms[0].messageTimestamp else t)
  }

  /** `_to_pydantic`: the conversation with its participants' addresses in
      stored order, the number of its messages and the latest of their
      timestamps. */
  function ToResponse(c: ConversationRow, ps: seq<ParticipantRow>, ms: seq<MessageRow>): (r: ConversationResponse)
    ensures r.id == c.id && r.createdAt == c.createdAt && r.updatedAt == c.updatedAt
    ensures r.participants == AddressesOf(ps, c.id)
    ensures r.messageCount == |MessagesOf(ms, c.id)|
    ensures r.lastMessageTimestamp.None? <==> forall m :: m in ms ==> m.conversationId != c.id
    ensures r.lastMessageTimestamp.Some? ==>
      && (exists m :: m in ms && m.conversationId == c.id && m.messageTimestamp == r.lastMessageTimestamp.value)
      && (forall m :: m in ms && m.conversationId == c.id ==> m.messageTimestamp <= r.lastMessageTimestamp.value)
  {
    var own := MessagesOf(ms, c.id);
    assert own == [] <==> forall m :: m in ms ==> m.conversationId != c.id by {
      if own != [] {
        assert own[0] in own;
      }
    }
    ConversationResponse(c.id, c.createdAt, c.updatedAt, AddressesOf(ps, c.id), |own|, LastTimestamp(own))
  }

  /** The matching rule of `get_by_participants`: the conversation's
      participant addresses and the query are the same addresses, each as
      many times. */
  predicate Matches(ps: seq<ParticipantRow>, cid: Id, query: seq<string>) {
    multiset(AddressesOf(ps, cid)) == multiset(query)
  }

  /** The comparison the source makes, sorted list against sorted list, is
      that rule: the order of the query does not matter, the number of times
      an address occurs does. */
  lemma SortedEqualIffMatches(ps: seq<ParticipantRow>, cid: Id, query: seq<string>)
    ensures SortStrings(AddressesOf(ps, cid)) == SortStrings(query) <==> Matches(ps, cid, query)
  {
    SortStringsEqualIff(AddressesOf(ps, cid), query);
  }

  /** A matching conversation has every address of the query as a
      participant. */
  lemma MatchContainsQuery(ps: seq<ParticipantRow>, cid: Id, query: seq<string>, x: string)
    requires Matches(ps, cid, query) && x in query
    ensures x in AddressesOf(ps, cid)
  {
    assert x in multiset(query);
  }

  /** The first conversation, in table order, that matches the query. */
  function FirstMatch(cs: seq<ConversationRow>, ps: seq<ParticipantRow>, query: seq<string>): (r: Option<ConversationRow>)
    ensures r.Some? ==> r.value in cs && Matches(ps, r.value.id, query)
    ensures r.None? <==> forall c :: c in cs ==> !Matches(ps, c.id, query)
  {
    if cs == [] then None
    else if Matches(ps, cs[0].id, query) then Some(cs[0])
    else
      assert forall c :: c in cs ==> c == cs[0] || c in cs[1..];
      FirstMatch(cs[1..], ps, query)
  }

  lemma {:induction false} FirstMatchAt(cs: seq<ConversationRow>, ps: seq<ParticipantRow>, query: seq<string>, j: nat)
    requires j < |cs| && Matches(ps, cs[j].id, query)
    requires forall k :: 0 <= k < j ==> !Matches(ps, cs[k].id, query)
    ensures FirstMatch(cs, ps, query) == Some(cs[j])
  {
    if j > 0 {
      FirstMatchAt(cs[1..], ps, query, j - 1);
    }
  }

  /** The result `get_by_participants` gives: nothing for an empty query,
      else the first matching conversation. */
  function Lookup(cs: seq<ConversationRow>, ps: seq<ParticipantRow>, ms: seq<MessageRow>, query: seq<string>): Option<ConversationResponse> {
    if query == [] then None
    else match FirstMatch(cs, ps, query)
      case None => None
      case Some(c) => Some(ToResponse(c, ps, ms))
  }

  /** What a lookup finds: a matching stored conversation, or nothing when
      the query is empty or no conversation matches. */
  lemma LookupFinds(cs: seq<ConversationRow>, ps: seq<ParticipantRow>, ms: seq<MessageRow>, query: seq<string>)
    ensures var r := Lookup(cs, ps, ms, query);
      && (r.Some? ==> exists c :: c in cs && Matches(ps, c.id, query) && r.value == ToResponse(c, ps, ms))
      && (r.None? <==> query == [] || forall c :: c in cs ==> !Matches(ps, c.id, query))
  {
  }

  /** A conversation without one of the query's addresses cannot match. */
  lemma MissingAddressNoMatch(ps: seq<ParticipantRow>, cid: Id, query: seq<string>, x: string)
    requires x in query && x !in AddressesOf(ps, cid)
    ensures !Matches(ps, cid, query)
  {
    assert x in multiset(query) && x !in multiset(AddressesOf(ps, cid));
  }

  /** When no conversation holding the first sorted address matches, none
      matches at all. */
  lemma NoMatchAnywhere(cs: seq<ConversationRow>, ps: seq<ParticipantRow>, query: seq<string>, sorted: seq<string>)
    requires query != [] && sorted == SortStrings(query)
    requires forall jj :: 0 <= jj < |cs| && sorted[0] in AddressesOf(ps, cs[jj].id) ==> !Matches(ps, cs[jj].id, query)
    ensures forall c :: c in cs ==> !Matches(ps, c.id, query)
  {
    assert sorted[0] in query by {
      assert sorted[0] in multiset(sorted);
    }
    forall c | c in cs ensures !Matches(ps, c.id, query) {
      var jj :| 0 <= jj < |cs| && cs[jj] == c;
      if sorted[0] !in AddressesOf(ps, c.id) {
        MissingAddressNoMatch(ps, c.id, query, sorted[0]);
      }
    }
  }

  /** `get_by_participants`: for each query address in sorted order, scan
      the conversations that have it as a participant, and return the first
      whose sorted addresses equal the sorted query. */
  method GetByParticipants(db: Db, query: seq<string>) returns (r: Option<ConversationResponse>)
    ensures r == Lookup(db.conversations, db.participants, db.messages, query)
  {
    var cs, ps := db.conversations, db.participants;
    var sorted := SortStrings(query);
    var i := 0;
    while i < |sorted|
      invariant 0 <= i <= |sorted|
      invariant 0 < i ==> forall jj :: 0 <= jj < |cs| && sorted[0] in AddressesOf(ps, cs[jj].id) ==>
                            !Matches(ps, cs[jj].id, query)
    {
      var found := ScanFor(cs, ps, db.messages, query, i);
      if found.Some? {
        return found;
      }
      i := i + 1;
    }
    if query != [] {
      NoMatchAnywhere(cs, ps, query, SortStrings(query));
    }
    r := None;
  }

  /** One pass of that scan, for the `i`-th sorted address: the first
      conversation holding it whose sorted addresses equal the sorted query
      is the lookup's answer; when there is none, no conversation matches. */
  method ScanFor(cs: seq<ConversationRow>, ps: seq<ParticipantRow>, ms: seq<MessageRow>, query: seq<string>, i: nat)
    returns (found: Option<ConversationResponse>)
    requires i < |SortStrings(query)|
    ensures found.Some? ==> found == Lookup(cs, ps, ms, query)
    ensures found.None? ==> forall jj :: 0 <= jj < |cs| ==> !Matches(ps, cs[jj].id, query)
  {
    var sorted := SortStrings(query);
    var address := sorted[i];
    var j := 0;
    while j < |cs|
      invariant 0 <= j <= |cs|
      invariant NoneMatchBefore(cs, ps, query, j)
    {
      var c := cs[j];
      if address in AddressesOf(ps, c.id) {
        var addresses := SortStrings(AddressesOf(ps, c.id));
        if addresses == sorted {
          SortedEqualIffMatches(ps, c.id, query);
          SortedQueryNonEmpty(query, i);
          NoneMatchBeforeAll(cs, ps, query, j);
          FirstMatchAt(cs, ps, query, j);
          return Some(ToResponse(c, ps, ms));
        }
      }
      ScannedNoMatch(ps, c.id, query, i);
      j := j + 1;
    }
    NoneMatchBeforeAll(cs, ps, query, |cs|);
    found := None;
  }

  /** None of the first `j` conversations matches. */
  ghost predicate NoneMatchBefore(cs: seq<ConversationRow>, ps: seq<ParticipantRow>, query: seq<string>, j: nat)
    requires j <= |cs|
  {
    j == 0 || (NoneMatchBefore(cs, ps, query, j - 1) && !Matches(ps, cs[j - 1].id, query))
  }

  lemma {:induction false} NoneMatchBeforeAll(cs: seq<ConversationRow>, ps: seq<ParticipantRow>, query: seq<string>, j: nat)
    requires j <= |cs| && NoneMatchBefore(cs, ps, query, j)
    ensures forall k :: 0 <= k < j ==> !Matches(ps, cs[k].id, query)
  {
    if j > 0 {
      NoneMatchBeforeAll(cs, ps, query, j - 1);
    }
  }

  lemma SortedQueryNonEmpty(query: seq<string>, i: nat)
    requires i < |SortStrings(query)|
    ensures query != []
  {
  }

  /** A conversation the scan for the `i`-th sorted address passes over does
      not match. */
  lemma ScannedNoMatch(ps: seq<ParticipantRow>, cid: Id, query: seq<string>, i: nat)
    requires i < |SortStrings(query)|
    requires SortStrings(query)[i] !in AddressesOf(ps, cid) || SortStrings(AddressesOf(ps, cid)) != SortStrings(query)
    ensures !Matches(ps, cid, query)
  {
    var sorted := SortStrings(query);
    if sorted[i] !in AddressesOf(ps, cid) {
      assert sorted[i] in multiset(sorted);
      MissingAddressNoMatch(ps, cid, query, sorted[i]);
    } else {
      SortedEqualIffMatches(ps, cid, query);
    }
  }

  /** Because a conversation holds each address once, the query `[a, a]`
      built when a message is sent to oneself matches no conversation, not
      even the one created for it. */
  lemma RepeatedAddressNeverMatches(cs: seq<ConversationRow>, ps: seq<ParticipantRow>, ms: seq<MessageRow>, cid: Id, a: string)
    requires Consistent(cs, ps, ms)
    ensures !Matches(ps, cid, [a, a])
  {
    AddressesOfDistinct(ps, cid);
    DistinctOccursOnce(AddressesOf(ps, cid), a);
    assert multiset([a, a])[a] == 2;
  }

  /** In a list without repetitions an element occurs at most once. */
  lemma {:induction false} DistinctOccursOnce(s: seq<string>, a: string)
    requires forall i, j :: 0 <= i < j < |s| ==> s[i] != s[j]
    ensures multiset(s)[a] <= 1
  {
    if s != [] {
      DistinctOccursOnce(s[1..], a);
      assert s == [s[0]] + s[1..];
      if s[0] == a {
        assert a !in s[1..] by {
          forall k | 0 <= k < |s[1..]| ensures s[1..][k] != a {
            assert s[1..][k] == s[k + 1];
          }
        }
      }
    }
  }

  /** Reordering the query does not change the conversation found. */
  lemma LookupIgnoresOrder(cs: seq<ConversationRow>, ps: seq<ParticipantRow>, ms: seq<MessageRow>, q1: seq<string>, q2: seq<string>)
    requires multiset(q1) == multiset(q2)
    ensures Lookup(cs, ps, ms, q1) == Lookup(cs, ps, ms, q2)
  {
    SortStringsEqualIff(q1, q2);
    assert |q1| == |multiset(q1)| == |q2|;
    assert forall c :: c in cs ==> (Matches(ps, c.id, q1) <==> Matches(ps, c.id, q2));
    FirstMatchSameMatches(cs, ps, q1, q2);
  }

  lemma {:induction false} FirstMatchSameMatches(cs: seq<ConversationRow>, ps: seq<ParticipantRow>, q1: seq<string>, q2: seq<string>)
    requires SortStrings(q1) == SortStrings(q2)
    ensures FirstMatch(cs, ps, q1) == FirstMatch(cs, ps, q2)
  {
    if cs != [] {
      FirstMatchSameMatches(cs[1..], ps, q1, q2);
    }
  }

  /** `create_empty`: one new conversation with a fresh id, no participants
      and no messages, stamped `now`. */
  method CreateEmpty(db: Db, now: Timestamp) returns (r: ConversationResponse)
    requires db.Valid()
    modifies db
    ensures db.Valid()
    ensures r == ConversationResponse(r.id, now, now, [], 0, None)
    ensures !HasConversation(old(db.conversations), r.id)
    ensures AddressesOf(db.participants, r.id) == [] && MessagesOf(db.messages, r.id) == []
    ensures db.conversations == old(db.conversations) + [ConversationRow(r.id, now, now)]
    ensures db.participants == old(db.participants) && db.messages == old(db.messages)
  {
    var id := db.FreshId();
    var row := ConversationRow(id, now, now);
    assert !HasConversation(db.conversations, id);
    var inserted := db.InsertConversation(row);
    assert forall p :: p in db.participants ==> p.conversationId != id by {
      forall p | p in db.participants ensures p.conversationId != id {
        assert ParticipantConstraints(old(db.conversations), p);
      }
    }
    assert forall m :: m in db.messages ==> m.conversationId != id by {
      forall m | m in db.messages ensures m.conversationId != id {
        assert MessageConstraints(old(db.conversations), m);
      }
    }
    NoParticipants(db.participants, id);
    r := ToResponse(row, db.participants, db.messages);
  }

  lemma {:induction false} NoParticipants(ps: seq<ParticipantRow>, cid: Id)
    requires forall p :: p in ps ==> p.conversationId != cid
    ensures AddressesOf(ps, cid) == []
  {
    if ps != [] {
      assert ps[0] in ps;
      NoParticipants(ps[1..], cid);
    }
  }

  /** The stored conversation with that id. */
  function FindConversation(cs: seq<ConversationRow>, id: Id): (r: Option<ConversationRow>)
    ensures r.None? <==> !HasConversation(cs, id)
    ensures r.Some? ==> r.value in cs && r.value.id == id
  {
    if cs == [] then None
    else if cs[0].id == id then Some(cs[0])
    else
      assert HasConversation(cs, id) <==> HasConversation(cs[1..], id) by {
        if HasConversation(cs, id) {
          var i :| 0 <= i < |cs| && cs[i].id == id;
          assert cs[1..][i - 1] == cs[i];
        }
        if HasConversation(cs[1..], id) {
          var i :| 0 <= i < |cs[1..]| && cs[1..][i].id == id;
          assert cs[i + 1] == cs[1..][i];
        }
      }
      FindConversation(cs[1..], id)
  }

  /** `get_by_id`: the conversation's view, or `None` for an unknown id. */
  function GetById(cs: seq<ConversationRow>, ps: seq<ParticipantRow>, ms: seq<MessageRow>, id: Id): (r: Option<ConversationResponse>)
    ensures r.None? <==> !HasConversation(cs, id)
    ensures r.Some? ==> r.value.id == id && exists c :: c in cs && c.id == id && r.value == ToResponse(c, ps, ms)
  {
    match FindConversation(cs, id)
    case None => None
    case Some(c) => Some(ToResponse(c, ps, ms))
  }

  /** The conversations that have `address` as a participant, in table
      order. */
  function WithParticipant(cs: seq<ConversationRow>, ps: seq<ParticipantRow>, address: string): (r: seq<ConversationRow>)
    ensures forall c :: c in r <==> c in cs && address in AddressesOf(ps, c.id)
    ensures |r| <= |cs|
  {
    if cs == [] then []
    else
      assert forall c :: c in cs <==> c == cs[0] || c in cs[1..];
      (if address in AddressesOf(ps, cs[0].id) then [cs[0]] else []) + WithParticipant(cs[1..], ps, address)
  }

  /** SQL `OFFSET offset LIMIT limit`; an absent bound does not apply. */
  function Page<T>(s: seq<T>, limit: Option<nat>, offset: Option<nat>): (r: seq<T>)
    ensures var skip := offset.GetOr(0);
      && (skip >= |s| ==> r == [])
      && (skip < |s| ==> |r| == (if limit.Some? && limit.value < |s| - skip then limit.value else |s| - skip))
      && (forall i :: 0 <= i < |r| ==> skip + i < |s| && r[i] == s[skip + i])
  {
    var skip := offset.GetOr(0);
    var rest := if skip >= |s| then [] else s[skip..];
    if limit.Some? && limit.value < |rest| then rest[..limit.value] else rest
  }

  /** The views of a list of conversations. */
  function Responses(cs: seq<ConversationRow>, ps: seq<ParticipantRow>, ms: seq<MessageRow>): (r: seq<ConversationResponse>)
    ensures |r| == |cs|
    ensures forall i :: 0 <= i < |cs| ==> r[i] == ToResponse(cs[i], ps, ms)
  {
    if cs == [] then [] else [ToResponse(cs[0], ps, ms)] + Responses(cs[1..], ps, ms)
  }

  /** Newest first. */
  function NegCreatedAt(c: ConversationRow): int {
    -c.createdAt
  }

  /** The conversations `list_conversations` selects before paging: those
      with the participant, when a non-empty one is given, newest first. */
  function Selected(cs: seq<ConversationRow>, ps: seq<ParticipantRow>, participant: Option<string>): (r: seq<ConversationRow>)
    ensures forall i, j :: 0 <= i < j < |r| ==> r[i].createdAt >= r[j].createdAt
    ensures participant.Some? && participant.value != "" ==> multiset(r) == multiset(WithParticipant(cs, ps, participant.value))
    ensures !(participant.Some? && participant.value != "") ==> multiset(r) == multiset(cs)
  {
    var filtered := if participant.Some? && participant.value != "" then WithParticipant(cs, ps, participant.value) else cs;
    var r := SortByKey(filtered, NegCreatedAt);
    assert forall i, j :: 0 <= i < j < |r| ==> NegCreatedAt(r[i]) <= NegCreatedAt(r[j]);
    r
  }

  /** `list_conversations`: filtered by participant, ordered by creation
      time descending, then paged. */
  function ListConversations(cs: seq<ConversationRow>, ps: seq<ParticipantRow>, ms: seq<MessageRow>,
                             limit: Option<nat>, offset: Option<nat>, participant: Option<string>): (r: seq<ConversationResponse>)
    ensures limit.Some? ==> |r| <= limit.value
    ensures forall i, j :: 0 <= i < j < |r| ==> r[i].createdAt >= r[j].createdAt
    ensures forall i :: 0 <= i < |r| ==> exists c :: c in cs && r[i] == ToResponse(c, ps, ms)
    ensures participant.Some? && participant.value != "" ==>
      forall i :: 0 <= i < |r| ==> participant.value in r[i].participants
    ensures var n := |Selected(cs, ps, participant)|; var skip := offset.GetOr(0);
      |r| == if skip >= n then 0 else if limit.Some? && limit.value < n - skip then limit.value else n - skip
  {
    var selected := Selected(cs, ps, participant);
    var page := Page(selected, limit, offset);
    var r := Responses(page, ps, ms);
    forall i | 0 <= i < |r|
      ensures exists c :: c in cs && r[i] == ToResponse(c, ps, ms)
      ensures participant.Some? && participant.value != "" ==> participant.value in r[i].participants
    {
      assert page[i] == selected[offset.GetOr(0) + i];
      ListedFromStore(cs, ps, participant, page[i]);
    }
    r
  }

  lemma ListedFromStore(cs: seq<ConversationRow>, ps: seq<ParticipantRow>, participant: Option<string>, c: ConversationRow)
    requires c in Selected(cs, ps, participant)
    ensures c in cs
    ensures participant.Some? && participant.value != "" ==> participant.value in AddressesOf(ps, c.id)
  {
    assert c in multiset(Selected(cs, ps, participant));
  }

  /** Without paging and filter every stored conversation is listed. */
  lemma ListAll(cs: seq<ConversationRow>, ps: seq<ParticipantRow>, ms: seq<MessageRow>, c: ConversationRow)
    requires c in cs
    ensures ToResponse(c, ps, ms) in ListConversations(cs, ps, ms, None, None, None)
  {
    var selected := Selected(cs, ps, None);
    assert c in multiset(selected);
    var k :| 0 <= k < |selected| && selected[k] == c;
    assert ListConversations(cs, ps, ms, None, None, None)[k] == ToResponse(c, ps, ms);
  }
}
