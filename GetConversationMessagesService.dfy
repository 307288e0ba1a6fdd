/** `GetConversationMessagesService`
    (app/services/get_conversation_messages_service.py): parameter checks
    and defaults, the conversation's existence, then the messages; and the
    details of one message. */
module GetConversationMessagesService {
  import opened Wrappers
  import opened Models
  import opened Database
  import ConversationRepository
  import MessageRepository

  /** An `HTTPException` with its status and detail, or the
      `AttributeError` of a repository method that does not exist. */
  datatype ServiceError = HttpError(status: int, detail: string) | MissingRepositoryMethod(name: string)

  const DefaultLimit: nat := 100
  const DefaultOffset: nat := 0

  predicate LimitOk(limit: Option<int>) {
    limit.None? || (1 <= limit.value <= 1000)
  }

  predicate OffsetOk(offset: Option<int>) {
    offset.None? || offset.value >= 0
  }

  predicate DirectionOk(direction: Option<string>) {
    direction.None? || direction.value in {"inbound", "outbound"}
  }

  /** The parameter checks, in the order the service makes them. */
  function CheckParameters(limit: Option<int>, offset: Option<int>, direction: Option<string>): (r: Result<(), ServiceError>)
    ensures r.Success? <==> LimitOk(limit) && OffsetOk(offset) && DirectionOk(direction)
    ensures !LimitOk(limit) ==> r == Failure(HttpError(400, "Limit must be between 1 and 1000"))
    ensures LimitOk(limit) && !OffsetOk(offset) ==> r == Failure(HttpError(400, "Offset must be non-negative"))
    ensures LimitOk(limit) && OffsetOk(offset) && !DirectionOk(direction) ==>
      r == Failure(HttpError(400, "Direction must be 'inbound', 'outbound', or None"))
  {
    if !LimitOk(limit) then Failure(HttpError(400, "Limit must be between 1 and 1000"))
    else if !OffsetOk(offset) then Failure(HttpError(400, "Offset must be non-negative"))
    else if !DirectionOk(direction) then Failure(HttpError(400, "Direction must be 'inbound', 'outbound', or None"))
    else Success(())
  }

  /** `get_conversation_messages` as written: after the checks and the
      existence test it calls `message_repo.get_by_conversation_id`, which
      `MessageRepository` does not define, so no call ever returns messages. */
  function GetConversationMessagesAsWritten(cs: seq<ConversationRow>, ps: seq<ParticipantRow>, ms: seq<MessageRow>,
                                            cid: Id, limit: Option<int>, offset: Option<int>, direction: Option<string>)
    : (r: Result<seq<MessageResponse>, ServiceError>)
    ensures r.Failure?
    ensures CheckParameters(limit, offset, direction).Failure? ==> r.error == CheckParameters(limit, offset, direction).error
    ensures CheckParameters(limit, offset, direction).Success? && !HasConversation(cs, cid) ==>
      r.error == HttpError(404, "Conversation not found")
    ensures CheckParameters(limit, offset, direction).Success? && HasConversation(cs, cid) ==>
      r.error == MissingRepositoryMethod("get_by_conversation_id")
  {
    var _ :- CheckParameters(limit, offset, direction);
    if ConversationRepository.GetById(cs, ps, ms, cid).None? then Failure(HttpError(404, "Conversation not found"))
    else Failure(MissingRepositoryMethod("get_by_conversation_id"))
  }

  /** `r` is `xs` with some elements left out, the others in their order. */
  ghost predicate Subsequence(r: seq<MessageResponse>, xs: seq<MessageResponse>)
    decreases |xs|
  {
    r == [] || (xs != [] && ((r[0] == xs[0] && Subsequence(r[1..], xs[1..])) || Subsequence(r, xs[1..])))
  }

  /** The messages of a list that have the given direction; all of them when
      no direction is given. Order is kept. */
  function WithDirection(xs: seq<MessageResponse>, direction: Option<string>): (r: seq<MessageResponse>)
    ensures |r| <= |xs|
    ensures forall x :: x in r <==> x in xs && (direction.None? || x.direction == direction.value)
    ensures Subsequence(r, xs)
  {
    if xs == [] then []
    else
      assert forall x :: x in xs <==> x == xs[0] || x in xs[1..];
      var rest := WithDirection(xs[1..], direction);
      var head := if direction.None? || xs[0].direction == direction.value then [xs[0]] else [];
      assert head != [] ==> (head + rest)[0] == xs[0] && (head + rest)[1..] == rest;
      assert head == [] ==> head + rest == rest;
      head + rest
  }

  predicate OldestFirst(xs: seq<MessageResponse>) {
    forall i, j :: 0 <= i < j < |xs| ==> xs[i].messageTimestamp <= xs[j].messageTimestamp
  }

  /** Selecting by direction keeps a list oldest first. */
  lemma {:induction false} WithDirectionOldestFirst(xs: seq<MessageResponse>, direction: Option<string>)
    requires OldestFirst(xs)
    ensures OldestFirst(WithDirection(xs, direction))
  {
    if xs != [] {
      var tail := xs[1..];
      assert OldestFirst(tail) by {
        forall i, j | 0 <= i < j < |tail| ensures tail[i].messageTimestamp <= tail[j].messageTimestamp {
          assert tail[i] == xs[i + 1] && tail[j] == xs[j + 1];
        }
      }
      WithDirectionOldestFirst(tail, direction);
      var rest := WithDirection(tail, direction);
      forall k | 0 <= k < |rest| ensures xs[0].messageTimestamp <= rest[k].messageTimestamp {
        assert rest[k] in tail;
        var n :| 0 <= n < |tail| && tail[n] == rest[k];
        assert xs[n + 1] == rest[k];
      }
      var head := if direction.None? || xs[0].direction == direction.value then [xs[0]] else [];
      HeadThenOldestFirst(head, rest);
    }
  }

  /** At most one message followed by an oldest-first list of messages no
      older than it is oldest first. */
  lemma HeadThenOldestFirst(head: seq<MessageResponse>, rest: seq<MessageResponse>)
    requires |head| <= 1 && OldestFirst(rest)
    requires head != [] ==> forall k :: 0 <= k < |rest| ==> head[0].messageTimestamp <= rest[k].messageTimestamp
    ensures OldestFirst(head + rest)
  {
    var s := head + rest;
    forall i, j | 0 <= i < j < |s| ensures s[i].messageTimestamp <= s[j].messageTimestamp {
      if head != [] {
        assert s[j] == rest[j - 1];
        if i > 0 {
          assert s[i] == rest[i - 1];
        }
      } else {
        assert s[i] == rest[i] && s[j] == rest[j];
      }
    }
  }

  /** The lookup the services evidently meant by `get_by_conversation_id`:
      the conversation's messages in `get_by_conversation`'s order (oldest
      first), those of the requested direction, then the page. */
  function MessagesPage(ms: seq<MessageRow>, cid: Id, limit: nat, offset: nat, direction: Option<string>)
    : (r: seq<MessageResponse>)
    ensures |r| <= limit
    ensures forall i :: 0 <= i < |r| ==>
      && r[i].conversationId == cid
      && (direction.None? || r[i].direction == direction.value)
      && exists m :: m in ms && r[i] == MessageRepository.ToResponse(m)
    ensures forall i, j :: 0 <= i < j < |r| ==> r[i].messageTimestamp <= r[j].messageTimestamp
    ensures offset == 0 && |MessageRepository.GetByConversation(ms, cid)| <= limit ==>
      forall m :: m in ms && m.conversationId == cid && (direction.None? || m.direction == direction.value) ==>
        MessageRepository.ToResponse(m) in r
  {
    var selected := WithDirection(MessageRepository.GetByConversation(ms, cid), direction);
    PageContents(ms, cid, limit, offset, direction);
    PageOrder(ms, cid, limit, offset, direction);
    PageComplete(ms, cid, limit, offset, direction);
    ConversationRepository.Page(selected, Some(limit), Some(offset))
  }

  /** The page holds stored messages of the conversation and direction. */
  lemma PageContents(ms: seq<MessageRow>, cid: Id, limit: nat, offset: nat, direction: Option<string>)
    ensures var r := ConversationRepository.Page(WithDirection(MessageRepository.GetByConversation(ms, cid), direction), Some(limit), Some(offset));
      forall i :: 0 <= i < |r| ==>
        && r[i].conversationId == cid
        && (direction.None? || r[i].direction == direction.value)
        && exists m :: m in ms && r[i] == MessageRepository.ToResponse(m)
  {
    var selected := WithDirection(MessageRepository.GetByConversation(ms, cid), direction);
    var r := ConversationRepository.Page(selected, Some(limit), Some(offset));
    PageOfSelected(ms, cid, selected, r);
  }

  /** The page is oldest first. */
  lemma PageOrder(ms: seq<MessageRow>, cid: Id, limit: nat, offset: nat, direction: Option<string>)
    ensures OldestFirst(ConversationRepository.Page(WithDirection(MessageRepository.GetByConversation(ms, cid), direction), Some(limit), Some(offset)))
  {
    var all := MessageRepository.GetByConversation(ms, cid);
    WithDirectionOldestFirst(all, direction);
    PageOldestFirst(WithDirection(all, direction), limit, offset);
  }

  /** From the start, a limit the conversation's messages fit in lists all
      of those with the direction. */
  lemma PageComplete(ms: seq<MessageRow>, cid: Id, limit: nat, offset: nat, direction: Option<string>)
    ensures offset == 0 && |MessageRepository.GetByConversation(ms, cid)| <= limit ==>
      forall m :: m in ms && m.conversationId == cid && (direction.None? || m.direction == direction.value) ==>
        MessageRepository.ToResponse(m) in ConversationRepository.Page(WithDirection(MessageRepository.GetByConversation(ms, cid), direction), Some(limit), Some(offset))
  {
    var all := MessageRepository.GetByConversation(ms, cid);
    var selected := WithDirection(all, direction);
    AllOfDirectionSelected(ms, cid, direction);
    assert offset == 0 && |all| <= limit ==> ConversationRepository.Page(selected, Some(limit), Some(offset)) == selected;
  }

  /** A page of an oldest-first list is oldest first. */
  lemma PageOldestFirst(xs: seq<MessageResponse>, limit: nat, offset: nat)
    requires OldestFirst(xs)
    ensures OldestFirst(ConversationRepository.Page(xs, Some(limit), Some(offset)))
  {
    var r := ConversationRepository.Page(xs, Some(limit), Some(offset));
    forall i, j | 0 <= i < j < |r| ensures r[i].messageTimestamp <= r[j].messageTimestamp {
      assert r[i] == xs[offset + i] && r[j] == xs[offset + j];
    }
  }

  /** Every stored message of the conversation with the requested direction
      is among those selected. */
  lemma AllOfDirectionSelected(ms: seq<MessageRow>, cid: Id, direction: Option<string>)
    ensures forall m :: m in ms && m.conversationId == cid && (direction.None? || m.direction == direction.value) ==>
      MessageRepository.ToResponse(m) in WithDirection(MessageRepository.GetByConversation(ms, cid), direction)
  {
    var all := MessageRepository.GetByConversation(ms, cid);
    forall m | m in ms && m.conversationId == cid && (direction.None? || m.direction == direction.value)
      ensures MessageRepository.ToResponse(m) in WithDirection(all, direction)
    {
      assert MessageRepository.ToResponse(m) in all;
    }
  }

  /** Every message of a part of the conversation's listing is a stored
      message of that conversation. */
  lemma PageOfSelected(ms: seq<MessageRow>, cid: Id, selected: seq<MessageResponse>, r: seq<MessageResponse>)
    requires forall x :: x in selected ==> x in MessageRepository.GetByConversation(ms, cid)
    requires forall x :: x in r ==> x in selected
    ensures forall i :: 0 <= i < |r| ==>
      r[i].conversationId == cid && exists m :: m in ms && r[i] == MessageRepository.ToResponse(m)
  {
    forall i | 0 <= i < |r|
      ensures r[i].conversationId == cid
      ensures exists m :: m in ms && r[i] == MessageRepository.ToResponse(m)
    {
      assert r[i] in selected;
      var m :| m in ms && m.conversationId == cid && r[i] == MessageRepository.ToResponse(m);
    }
  }

  /** `get_conversation_messages` with `get_by_conversation_id` as above:
      the checks in order, then 404 for an unknown conversation, then the
      page of messages with limit 100 and offset 0 when they are absent. */
  function GetConversationMessages(cs: seq<ConversationRow>, ps: seq<ParticipantRow>, ms: seq<MessageRow>,
                                   cid: Id, limit: Option<int>, offset: Option<int>, direction: Option<string>)
    : (r: Result<seq<MessageResponse>, ServiceError>)
    ensures CheckParameters(limit, offset, direction).Failure? ==> r == Failure(CheckParameters(limit, offset, direction).error)
    ensures CheckParameters(limit, offset, direction).Success? && !HasConversation(cs, cid) ==>
      r == Failure(HttpError(404, "Conversation not found"))
    ensures r.Success? <==> CheckParameters(limit, offset, direction).Success? && HasConversation(cs, cid)
    ensures r.Success? ==>
      r.value == MessagesPage(ms, cid, limit.GetOr(DefaultLimit) as nat, offset.GetOr(DefaultOffset) as nat, direction)
  {
    var _ :- CheckParameters(limit, offset, direction);
    if ConversationRepository.GetById(cs, ps, ms, cid).None? then Failure(HttpError(404, "Conversation not found"))
    else
      var l: nat := limit.GetOr(DefaultLimit);
      var o: nat := offset.GetOr(DefaultOffset);
      Success(MessagesPage(ms, cid, l, o, direction))
  }

  /** The intended service and the one written agree on every error they
      report before the missing call, and differ exactly where the written
      one reaches it. */
  lemma AsWrittenDiffersOnlyAtTheQuery(cs: seq<ConversationRow>, ps: seq<ParticipantRow>, ms: seq<MessageRow>,
                                       cid: Id, limit: Option<int>, offset: Option<int>, direction: Option<string>)
    ensures GetConversationMessages(cs, ps, ms, cid, limit, offset, direction).Failure? <==>
            GetConversationMessagesAsWritten(cs, ps, ms, cid, limit, offset, direction).error
              != MissingRepositoryMethod("get_by_conversation_id")
    ensures GetConversationMessages(cs, ps, ms, cid, limit, offset, direction).Failure? ==>
            GetConversationMessages(cs, ps, ms, cid, limit, offset, direction)
              == GetConversationMessagesAsWritten(cs, ps, ms, cid, limit, offset, direction)
  {
  }

  /** `get_message_details`: the message, or 404 "Message not found". */
  function GetMessageDetails(ms: seq<MessageRow>, id: Id): (r: Result<MessageResponse, ServiceError>)
    ensures r.Failure? <==> forall m :: m in ms ==> m.id != id
    ensures r.Failure? ==> r.error == HttpError(404, "Message not found")
    ensures r.Success? ==> r.value.id == id && exists m :: m in ms && r.value == MessageRepository.ToResponse(m)
  {
    match MessageRepository.GetById(ms, id)
    case None => Failure(HttpError(404, "Message not found"))
    case Some(m) => Success(m)
  }
}
