/** `ListConversationsService` (app/services/list_conversations_service.py):
    parameter checks and defaults in front of the repository's listing, and
    the summary of one conversation. */
module ListConversationsService {
  import opened Wrappers
  import opened Models
  import opened Database
  import opened Text
  import ConversationRepository

  /** The `ValueError` the service raises, with its message. */
  datatype ServiceError = ValueError(message: string)

  const DefaultLimit: nat := 50
  const DefaultOffset: nat := 0

  /** The limit check: absent, or between 1 and 1000. */
  predicate LimitOk(limit: Option<int>) {
    limit.None? || (1 <= limit.value <= 1000)
  }

  predicate OffsetOk(offset: Option<int>) {
    offset.None? || offset.value >= 0
  }

  /** `list_conversations`: the limit is checked before the offset; an
      absent limit is 50 and an absent offset 0; the participant filter is
      passed through as given. */
  function ListConversations(cs: seq<ConversationRow>, ps: seq<ParticipantRow>, ms: seq<MessageRow>,
                             limit: Option<int>, offset: Option<int>, participant: Option<string>)
    : (r: Result<seq<ConversationResponse>, ServiceError>)
    ensures !LimitOk(limit) ==> r == Failure(ValueError("Limit must be between 1 and 1000"))
    ensures LimitOk(limit) && !OffsetOk(offset) ==> r == Failure(ValueError("Offset must be non-negative"))
    ensures r.Success? <==> LimitOk(limit) && OffsetOk(offset)
    ensures r.Success? ==>
      r.value == ConversationRepository.ListConversations(
        cs, ps, ms, Some(limit.GetOr(DefaultLimit) as nat), Some(offset.GetOr(DefaultOffset) as nat), participant)
    ensures r.Success? ==> |r.value| <= limit.GetOr(DefaultLimit) <= 1000
  {
    if !LimitOk(limit) then Failure(ValueError("Limit must be between 1 and 1000"))
    else if !OffsetOk(offset) then Failure(ValueError("Offset must be non-negative"))
    else
      var l: nat := limit.GetOr(DefaultLimit);
      var o: nat := offset.GetOr(DefaultOffset);
      Success(ConversationRepository.ListConversations(cs, ps, ms, Some(l), Some(o), participant))
  }

  /** Leaving out the limit and the offset is passing 50 and 0. */
  lemma DefaultsAreFiftyAndZero(cs: seq<ConversationRow>, ps: seq<ParticipantRow>, ms: seq<MessageRow>, participant: Option<string>)
    ensures ListConversations(cs, ps, ms, None, None, participant)
         == ListConversations(cs, ps, ms, Some(50), Some(0), participant)
  {
  }

  /** With no filter and at most 50 stored conversations, the default page
      lists every one of them. */
  lemma SmallStoreListedWhole(cs: seq<ConversationRow>, ps: seq<ParticipantRow>, ms: seq<MessageRow>, c: ConversationRow)
    requires |cs| <= 50 && c in cs
    ensures ListConversations(cs, ps, ms, None, None, None).Success?
    ensures ConversationRepository.ToResponse(c, ps, ms) in ListConversations(cs, ps, ms, None, None, None).value
  {
    var selected := ConversationRepository.Selected(cs, ps, None);
    var listed := ConversationRepository.ListConversations(cs, ps, ms, Some(50), Some(0), None);
    assert ListConversations(cs, ps, ms, None, None, None) == Success(listed);
    DefaultPageIsAll(cs, ps, ms);
    var k := IndexOf(selected, c);
    assert listed[k] == ConversationRepository.ToResponse(c, ps, ms);
  }

  /** A position of an element of a rearrangement of a list holding it. */
  lemma IndexOf(s: seq<ConversationRow>, c: ConversationRow) returns (k: nat)
    requires c in multiset(s)
    ensures k < |s| && s[k] == c
  {
    k :| 0 <= k < |s| && s[k] == c;
  }

  /** With no filter and at most 50 stored conversations, the first page of
      50 holds the views of all of them, newest first. */
  lemma DefaultPageIsAll(cs: seq<ConversationRow>, ps: seq<ParticipantRow>, ms: seq<MessageRow>)
    requires |cs| <= 50
    ensures ConversationRepository.ListConversations(cs, ps, ms, Some(50), Some(0), None)
         == ConversationRepository.Responses(ConversationRepository.Selected(cs, ps, None), ps, ms)
  {
    var selected := ConversationRepository.Selected(cs, ps, None);
    assert |selected| == |cs| by {
      assert |selected| == |multiset(selected)| == |multiset(cs)| == |cs|;
    }
    WholePage(selected);
  }

  /** A page of 50 from the start of a list of at most 50 is the list. */
  lemma WholePage<T>(s: seq<T>)
    requires |s| <= 50
    ensures ConversationRepository.Page(s, Some(50), Some(0)) == s
  {
    assert s[0..] == s;
  }

  /** The message of the not-found error, with the id written in decimal. */
  function NotFoundMessage(id: Id): (m: string)
    ensures StartsWith(m, "Conversation with ID ")
  {
    "Conversation with ID " + NatToDecimal(id) + " not found"
  }

  /** `get_conversation_summary`: the conversation's view, or a `ValueError`
      naming the id. */
  function GetConversationSummary(cs: seq<ConversationRow>, ps: seq<ParticipantRow>, ms: seq<MessageRow>, id: Id)
    : (r: Result<ConversationResponse, ServiceError>)
    ensures r.Failure? <==> !HasConversation(cs, id)
    ensures r.Failure? ==> r.error == ValueError(NotFoundMessage(id))
    ensures r.Success? ==> r.value.id == id && exists c :: c in cs && c.id == id && r.value == ConversationRepository.ToResponse(c, ps, ms)
  {
    match ConversationRepository.GetById(cs, ps, ms, id)
    case None => Failure(ValueError(NotFoundMessage(id)))
    case Some(c) => Success(c)
  }

  /** Different unknown ids give different messages. */
  lemma NotFoundMessagesDiffer(a: Id, b: Id)
    requires a != b
    ensures NotFoundMessage(a) != NotFoundMessage(b)
  {
    var ma, mb := NotFoundMessage(a), NotFoundMessage(b);
    assert ma[21..|ma| - 10] == NatToDecimal(a);
    assert mb[21..|mb| - 10] == NatToDecimal(b);
  }
}
