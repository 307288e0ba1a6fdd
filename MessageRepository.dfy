/** `MessageRepository` (app/repositories/message_repository.py, with the
    `create`, `get_by_id` and `update` it inherits from
    app/repositories/base_repository.py): the conversions between stored rows
    and API records, the status update, and the read filters. */
module MessageRepository {
  import opened Wrappers
  import opened Models
  import opened Database
  import opened Sorting

  /** `_to_pydantic`: every column copied; a null `attachments` reads as []. */
  function ToResponse(m: MessageRow): MessageResponse {
    MessageResponse(
      m.id, m.conversationId, m.providerType, m.providerMessageId,
      m.fromAddress, m.toAddress, m.body, m.attachments.GetOr([]),
      m.direction, m.status, m.messageTimestamp, m.createdAt, m.updatedAt)
  }

  /** `_from_pydantic`: every field copied into a row. */
  function FromResponse(r: MessageResponse): MessageRow {
    MessageRow(
      r.id, r.conversationId, r.providerType, r.providerMessageId,
      r.fromAddress, r.toAddress, r.body, Some(r.attachments),
      r.direction, r.status, r.messageTimestamp, r.createdAt, r.updatedAt)
  }

  /** Storing a record and reading it back gives the same record. */
  lemma ResponseRoundTrip(x: MessageResponse)
    ensures ToResponse(FromResponse(x)) == x
  {
  }

  /** Reading a row and storing it back gives the same row exactly when its
      attachments are not null; a null becomes []. */
  lemma RowRoundTrip(m: MessageRow)
    ensures FromResponse(ToResponse(m)) == m <==> m.attachments.Some?
    ensures FromResponse(ToResponse(m)) == m.(attachments := Some(m.attachments.GetOr([])))
  {
  }

  /** The views of a list of rows, in order. */
  function Views(ms: seq<MessageRow>): (r: seq<MessageResponse>)
    ensures |r| == |ms|
    ensures forall i :: 0 <= i < |ms| ==> r[i] == ToResponse(ms[i])
  {
    if ms == [] then [] else [ToResponse(ms[0])] + Views(ms[1..])
  }

  /** `create`: the record's row is inserted and read back. */
  method Create(db: Db, x: MessageResponse) returns (r: Result<MessageResponse, StoreError>)
    requires db.Valid()
    modifies db
    ensures db.Valid()
    ensures r.Success? <==>
      && MessageConstraints(old(db.conversations), FromResponse(x))
      && (forall m :: m in old(db.messages) ==> m.id != x.id)
    ensures r.Success? ==> r.value == x && db.messages == old(db.messages) + [FromResponse(x)]
    ensures r.Failure? ==> db.messages == old(db.messages)
    ensures AllowedDirection(x.direction) && AllowedProviderType(x.providerType) && !AllowedStatus(x.status) ==>
      r == Failure(CheckViolation("status"))
    ensures db.conversations == old(db.conversations) && db.participants == old(db.participants)
  {
    var inserted := db.InsertMessage(FromResponse(x));
    match inserted
    case Success(row) =>
      ResponseRoundTrip(x);
      r := Success(ToResponse(row));
    case Failure(e) =>
      r := Failure(e);
  }

  /** The position of the row with that id. */
  function FindMessage(ms: seq<MessageRow>, id: Id): (r: Option<nat>)
    ensures r.None? <==> forall m :: m in ms ==> m.id != id
    ensures r.Some? ==> r.value < |ms| && ms[r.value].id == id
  {
    if ms == [] then None
    else if ms[0].id == id then Some(0)
    else
      assert forall m :: m in ms ==> m == ms[0] || m in ms[1..];
      match FindMessage(ms[1..], id)
      case None => None
      case Some(k) => Some(k + 1)
  }

  /** `get_by_id`. */
  function GetById(ms: seq<MessageRow>, id: Id): (r: Option<MessageResponse>)
    ensures r.None? <==> forall m :: m in ms ==> m.id != id
    ensures r.Some? ==> exists m :: m in ms && m.id == id && r.value == ToResponse(m)
  {
    match FindMessage(ms, id)
    case None => None
    case Some(i) => Some(ToResponse(ms[i]))
  }

  /** The row `update_status` writes back: `update` sets every column to the
      value of the record read through `_to_pydantic` with the new status
      (so a null `attachments` becomes []), and when some column really
      changes the `onupdate` of `updated_at` stamps the time of the update. */
  function StatusUpdated(m: MessageRow, status: string, now: Timestamp): (u: MessageRow)
    ensures u.(status := m.status, attachments := m.attachments, updatedAt := m.updatedAt) == m
    ensures u.status == status && u.attachments == Some(m.attachments.GetOr([]))
    ensures u == m <==> m.status == status && m.attachments.Some?
    ensures u != m ==> u.updatedAt == now
  {
    var target := FromResponse(ToResponse(m).(status := status));
    if target == m then m else target.(updatedAt := now)
  }

  /** `update_status`: `None` for an unknown id with nothing written; else
      the message re-read after the update. A status outside the CHECK
      constraint makes the update fail and leaves the table as it was. */
  method UpdateStatus(db: Db, id: Id, status: string, now: Timestamp) returns (r: Result<Option<MessageResponse>, StoreError>)
    requires db.Valid()
    modifies db
    ensures db.Valid()
    ensures db.conversations == old(db.conversations) && db.participants == old(db.participants)
    ensures FindMessage(old(db.messages), id).None? ==> r == Success(None) && db.messages == old(db.messages)
    ensures FindMessage(old(db.messages), id).Some? ==>
      var i := FindMessage(old(db.messages), id).value;
      var u := StatusUpdated(old(db.messages)[i], status, now);
      && (u == old(db.messages)[i] ==> r == Success(Some(ToResponse(u))) && db.messages == old(db.messages))
      && (u != old(db.messages)[i] && !AllowedStatus(status) ==>
            r == Failure(CheckViolation("status")) && db.messages == old(db.messages))
      && (u != old(db.messages)[i] && AllowedStatus(status) ==>
            r == Success(Some(ToResponse(u))) && db.messages == old(db.messages)[i := u])
  {
    var found := FindMessage(db.messages, id);
    if found.None? {
      return Success(None);
    }
    var i := found.value;
    var m := db.messages[i];
    var u := StatusUpdated(m, status, now);
    if u == m {
      return Success(Some(ToResponse(m)));
    }
    assert MessageConstraints(db.conversations, m);
    var updated := db.UpdateMessage(i, u);
    match updated
    case Success(row) =>
      r := Success(Some(ToResponse(row)));
    case Failure(e) =>
      r := Failure(e);
  }

  /** After a status update the message reads back with the new status; the
      other messages read back as before. */
  lemma UpdatedStatusReadsBack(ms: seq<MessageRow>, id: Id, status: string, now: Timestamp)
    requires DistinctMessageIds(ms) && FindMessage(ms, id).Some?
    ensures var i := FindMessage(ms, id).value;
      var updated := ms[i := StatusUpdated(ms[i], status, now)];
      && GetById(updated, id) == Some(ToResponse(StatusUpdated(ms[i], status, now)))
      && GetById(updated, id).value.status == status
      && forall other :: other != id ==> GetById(updated, other) == GetById(ms, other)
  {
    var i := FindMessage(ms, id).value;
    var u := StatusUpdated(ms[i], status, now);
    var updated := ms[i := u];
    FindMessageAt(updated, id, i);
    forall other | other != id ensures GetById(updated, other) == GetById(ms, other) {
      FindMessageUpdate(ms, i, u, other);
    }
  }

  lemma {:induction false} FindMessageAt(ms: seq<MessageRow>, id: Id, i: nat)
    requires DistinctMessageIds(ms) && i < |ms| && ms[i].id == id
    ensures FindMessage(ms, id) == Some(i)
  {
    if i > 0 {
      assert DistinctMessageIds(ms[1..]) by {
        forall a, b | 0 <= a < b < |ms[1..]| ensures ms[1..][a].id != ms[1..][b].id {
          assert ms[1..][a] == ms[a + 1] && ms[1..][b] == ms[b + 1];
        }
      }
      assert ms[0].id != id;
      FindMessageAt(ms[1..], id, i - 1);
    }
  }

  /** Replacing a row by one with the same id does not move any other id. */
  lemma {:induction false} FindMessageUpdate(ms: seq<MessageRow>, i: nat, u: MessageRow, other: Id)
    requires i < |ms| && u.id == ms[i].id && other != u.id
    ensures FindMessage(ms[i := u], other) == FindMessage(ms, other)
    ensures FindMessage(ms, other).Some? ==> FindMessage(ms, other).value != i
  {
    if ms != [] && i > 0 {
      assert ms[i := u][1..] == ms[1..][i - 1 := u];
      FindMessageUpdate(ms[1..], i - 1, u, other);
    }
  }

  /** `get_by_status`: every message with that status, in table order. */
  function GetByStatus(ms: seq<MessageRow>, status: string): (r: seq<MessageResponse>)
    ensures forall x :: x in r <==> exists m :: m in ms && m.status == status && x == ToResponse(m)
    ensures forall x :: x in r ==> x.status == status
    ensures |r| <= |ms|
  {
    if ms == [] then []
    else
      assert forall m :: m in ms <==> m == ms[0] || m in ms[1..];
      (if ms[0].status == status then [ToResponse(ms[0])] else []) + GetByStatus(ms[1..], status)
  }

  /** Two lists with the same elements have the same views. */
  lemma ViewOfSameElements(a: seq<MessageRow>, b: seq<MessageRow>, x: MessageResponse)
    requires multiset(a) == multiset(b)
    ensures x in Views(a) <==> exists m :: m in b && x == ToResponse(m)
  {
    if x in Views(a) {
      var i :| 0 <= i < |a| && Views(a)[i] == x;
      assert a[i] in multiset(b);
    }
    if exists m :: m in b && x == ToResponse(m) {
      var m :| m in b && x == ToResponse(m);
      assert m in multiset(a);
      var i :| 0 <= i < |a| && a[i] == m;
      assert Views(a)[i] == x;
    }
  }

  function TimestampKey(m: MessageRow): int {
    m.messageTimestamp
  }

  /** The views of a list ordered by timestamp are ordered by timestamp. */
  lemma SortedViewsOrdered(sorted: seq<MessageRow>)
    requires SortedByKey(sorted, TimestampKey)
    ensures forall i, j :: 0 <= i < j < |Views(sorted)| ==> Views(sorted)[i].messageTimestamp <= Views(sorted)[j].messageTimestamp
  {
    forall i, j | 0 <= i < j < |Views(sorted)|
      ensures Views(sorted)[i].messageTimestamp <= Views(sorted)[j].messageTimestamp
    {
      assert TimestampKey(sorted[i]) <= TimestampKey(sorted[j]);
    }
  }

  /** A rearrangement of a conversation's messages has as views exactly the
      views of that conversation's stored rows. */
  lemma ConversationViews(ms: seq<MessageRow>, cid: Id, sorted: seq<MessageRow>)
    requires multiset(sorted) == multiset(MessagesOf(ms, cid))
    ensures forall x :: x in Views(sorted) <==> exists m :: m in ms && m.conversationId == cid && x == ToResponse(m)
  {
    var own := MessagesOf(ms, cid);
    forall x ensures x in Views(sorted) <==> exists m :: m in ms && m.conversationId == cid && x == ToResponse(m) {
      ViewOfSameElements(sorted, own, x);
    }
  }

  /** `get_by_conversation`: the conversation's messages ordered by
      `message_timestamp`, oldest first. */
  function GetByConversation(ms: seq<MessageRow>, cid: Id): (r: seq<MessageResponse>)
    ensures |r| == |MessagesOf(ms, cid)|
    ensures forall x :: x in r <==> exists m :: m in ms && m.conversationId == cid && x == ToResponse(m)
    ensures forall i, j :: 0 <= i < j < |r| ==> r[i].messageTimestamp <= r[j].messageTimestamp
  {
    var sorted := SortByKey(MessagesOf(ms, cid), TimestampKey);
    SortedViewsOrdered(sorted);
    ConversationViews(ms, cid, sorted);
    Views(sorted)
  }
}
