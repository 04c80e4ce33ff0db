/**
 Outbound message records (packages/db/src/index.ts, recordOutboundDispatch): what a
 recorded dispatch may still become, over any run of dispatch results.
 */
module Outbound {
  import opened Common

  datatype Status = Blocked | QueuedForReview | DryRunRecorded | Sent

  datatype Proof = Proof(outboundMessageId: string, proofId: string, textHash: string)

  datatype Result = Result(status: Status, proof: Proof, deliveryId: Option<string>, errors: seq<string>)

  datatype Message = Message(idempotencyKey: string, details: string)

  datatype Record = Record(
    id: string, providerId: string, accountId: string, message: Message, status: Status, proof: Proof,
    deliveryId: Option<string>, errors: seq<string>, createdAt: int)

  datatype AuditEvent =
    | Recorded(id: string, status: Status)
    | Updated(id: string, previous: Status, status: Status)
    | HashMismatch(id: string, expected: string, received: string)

  datatype Outbox = Outbox(records: map<string, Record>, audit: seq<AuditEvent>)

  function Rank(status: Status): nat {
    match status
    case Blocked => 0
    case QueuedForReview => 1
    case DryRunRecorded => 2
    case Sent => 3
  }

  /** shouldUpdateOutboundDispatch. */
  predicate ShouldUpdate(current: Status, next: Status) {
    Rank(next) > Rank(current) || (current == QueuedForReview && next == Blocked)
  }

  datatype Dispatch = Dispatch(providerId: string, accountId: string, message: Message, result: Result, now: int)

  ghost predicate HasKey(outbox: Outbox, key: string) {
    exists id :: id in outbox.records && outbox.records[id].message.idempotencyKey == key
  }

  /** The record `find` returns. */
  ghost function IdFor(outbox: Outbox, key: string): (id: string)
    requires HasKey(outbox, key)
    ensures id in outbox.records && outbox.records[id].message.idempotencyKey == key
  {
    var id :| id in outbox.records && outbox.records[id].message.idempotencyKey == key;
    id
  }

  function NewRecord(dispatch: Dispatch): Record {
    Record(dispatch.result.proof.outboundMessageId, dispatch.providerId, dispatch.accountId, dispatch.message, dispatch.result.status,
           dispatch.result.proof, dispatch.result.deliveryId, dispatch.result.errors, dispatch.now)
  }

  /** An existing record changes only for the same text, and only to a status that should replace its own. */
  function UpdateAt(outbox: Outbox, id: string, result: Result): Outbox
    requires id in outbox.records
  {
    var existing := outbox.records[id];
    if existing.proof.textHash != result.proof.textHash then
      outbox.(audit := outbox.audit + [HashMismatch(id, existing.proof.textHash, result.proof.textHash)])
    else if ShouldUpdate(existing.status, result.status) then
      Outbox(outbox.records[id := existing.(status := result.status, proof := result.proof,
                                            deliveryId := result.deliveryId, errors := result.errors)],
             outbox.audit + [Updated(id, existing.status, result.status)])
    else outbox
  }

  ghost function RecordDispatch(outbox: Outbox, dispatch: Dispatch): Outbox {
    if HasKey(outbox, dispatch.message.idempotencyKey) then
      UpdateAt(outbox, IdFor(outbox, dispatch.message.idempotencyKey), dispatch.result)
    else
      var record := NewRecord(dispatch);
      Outbox(outbox.records[record.id := record], outbox.audit + [Recorded(record.id, record.status)])
  }

  class OutboundStore {
    var records: map<string, Record>
    var audit: seq<AuditEvent>

    constructor ()
      ensures Contents() == Outbox(map[], [])
    {
      records, audit := map[], [];
    }

    ghost function Contents(): Outbox
      reads this
    {
      Outbox(records, audit)
    }

    method RecordOutboundDispatch(dispatch: Dispatch) returns (record: Record)
      requires KeysAreUnique(Contents()) && forall id :: id in records ==> records[id].id == id
      modifies this
      ensures Contents() == RecordDispatch(old(Contents()), dispatch)
      ensures record.id in records && record == records[record.id] && record.message.idempotencyKey == dispatch.message.idempotencyKey
    {
      var result := dispatch.result;
      if id: string :| id in records && records[id].message.idempotencyKey == dispatch.message.idempotencyKey {
        var existing := records[id];
        if existing.proof.textHash != result.proof.textHash {
          audit := audit + [HashMismatch(id, existing.proof.textHash, result.proof.textHash)];
          return existing;
        }
        if ShouldUpdate(existing.status, result.status) {
          var updated := existing.(status := result.status, proof := result.proof, deliveryId := result.deliveryId, errors := result.errors);
          records := records[id := updated];
          audit := audit + [Updated(id, existing.status, result.status)];
        }
        return records[id];
      }
      record := NewRecord(dispatch);
      records := records[record.id := record];
      audit := audit + [Recorded(record.id, record.status)];
    }
  }

  // What one dispatch does

  /** A message may wait for its review again after a block, or be blocked again while it waits; a dry run can only be sent. */
  predicate Replaces(current: Status, next: Status) {
    match current
    case Blocked => next != Blocked
    case QueuedForReview => next != QueuedForReview
    case DryRunRecorded => next == Sent
    case Sent => false
  }

  /** A repeated dispatch leaves the record of its key, or gives it the new result, and says so; another text is only noted. */
  lemma RepeatedDispatchMeans(outbox: Outbox, dispatch: Dispatch, id: string)
    requires KeysAreUnique(outbox) && id in outbox.records && outbox.records[id].message.idempotencyKey == dispatch.message.idempotencyKey
    ensures var before, after, result := outbox.records[id], RecordDispatch(outbox, dispatch), dispatch.result;
            && after.records.Keys == outbox.records.Keys
            && (forall other :: other in outbox.records && other != id ==> after.records[other] == outbox.records[other])
            && (if result.proof.textHash != before.proof.textHash then
                  && after.records[id] == before
                  && after.audit == outbox.audit + [HashMismatch(id, before.proof.textHash, result.proof.textHash)]
                else if Replaces(before.status, result.status) then
                  && after.records[id] == Record(before.id, before.providerId, before.accountId, before.message, result.status,
                                                 result.proof, result.deliveryId, result.errors, before.createdAt)
                  && after.audit == outbox.audit + [Updated(id, before.status, result.status)]
                else after == outbox)
  {
    assert HasKey(outbox, dispatch.message.idempotencyKey) && IdFor(outbox, dispatch.message.idempotencyKey) == id;
  }

  /** A dispatch of a new key adds one record, and says so. */
  lemma FirstDispatchMeans(outbox: Outbox, dispatch: Dispatch)
    requires forall id :: id in outbox.records ==> outbox.records[id].message.idempotencyKey != dispatch.message.idempotencyKey
    ensures var after, result := RecordDispatch(outbox, dispatch), dispatch.result;
            var record := Record(result.proof.outboundMessageId, dispatch.providerId, dispatch.accountId, dispatch.message, result.status,
                                 result.proof, result.deliveryId, result.errors, dispatch.now);
            && after.records == outbox.records[result.proof.outboundMessageId := record]
            && after.audit == outbox.audit + [Recorded(record.id, record.status)]
  {
    assert !HasKey(outbox, dispatch.message.idempotencyKey);
  }

  // Runs

  /** Ids are hashes of idempotency keys, hence as distinct as the keys. */
  predicate IdIsKeyHash(dispatch: Dispatch) {
    dispatch.result.proof.outboundMessageId == "outbound_" + dispatch.message.idempotencyKey
  }

  ghost function After(dispatches: seq<Dispatch>): Outbox {
    if dispatches == [] then Outbox(map[], [])
    else RecordDispatch(After(dispatches[..|dispatches| - 1]), dispatches[|dispatches| - 1])
  }

  ghost predicate KeysAreUnique(outbox: Outbox) {
    forall left, right ::
      && left in outbox.records && right in outbox.records
      && outbox.records[left].message.idempotencyKey == outbox.records[right].message.idempotencyKey
      ==> left == right
  }

  ghost predicate IdsAreHashes(outbox: Outbox) {
    forall id :: id in outbox.records ==> outbox.records[id].id == id == "outbound_" + outbox.records[id].message.idempotencyKey
  }

  lemma HashesAreInjective(left: string, right: string)
    requires "outbound_" + left == "outbound_" + right
    ensures left == right
  {
    assert left == ("outbound_" + left)[|"outbound_"|..] && right == ("outbound_" + right)[|"outbound_"|..];
  }

  lemma {:induction false} OneRecordPerKey(dispatches: seq<Dispatch>)
    requires forall i :: 0 <= i < |dispatches| ==> IdIsKeyHash(dispatches[i])
    ensures IdsAreHashes(After(dispatches)) && KeysAreUnique(After(dispatches))
  {
    if dispatches != [] {
      OneRecordPerKey(dispatches[..|dispatches| - 1]);
      var last := dispatches[|dispatches| - 1];
      assert IdIsKeyHash(last);
    }
  }

  /** What never changes about a record. */
  predicate SameMessage(before: Record, after: Record) {
    && after.id == before.id && after.providerId == before.providerId && after.accountId == before.accountId
    && after.message == before.message && after.createdAt == before.createdAt && after.proof.textHash == before.proof.textHash
  }

  /** Either nothing happened to the record or it took one allowed step. */
  predicate Evolves(before: Record, after: Record) {
    after == before || (SameMessage(before, after) && Replaces(before.status, after.status))
  }

  lemma DispatchEvolves(outbox: Outbox, dispatch: Dispatch, id: string)
    requires IdsAreHashes(outbox) && IdIsKeyHash(dispatch) && id in outbox.records
    ensures id in RecordDispatch(outbox, dispatch).records
    ensures Evolves(outbox.records[id], RecordDispatch(outbox, dispatch).records[id])
  {
    if !HasKey(outbox, dispatch.message.idempotencyKey) && id == dispatch.result.proof.outboundMessageId {
      HashesAreInjective(outbox.records[id].message.idempotencyKey, dispatch.message.idempotencyKey);
    }
  }

  /** What a record may have become by any later time. */
  predicate MayBecome(before: Record, after: Record) {
    && SameMessage(before, after)
    && (before.status == Sent ==> after == before)
    && (before.status == DryRunRecorded ==> after == before || after.status == Sent)
    && (after.status == Blocked || after.status == QueuedForReview ==> before.status == Blocked || before.status == QueuedForReview)
  }

  lemma EvolvingComposes(first: Record, second: Record, third: Record)
    requires MayBecome(first, second) && Evolves(second, third)
    ensures MayBecome(first, third)
  {}

  /**
   A recorded text, its message and its date never change; a dry run can only become sent,
   and a sent record never changes again.
   */
  lemma {:induction false} RecordsOnlyAdvance(dispatches: seq<Dispatch>, i: nat, id: string)
    requires i <= |dispatches| && forall k :: 0 <= k < |dispatches| ==> IdIsKeyHash(dispatches[k])
    requires id in After(dispatches[..i]).records
    ensures id in After(dispatches).records
    ensures MayBecome(After(dispatches[..i]).records[id], After(dispatches).records[id])
  {
    if i == |dispatches| {
      assert dispatches[..i] == dispatches;
    } else {
      var front, last := dispatches[..|dispatches| - 1], dispatches[|dispatches| - 1];
      assert front[..i] == dispatches[..i];
      RecordsOnlyAdvance(front, i, id);
      OneRecordPerKey(front);
      DispatchEvolves(After(front), last, id);
      EvolvingComposes(After(dispatches[..i]).records[id], After(front).records[id], After(dispatches).records[id]);
    }
  }

  /** The record's key was first dispatched at `first`, and its result is that of the dispatch at `last`. */
  ghost predicate ComesFrom(dispatches: seq<Dispatch>, record: Record, first: int, last: int) {
    && 0 <= first <= last < |dispatches|
    && dispatches[first].message == record.message && dispatches[first].now == record.createdAt
    && dispatches[first].providerId == record.providerId && dispatches[first].accountId == record.accountId
    && (forall i :: 0 <= i < first ==> dispatches[i].message.idempotencyKey != record.message.idempotencyKey)
    && dispatches[last].message.idempotencyKey == record.message.idempotencyKey
    && dispatches[last].result == Result(record.status, record.proof, record.deliveryId, record.errors)
    && dispatches[first].result.proof.textHash == record.proof.textHash
  }

  /** Every key that was dispatched has a record. */
  lemma {:induction false} KeysAreRecorded(dispatches: seq<Dispatch>)
    requires forall k :: 0 <= k < |dispatches| ==> IdIsKeyHash(dispatches[k])
    ensures forall k :: 0 <= k < |dispatches| ==> HasKey(After(dispatches), dispatches[k].message.idempotencyKey)
  {
    if dispatches != [] {
      var front, n := dispatches[..|dispatches| - 1], |dispatches| - 1;
      KeysAreRecorded(front);
      OneRecordPerKey(front);
      KeysAreKept(After(front), dispatches[n]);
      forall k | 0 <= k < n ensures HasKey(After(dispatches), dispatches[k].message.idempotencyKey) {
        assert dispatches[k] == front[k];
      }
    }
  }

  /** Every record tells of the first dispatch of its key and of the result of one of its dispatches. */
  lemma {:induction false} RecordsComeFromDispatches(dispatches: seq<Dispatch>, id: string)
    requires forall k :: 0 <= k < |dispatches| ==> IdIsKeyHash(dispatches[k])
    requires id in After(dispatches).records
    ensures exists first, last :: ComesFrom(dispatches, After(dispatches).records[id], first, last)
  {
    var front, last := dispatches[..|dispatches| - 1], dispatches[|dispatches| - 1];
    OneRecordPerKey(front);
    KeysAreRecorded(front);
    if id in After(front).records {
      RecordsComeFromDispatches(front, id);
    }
    RecordComesFrom(front, last, id);
    assert front + [last] == dispatches;
  }

  lemma KeysAreKept(outbox: Outbox, dispatch: Dispatch)
    requires IdsAreHashes(outbox) && KeysAreUnique(outbox) && IdIsKeyHash(dispatch)
    ensures HasKey(RecordDispatch(outbox, dispatch), dispatch.message.idempotencyKey)
    ensures forall key :: HasKey(outbox, key) ==> HasKey(RecordDispatch(outbox, dispatch), key)
  {
    var after := RecordDispatch(outbox, dispatch);
    if !HasKey(outbox, dispatch.message.idempotencyKey) {
      assert after.records[dispatch.result.proof.outboundMessageId].message == dispatch.message;
    } else {
      assert after.records[IdFor(outbox, dispatch.message.idempotencyKey)].message.idempotencyKey == dispatch.message.idempotencyKey;
    }
    forall key | HasKey(outbox, key) ensures HasKey(after, key) {
      DispatchEvolves(outbox, dispatch, IdFor(outbox, key));
    }
  }

  lemma LaterComesFrom(front: seq<Dispatch>, dispatch: Dispatch, record: Record, first: int, last: int)
    requires ComesFrom(front, record, first, last)
    ensures ComesFrom(front + [dispatch], record, first, last)
  {
    assert forall i :: 0 <= i < |front| ==> (front + [dispatch])[i] == front[i];
  }

  /** A new result keeps the message and the text of the record. */
  lemma RenewedComesFrom(front: seq<Dispatch>, dispatch: Dispatch, before: Record, after: Record, first: int, last: int)
    requires ComesFrom(front, before, first, last) && dispatch.message.idempotencyKey == before.message.idempotencyKey
    requires SameMessage(before, after) && dispatch.result == Result(after.status, after.proof, after.deliveryId, after.errors)
    ensures ComesFrom(front + [dispatch], after, first, |front|)
  {
    assert forall i :: 0 <= i < |front| ==> (front + [dispatch])[i] == front[i];
  }

  lemma NewComesFrom(front: seq<Dispatch>, dispatch: Dispatch)
    requires forall i :: 0 <= i < |front| ==> front[i].message.idempotencyKey != dispatch.message.idempotencyKey
    ensures ComesFrom(front + [dispatch], NewRecord(dispatch), |front|, |front|)
  {
    assert forall i :: 0 <= i < |front| ==> (front + [dispatch])[i] == front[i];
  }

  lemma {:induction false} RecordComesFrom(front: seq<Dispatch>, dispatch: Dispatch, id: string)
    requires KeysAreUnique(After(front)) && IdsAreHashes(After(front)) && IdIsKeyHash(dispatch)
    requires id in After(front).records ==> exists first, last :: ComesFrom(front, After(front).records[id], first, last)
    requires forall k :: 0 <= k < |front| ==> HasKey(After(front), front[k].message.idempotencyKey)
    requires id in RecordDispatch(After(front), dispatch).records
    ensures exists first, last :: ComesFrom(front + [dispatch], RecordDispatch(After(front), dispatch).records[id], first, last)
  {
    var before := After(front);
    if id !in before.records {
      assert !HasKey(before, dispatch.message.idempotencyKey);
      NewComesFrom(front, dispatch);
    } else {
      var found := before.records[id];
      var first, last :| ComesFrom(front, found, first, last);
      if found.message.idempotencyKey != dispatch.message.idempotencyKey {
        OthersStay(before, dispatch, id);
        LaterComesFrom(front, dispatch, found, first, last);
      } else {
        RepeatedDispatchMeans(before, dispatch, id);
        var record := RecordDispatch(before, dispatch).records[id];
        if record == found {
          LaterComesFrom(front, dispatch, found, first, last);
        } else {
          RenewedComesFrom(front, dispatch, found, record, first, last);
        }
      }
    }
  }

  /** A dispatch leaves the records of other keys alone. */
  lemma OthersStay(outbox: Outbox, dispatch: Dispatch, id: string)
    requires IdsAreHashes(outbox) && KeysAreUnique(outbox) && IdIsKeyHash(dispatch) && id in outbox.records
    requires outbox.records[id].message.idempotencyKey != dispatch.message.idempotencyKey
    ensures id in RecordDispatch(outbox, dispatch).records && RecordDispatch(outbox, dispatch).records[id] == outbox.records[id]
  {
    if !HasKey(outbox, dispatch.message.idempotencyKey) && id == dispatch.result.proof.outboundMessageId {
      HashesAreInjective(outbox.records[id].message.idempotencyKey, dispatch.message.idempotencyKey);
    }
  }

  // The audit log

  /** The statuses the log gives a record, in order. */
  function Story(audit: seq<AuditEvent>, id: string): seq<Status> {
    if audit == [] then []
    else
      var last := audit[|audit| - 1];
      Story(audit[..|audit| - 1], id) + if !last.HashMismatch? && last.id == id then [last.status] else []
  }

  /** Each status of a story should replace the one before it, and the last is the record's. */
  ghost predicate TellsStory(outbox: Outbox, id: string) {
    var story := Story(outbox.audit, id);
    && (id !in outbox.records ==> story == [])
    && (id in outbox.records ==> story != [] && story[|story| - 1] == outbox.records[id].status)
    && forall i :: 0 < i < |story| ==> Replaces(story[i - 1], story[i])
  }

  /** What an event must announce for the log to stay true. */
  predicate Announces(before: Outbox, after: Outbox, event: AuditEvent, id: string) {
    if event.HashMismatch? || event.id != id then
      (id in after.records <==> id in before.records) && (id in before.records ==> after.records[id].status == before.records[id].status)
    else
      && id in after.records && after.records[id].status == event.status
      && if id in before.records then Replaces(before.records[id].status, event.status) else true
  }

  lemma EventTellsStory(before: Outbox, after: Outbox, event: AuditEvent, id: string)
    requires TellsStory(before, id) && after.audit == before.audit + [event] && Announces(before, after, event, id)
    ensures TellsStory(after, id)
  {}

  lemma DispatchTellsStory(outbox: Outbox, dispatch: Dispatch, id: string)
    requires IdsAreHashes(outbox) && IdIsKeyHash(dispatch) && TellsStory(outbox, id)
    ensures TellsStory(RecordDispatch(outbox, dispatch), id)
  {
    var after := RecordDispatch(outbox, dispatch);
    if HasKey(outbox, dispatch.message.idempotencyKey) {
      var found := IdFor(outbox, dispatch.message.idempotencyKey);
      UpdateTellsStory(outbox, found, dispatch.result, id);
    } else {
      var record := NewRecord(dispatch);
      if record.id in outbox.records {
        HashesAreInjective(outbox.records[record.id].message.idempotencyKey, dispatch.message.idempotencyKey);
      }
      EventTellsStory(outbox, after, Recorded(record.id, record.status), id);
    }
  }

  lemma UpdateTellsStory(outbox: Outbox, found: string, result: Result, id: string)
    requires TellsStory(outbox, id) && found in outbox.records
    ensures TellsStory(UpdateAt(outbox, found, result), id)
  {
    var existing, after := outbox.records[found], UpdateAt(outbox, found, result);
    if existing.proof.textHash != result.proof.textHash {
      EventTellsStory(outbox, after, HashMismatch(found, existing.proof.textHash, result.proof.textHash), id);
    } else if Replaces(existing.status, result.status) {
      EventTellsStory(outbox, after, Updated(found, existing.status, result.status), id);
    }
  }

  /** The log spells the whole life of every record: one event a change, none invented. */
  lemma {:induction false} AuditTellsStory(dispatches: seq<Dispatch>, id: string)
    requires forall k :: 0 <= k < |dispatches| ==> IdIsKeyHash(dispatches[k])
    ensures TellsStory(After(dispatches), id)
  {
    if dispatches != [] {
      var front := dispatches[..|dispatches| - 1];
      AuditTellsStory(front, id);
      OneRecordPerKey(front);
      DispatchTellsStory(After(front), dispatches[|dispatches| - 1], id);
    }
  }

  lemma DispatchAgain(outbox: Outbox, dispatch: Dispatch)
    requires IdIsKeyHash(dispatch) && IdsAreHashes(outbox)
    requires var id := dispatch.result.proof.outboundMessageId;
             && id in outbox.records && outbox.records[id].proof.textHash == dispatch.result.proof.textHash
             && Replaces(outbox.records[id].status, dispatch.result.status)
    ensures var id := dispatch.result.proof.outboundMessageId;
            id in RecordDispatch(outbox, dispatch).records && RecordDispatch(outbox, dispatch).records[id].status == dispatch.result.status
  {}

  /** Below a dry run nothing is final: the same message is blocked, queued and blocked again. */
  lemma BlockedAndQueuedAlternate(blocked: Dispatch, queued: Dispatch)
    requires IdIsKeyHash(blocked) && blocked.result.status == Blocked
    requires queued == blocked.(result := blocked.result.(status := QueuedForReview))
    ensures var id := blocked.result.proof.outboundMessageId;
            && id in After([blocked, queued]).records && After([blocked, queued]).records[id].status == QueuedForReview
            && id in After([blocked, queued, blocked]).records && After([blocked, queued, blocked]).records[id].status == Blocked
  {
    var id := blocked.result.proof.outboundMessageId;
    assert [blocked, queued, blocked][..2] == [blocked, queued] && [blocked, queued][..1] == [blocked];
    assert [blocked][..0] == [] && After([]) == Outbox(map[], []);
    OneRecordPerKey([blocked]);
    assert After([blocked]).records[id] == NewRecord(blocked);
    DispatchAgain(After([blocked]), queued);
    assert IdIsKeyHash(queued);
    OneRecordPerKey([blocked, queued]);
    DispatchEvolves(After([blocked]), queued, id);
    DispatchAgain(After([blocked, queued]), blocked);
  }
}
