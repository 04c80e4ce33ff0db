/**
 Idempotency keys (packages/db/src/queue.ts): the records in memory, the rows the
 Postgres service mirrors them to, and what a restart from those rows can change.
 Writes reach the table in the order they are issued.
 */
module Idempotency {
  import opened Common

  datatype Status = Acquired | Committed | Failed | Released

  datatype Record = Record(
    key: string, entityType: string, entityId: string, status: Status, acquiredAt: int,
    completedAt: Option<int>, errorMessage: Option<string>)

  // The operations on the records

  predicate IsHeld(records: map<string, Record>, key: string) {
    key in records && records[key].status != Released
  }

  function Acquire(records: map<string, Record>, key: string, entityType: string, entityId: string, now: int): map<string, Record> {
    if IsHeld(records, key) then records
    else records[key := Record(key, entityType, entityId, Acquired, now, None, None)]
  }

  /** commit, fail and release; the source throws when the key was never acquired. */
  function Transition(records: map<string, Record>, key: string, status: Status, error: Option<string>, now: int): map<string, Record>
    requires key in records
  {
    records[key := records[key].(status := status, completedAt := Some(now), errorMessage := error)]
  }

  /** The upsert leaves `acquired_at` of an existing row alone. */
  function Upsert(rows: map<string, Record>, record: Record): map<string, Record> {
    rows[record.key := if record.key in rows then record.(acquiredAt := rows[record.key].acquiredAt) else record]
  }

  class IdempotencyService {
    var records: map<string, Record>

    constructor ()
      ensures records == map[]
    {
      records := map[];
    }

    method AcquireKey(key: string, entityType: string, entityId: string, now: int) returns (acquired: bool, record: Record)
      modifies this
      ensures acquired == !IsHeld(old(records), key)
      ensures records == Acquire(old(records), key, entityType, entityId, now)
      ensures key in records && record == records[key]
    {
      if key in records && records[key].status != Released {
        return false, records[key];
      }
      record := Record(key, entityType, entityId, Acquired, now, None, None);
      records := records[key := record];
      acquired := true;
    }

    method SetStatus(key: string, status: Status, error: Option<string>, now: int) returns (updated: Option<Record>)
      modifies this
      ensures updated.Some? <==> key in old(records)
      ensures updated.Some? ==> records == Transition(old(records), key, status, error, now) && updated == Some(records[key])
      ensures updated.None? ==> records == old(records)
    {
      if key !in records {
        return None;
      }
      var changed := records[key].(status := status, completedAt := Some(now), errorMessage := error);
      records := records[key := changed];
      updated := Some(changed);
    }
  }

  /** The Postgres service: every result of the service in memory is written to the table. */
  class PostgresIdempotencyService {
    const memory: IdempotencyService
    var rows: map<string, Record>

    constructor (service: IdempotencyService, table: map<string, Record>)
      ensures memory == service && rows == table
    {
      memory := service;
      rows := table;
    }

    ghost function Contents(): Service
      reads this, memory
    {
      Service(memory.records, rows)
    }

    method Hydrate()
      requires forall key :: key in rows ==> rows[key].key == key
      requires memory.records == map[]
      modifies memory
      ensures Contents() == Apply(old(Contents()), Restart)
    {
      var left := rows.Keys;
      while left != {}
        invariant left <= rows.Keys
        invariant memory.records == map key | key in rows && key !in left :: rows[key]
        decreases |left|
      {
        var key: string :| key in left;
        memory.records := memory.records[rows[key].key := rows[key]];
        left := left - {key};
      }
      assert memory.records == rows;
    }

    method AcquireKey(key: string, entityType: string, entityId: string, now: int) returns (acquired: bool, record: Record)
      requires forall key :: key in memory.records ==> memory.records[key].key == key
      modifies this, memory
      ensures Contents() == Apply(old(Contents()), AcquireOp(key, entityType, entityId, now))
      ensures AcquireAnswer(acquired, Undated(record)) == AnswerTo(old(Contents()), AcquireOp(key, entityType, entityId, now))
    {
      acquired, record := memory.AcquireKey(key, entityType, entityId, now);
      rows := Upsert(rows, record);
    }

    method SetStatus(key: string, status: Status, error: Option<string>, now: int) returns (updated: Option<Record>)
      requires forall key :: key in memory.records ==> memory.records[key].key == key
      modifies this, memory
      ensures Contents() == Apply(old(Contents()), SetStatusOp(key, status, error, now))
      ensures updated.Some? <==> key in old(memory.records)
      ensures updated.Some? ==> AnswerTo(old(Contents()), SetStatusOp(key, status, error, now)) == Updated(Undated(updated.value))
    {
      updated := memory.SetStatus(key, status, error, now);
      if updated.Some? {
        rows := Upsert(rows, updated.value);
      }
    }
  }

  // Runs with restarts

  datatype Service = Service(records: map<string, Record>, rows: map<string, Record>)

  datatype Op =
    | AcquireOp(key: string, entityType: string, entityId: string, now: int)
    | SetStatusOp(key: string, status: Status, error: Option<string>, now: int)
    | Restart

  /** What the caller sees, up to the acquisition date of the returned record. */
  datatype Answer = AcquireAnswer(acquired: bool, record: Record) | Updated(record: Record) | Threw | Restarted

  function Undated(record: Record): Record {
    record.(acquiredAt := 0)
  }

  function Apply(service: Service, op: Op): Service {
    match op
    case AcquireOp(key, entityType, entityId, now) =>
      var records := Acquire(service.records, key, entityType, entityId, now);
      Service(records, Upsert(service.rows, records[key]))
    case SetStatusOp(key, status, error, now) =>
      if key !in service.records then service
      else
        var records := Transition(service.records, key, status, error, now);
        Service(records, Upsert(service.rows, records[key]))
    case Restart => Service(service.rows, service.rows)
  }

  function AnswerTo(service: Service, op: Op): Answer {
    match op
    case AcquireOp(key, entityType, entityId, now) =>
      AcquireAnswer(!IsHeld(service.records, key), Undated(Acquire(service.records, key, entityType, entityId, now)[key]))
    case SetStatusOp(key, status, error, now) =>
      if key !in service.records then Threw else Updated(Undated(Transition(service.records, key, status, error, now)[key]))
    case Restart => Restarted
  }

  const EMPTY := Service(map[], map[])

  function After(ops: seq<Op>): Service {
    if ops == [] then EMPTY else Apply(After(ops[..|ops| - 1]), ops[|ops| - 1])
  }

  /** The answers of a run, without those to restarts. */
  function Answers(ops: seq<Op>): seq<Answer> {
    if ops == [] then []
    else
      var front, last := ops[..|ops| - 1], ops[|ops| - 1];
      Answers(front) + if last.Restart? then [] else [AnswerTo(After(front), last)]
  }

  function WithoutRestarts(ops: seq<Op>): seq<Op> {
    if ops == [] then []
    else WithoutRestarts(ops[..|ops| - 1]) + if ops[|ops| - 1].Restart? then [] else [ops[|ops| - 1]]
  }

  /** Equal but for acquisition dates, every record under its own key. */
  ghost predicate SameButDates(left: map<string, Record>, right: map<string, Record>) {
    && left.Keys == right.Keys
    && forall key :: key in left ==> left[key].key == key && Undated(left[key]) == Undated(right[key])
  }

  lemma SameRecordsAnswerAlike(left: Service, right: Service, op: Op)
    requires SameButDates(left.records, right.records) && !op.Restart?
    ensures AnswerTo(left, op) == AnswerTo(right, op)
    ensures SameButDates(Apply(left, op).records, Apply(right, op).records)
  {}

  lemma WritesAreMirrored(service: Service, op: Op)
    requires SameButDates(service.records, service.rows)
    ensures SameButDates(Apply(service, op).records, Apply(service, op).rows)
  {}

  lemma {:induction false} RunsMirror(ops: seq<Op>)
    ensures SameButDates(After(ops).records, After(ops).rows)
  {
    if ops != [] {
      RunsMirror(ops[..|ops| - 1]);
      WritesAreMirrored(After(ops[..|ops| - 1]), ops[|ops| - 1]);
    }
  }

  lemma AppendOp(ops: seq<Op>, op: Op)
    ensures After(ops + [op]) == Apply(After(ops), op)
    ensures Answers(ops + [op]) == Answers(ops) + if op.Restart? then [] else [AnswerTo(After(ops), op)]
    ensures WithoutRestarts(ops + [op]) == WithoutRestarts(ops) + if op.Restart? then [] else [op]
  {}

  /** Restarting after any operations changes no answer, only acquisition dates. */
  lemma {:induction false} RestartsAreInvisible(ops: seq<Op>)
    ensures Answers(ops) == Answers(WithoutRestarts(ops))
    ensures SameButDates(After(ops).records, After(WithoutRestarts(ops)).records)
  {
    if ops != [] {
      var front, last := ops[..|ops| - 1], ops[|ops| - 1];
      var kept := WithoutRestarts(front);
      RestartsAreInvisible(front);
      assert ops == front + [last];
      AppendOp(front, last);
      if last.Restart? {
        RunsMirror(front);
        assert WithoutRestarts(ops) == kept && After(ops).records == After(front).rows;
        SameIsTransitive(After(front).rows, After(front).records, After(kept).records);
      } else {
        AppendOp(kept, last);
        SameRecordsAnswerAlike(After(front), After(kept), last);
      }
    }
  }

  lemma SameIsTransitive(rows: map<string, Record>, records: map<string, Record>, others: map<string, Record>)
    requires SameButDates(records, rows) && SameButDates(records, others)
    ensures SameButDates(rows, others)
  {}

  /** A date does change: after a release and a second acquire, a restart brings back the first date. */
  lemma RestartRestoresFirstDate(key: string, first: int, second: int)
    requires first != second
    ensures var ops := [AcquireOp(key, "", "", first), SetStatusOp(key, Released, None, first), AcquireOp(key, "", "", second)];
            && key in After(ops).records && After(ops).records[key].acquiredAt == second
            && key in After(ops + [Restart]).records && After(ops + [Restart]).records[key].acquiredAt == first
  {
    var a, b, c := AcquireOp(key, "", "", first), SetStatusOp(key, Released, None, first), AcquireOp(key, "", "", second);
    AppendOp([], a);
    AppendOp([a], b);
    AppendOp([a, b], c);
    AppendOp([a, b, c], Restart);
    assert [] + [a] == [a] && [a] + [b] == [a, b] && [a, b] + [c] == [a, b, c];
  }

  // What a record tells

  /** The operation acquires the key or names it. */
  predicate IsOn(op: Op, key: string) {
    !op.Restart? && op.key == key
  }

  /** The record was acquired at `first` and last changed at `last`; acquires after `first` found it held. */
  ghost predicate Tells(ops: seq<Op>, key: string, record: Record, first: int, last: int) {
    && 0 <= first <= last < |ops| && IsOn(ops[first], key) && ops[first].AcquireOp? && IsOn(ops[last], key)
    && record.key == key && record.entityType == ops[first].entityType && record.entityId == ops[first].entityId
    && (if last == first then record.status == Acquired && record.completedAt == None && record.errorMessage == None
        else
          && ops[last].SetStatusOp?
          && record.status == ops[last].status && record.completedAt == Some(ops[last].now) && record.errorMessage == ops[last].error)
    && (forall j :: last < j < |ops| && IsOn(ops[j], key) ==> ops[j].AcquireOp?)
    && (forall j :: first < j < |ops| && IsOn(ops[j], key) && ops[j].AcquireOp? ==> WasHeld(ops, j, key))
    && ((forall j :: first < j < |ops| ==> !ops[j].Restart?) ==> record.acquiredAt == ops[first].now)
  }

  /** At the `j`-th operation the key had been acquired and not released since. */
  ghost predicate WasHeld(ops: seq<Op>, j: int, key: string) {
    0 <= j <= |ops| && var records := After(ops[..j]).records; key in records && records[key].status in {Acquired, Committed, Failed}
  }

  lemma WasHeldBefore(front: seq<Op>, op: Op, j: int, key: string)
    requires 0 <= j <= |front|
    ensures WasHeld(front + [op], j, key) <==> WasHeld(front, j, key)
  {
    assert (front + [op])[..j] == front[..j];
  }

  /** An operation that leaves the record, other than in its date. */
  lemma TellsOn(front: seq<Op>, op: Op, key: string, before: Record, after: Record, first: int, last: int)
    requires Tells(front, key, before, first, last)
    requires Undated(after) == Undated(before) && (op.Restart? || after == before)
    requires IsOn(op, key) ==> op.AcquireOp? && WasHeld(front, |front|, key)
    ensures Tells(front + [op], key, after, first, last)
  {
    var ops := front + [op];
    assert forall j :: 0 <= j < |front| ==> ops[j] == front[j];
    forall j | first < j < |ops| && IsOn(ops[j], key) && ops[j].AcquireOp? ensures WasHeld(ops, j, key) {
      WasHeldBefore(front, op, j, key);
    }
    assert op.Restart? ==> ops[|front|].Restart?;
    assert (forall j :: first < j < |ops| ==> !ops[j].Restart?) ==> forall j :: first < j < |front| ==> !ops[j].Restart?;
  }

  lemma TellsChange(front: seq<Op>, op: Op, key: string, before: Record, first: int, last: int)
    requires Tells(front, key, before, first, last) && IsOn(op, key) && op.SetStatusOp?
    ensures Tells(front + [op], key,
                  Record(before.key, before.entityType, before.entityId, op.status, before.acquiredAt, Some(op.now), op.error), first, |front|)
  {
    var ops := front + [op];
    assert forall j :: 0 <= j < |front| ==> ops[j] == front[j];
    forall j | first < j < |ops| && IsOn(ops[j], key) && ops[j].AcquireOp? ensures WasHeld(ops, j, key) {
      WasHeldBefore(front, op, j, key);
    }
    assert (forall j :: first < j < |ops| ==> !ops[j].Restart?) ==> forall j :: first < j < |front| ==> !ops[j].Restart?;
  }

  /** What one operation makes of a key's record. */
  lemma OpMeans(service: Service, op: Op, key: string)
    requires SameButDates(service.records, service.rows) && key in Apply(service, op).records
    ensures var records, after := service.records, Apply(service, op).records[key];
            if IsOn(op, key) && op.AcquireOp? && (key !in records || records[key].status == Released) then
              after == Record(key, op.entityType, op.entityId, Acquired, op.now, None, None)
            else
              && key in records
              && if IsOn(op, key) && op.SetStatusOp? then
                   after == Record(records[key].key, records[key].entityType, records[key].entityId, op.status,
                                   records[key].acquiredAt, Some(op.now), op.error)
                 else Undated(after) == Undated(records[key]) && (op.Restart? || after == records[key])
  {}

  lemma JustAcquired(front: seq<Op>, op: Op)
    requires op.AcquireOp?
    ensures Tells(front + [op], op.key, Record(op.key, op.entityType, op.entityId, Acquired, op.now, None, None), |front|, |front|)
  {}

  /** Every record of every run, restarts or not, tells of its last granted acquire and the last change after it. */
  lemma {:induction false} RecordsTellLastChange(ops: seq<Op>, key: string)
    requires key in After(ops).records
    ensures exists first, last :: Tells(ops, key, After(ops).records[key], first, last)
  {
    var front, op := ops[..|ops| - 1], ops[|ops| - 1];
    var before := After(front).records;
    assert ops == front + [op] && front[..|front|] == front;
    RunsMirror(front);
    OpMeans(After(front), op, key);
    if IsOn(op, key) && op.AcquireOp? && (key !in before || before[key].status == Released) {
      JustAcquired(front, op);
    } else {
      RecordsTellLastChange(front, key);
      var first, last :| Tells(front, key, before[key], first, last);
      if IsOn(op, key) && op.SetStatusOp? {
        TellsChange(front, op, key, before[key], first, last);
      } else {
        TellsOn(front, op, key, before[key], After(ops).records[key], first, last);
      }
    }
  }

  /** The first acquire of the key in the run. */
  ghost predicate IsFirstAcquire(ops: seq<Op>, key: string, k: int) {
    0 <= k < |ops| && IsOn(ops[k], key) && ops[k].AcquireOp? && forall j :: 0 <= j < k && IsOn(ops[j], key) ==> !ops[j].AcquireOp?
  }

  /** Exactly the keys ever acquired have rows, and a row keeps the date of the first acquire. */
  lemma {:induction false} RowsKeepFirstDate(ops: seq<Op>, key: string)
    ensures key in After(ops).rows <==> exists k :: IsFirstAcquire(ops, key, k)
    ensures forall k :: IsFirstAcquire(ops, key, k) ==> key in After(ops).rows && After(ops).rows[key].acquiredAt == ops[k].now
  {
    if ops != [] {
      var front, op := ops[..|ops| - 1], ops[|ops| - 1];
      RowsKeepFirstDate(front, key);
      RunsMirror(front);
      assert forall k :: 0 <= k < |front| ==> front[k] == ops[k];
      if k :| IsFirstAcquire(front, key, k) {
        assert IsFirstAcquire(ops, key, k);
        assert forall j :: IsFirstAcquire(ops, key, j) ==> j == k;
      } else {
        assert forall k :: IsFirstAcquire(ops, key, k) ==> k == |front|;
        assert IsOn(op, key) && op.AcquireOp? ==> IsFirstAcquire(ops, key, |front|) by {
          NoneAcquired(front, key);
        }
      }
    }
  }

  lemma {:induction false} NoneAcquired(ops: seq<Op>, key: string)
    requires forall k :: !IsFirstAcquire(ops, key, k)
    ensures forall j :: 0 <= j < |ops| && IsOn(ops[j], key) ==> !ops[j].AcquireOp?
  {
    if ops != [] {
      var front := ops[..|ops| - 1];
      assert forall k :: 0 <= k < |front| ==> front[k] == ops[k];
      forall k ensures !IsFirstAcquire(front, key, k) {
        assert IsFirstAcquire(front, key, k) ==> IsFirstAcquire(ops, key, k);
      }
      NoneAcquired(front, key);
      assert !IsFirstAcquire(ops, key, |front|);
    }
  }

  // Acquires and releases

  predicate Acquires(service: Service, op: Op, key: string) {
    op.AcquireOp? && op.key == key && !IsHeld(service.records, key)
  }

  predicate Releases(service: Service, op: Op, key: string) {
    op.SetStatusOp? && op.key == key && op.status == Released && key in service.records
  }

  function AcquireCount(ops: seq<Op>, key: string): nat {
    if ops == [] then 0
    else AcquireCount(ops[..|ops| - 1], key) + if Acquires(After(ops[..|ops| - 1]), ops[|ops| - 1], key) then 1 else 0
  }

  function ReleaseCount(ops: seq<Op>, key: string): nat {
    if ops == [] then 0
    else ReleaseCount(ops[..|ops| - 1], key) + if Releases(After(ops[..|ops| - 1]), ops[|ops| - 1], key) then 1 else 0
  }

  /** A key is acquired at most once more than it is released, restarts or not. */
  lemma {:induction false} AcquiresNeedReleases(ops: seq<Op>, key: string)
    ensures AcquireCount(ops, key) <= ReleaseCount(ops, key) + (if IsHeld(After(ops).records, key) then 1 else 0)
  {
    if ops != [] {
      AcquiresNeedReleases(ops[..|ops| - 1], key);
      RunsMirror(ops[..|ops| - 1]);
    }
  }
}
