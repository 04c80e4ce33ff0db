/**
 What travels through the queue (packages/db/src/queue.ts): payloads are sanitized and
 wrapped in an envelope when they are enqueued, and unwrapped by the worker.
 */
module Envelope {
  import opened Common

  /** JSON values; the fields of an object are in order, as `Object.entries` lists them. */
  datatype Json =
    | Null
    | Flag(flag: bool)
    | Number(number: int)
    | Str(text: string)
    | Arr(items: seq<Json>)
    | Obj(fields: seq<Field>)

  datatype Field = Field(key: string, value: Json)

  /** The regular expressions on keys and values, date parsing, blankness and base64url, left uninterpreted. */
  datatype TextRules = TextRules(
    sensitiveKey: string -> bool, secretText: string -> bool, isDate: string -> bool, isBlank: string -> bool,
    base64url: string -> string)

  const REDACTED := "[redacted]"

  // Sanitizing

  predicate Redacts(rules: TextRules, field: Field) {
    rules.sensitiveKey(field.key) || (field.value.Str? && rules.secretText(field.value.text))
  }

  /** sanitizeQueuePayload; strings outside objects pass unchanged. */
  function Sanitize(rules: TextRules, payload: Json): Json {
    match payload
    case Arr(items) => Arr(seq(|items|, i requires 0 <= i < |items| => Sanitize(rules, items[i])))
    case Obj(fields) => Obj(seq(|fields|, i requires 0 <= i < |fields| => SanitizeField(rules, fields[i])))
    case _ => payload
  }

  function SanitizeField(rules: TextRules, field: Field): Field {
    Field(field.key, if Redacts(rules, field) then Str(REDACTED) else Sanitize(rules, field.value))
  }

  /** The field has a sensitive key, or its value is a secret text. */
  predicate IsSensitive(rules: TextRules, field: Field) {
    if field.value.Str? then rules.sensitiveKey(field.key) || rules.secretText(field.value.text) else rules.sensitiveKey(field.key)
  }

  /** At every depth, a sensitive field holds the mark and nothing else. */
  ghost predicate IsClean(rules: TextRules, payload: Json) {
    match payload
    case Arr(items) => forall i :: 0 <= i < |items| ==> IsClean(rules, items[i])
    case Obj(fields) =>
      forall i :: 0 <= i < |fields| ==>
        (IsSensitive(rules, fields[i]) ==> fields[i].value == Str("[redacted]")) && IsClean(rules, fields[i].value)
    case _ => true
  }

  /** Nothing but redacted values changed: keys, order and every other value are kept. */
  ghost predicate SameShape(rules: TextRules, before: Json, after: Json) {
    match before
    case Arr(items) =>
      after.Arr? && |after.items| == |items| && forall i :: 0 <= i < |items| ==> SameShape(rules, items[i], after.items[i])
    case Obj(fields) =>
      && after.Obj? && |after.fields| == |fields|
      && forall i :: 0 <= i < |fields| ==>
           && after.fields[i].key == fields[i].key
           && if IsSensitive(rules, fields[i]) then after.fields[i].value == Str("[redacted]")
              else SameShape(rules, fields[i].value, after.fields[i].value)
    case _ => after == before
  }

  lemma {:induction false} SanitizeCleans(rules: TextRules, payload: Json)
    ensures IsClean(rules, Sanitize(rules, payload))
    ensures SameShape(rules, payload, Sanitize(rules, payload))
  {
    match payload
    case Arr(items) =>
      forall i | 0 <= i < |items|
        ensures IsClean(rules, Sanitize(rules, items[i])) && SameShape(rules, items[i], Sanitize(rules, items[i]))
      {
        SanitizeCleans(rules, items[i]);
      }
    case Obj(fields) =>
      forall i | 0 <= i < |fields|
        ensures IsClean(rules, Sanitize(rules, fields[i].value)) && SameShape(rules, fields[i].value, Sanitize(rules, fields[i].value))
      {
        SanitizeCleans(rules, fields[i].value);
      }
      forall i | 0 <= i < |fields|
        ensures IsSensitive(rules, SanitizeField(rules, fields[i])) ==> SanitizeField(rules, fields[i]).value == Str(REDACTED)
      {
        SanitizedStringsStay(rules, fields[i].value);
      }
    case _ =>
  }

  lemma SanitizedStringsStay(rules: TextRules, value: Json)
    ensures Sanitize(rules, value).Str? ==> Sanitize(rules, value) == value
  {}

  /** A payload that is clean already is left as it is, and only such a payload is. */
  lemma {:induction false} CleanIsFixed(rules: TextRules, payload: Json)
    ensures Sanitize(rules, payload) == payload <==> IsClean(rules, payload)
  {
    if Sanitize(rules, payload) == payload {
      SanitizeCleans(rules, payload);
    }
    if IsClean(rules, payload) {
      match payload
      case Arr(items) =>
        forall i | 0 <= i < |items|
          ensures Sanitize(rules, items[i]) == items[i]
        {
          CleanIsFixed(rules, items[i]);
        }
        assert Sanitize(rules, payload).items == items;
      case Obj(fields) =>
        forall i | 0 <= i < |fields|
          ensures SanitizeField(rules, fields[i]) == fields[i]
        {
          CleanIsFixed(rules, fields[i].value);
        }
        assert Sanitize(rules, payload).fields == fields;
      case _ =>
    }
  }

  lemma SanitizeIsIdempotent(rules: TextRules, payload: Json)
    ensures Sanitize(rules, Sanitize(rules, payload)) == Sanitize(rules, payload)
  {
    SanitizeCleans(rules, payload);
    CleanIsFixed(rules, Sanitize(rules, payload));
  }

  // Schemas

  /** A queue's schema: the optional identifiers it declares and those of which one is required. */
  datatype Schema = Schema(declared: seq<string>, requiredAnyOf: seq<string>)

  predicate HasKey(fields: seq<Field>, key: string) {
    exists i | 0 <= i < |fields| :: fields[i].key == key
  }

  /** Object keys are distinct, so a name holds the value of its only field. */
  function Lookup(fields: seq<Field>, key: string): Option<Json> {
    if fields == [] then None else if fields[0].key == key then Some(fields[0].value) else Lookup(fields[1..], key)
  }

  predicate IsIdentifier(value: Option<Json>) {
    value.None? || (value.value.Str? && value.value.text != "")
  }

  predicate IsPresent(rules: TextRules, value: Option<Json>) {
    value.Some? && value.value.Str? && !rules.isBlank(value.value.text)
  }

  predicate Accepts(rules: TextRules, schema: Schema, payload: Json) {
    && payload.Obj?
    && (forall key | key in schema.declared :: IsIdentifier(Lookup(payload.fields, key)))
    && (exists key | key in schema.requiredAnyOf :: IsPresent(rules, Lookup(payload.fields, key)))
  }

  ghost predicate KeysAreDistinct(fields: seq<Field>) {
    forall i, j :: 0 <= i < j < |fields| ==> fields[i].key != fields[j].key
  }

  lemma {:induction false} LookupMeans(fields: seq<Field>, key: string)
    ensures Lookup(fields, key).None? <==> forall i :: 0 <= i < |fields| ==> fields[i].key != key
    ensures KeysAreDistinct(fields) ==> forall i :: 0 <= i < |fields| && fields[i].key == key ==> Lookup(fields, key) == Some(fields[i].value)
  {
    if fields != [] {
      LookupMeans(fields[1..], key);
      assert forall i :: 0 < i < |fields| ==> fields[i] == fields[1..][i - 1];
    }
  }

  /** The field is one of those required, and its text is not blank. */
  predicate Satisfies(rules: TextRules, schema: Schema, field: Field) {
    field.key in schema.requiredAnyOf && field.value.Str? && !rules.isBlank(field.value.text)
  }

  /** A payload is accepted when every declared field it has is a text that is not empty, and some required one a text that is not blank. */
  lemma AcceptsExactlyWhen(rules: TextRules, schema: Schema, payload: Json)
    requires payload.Obj? ==> KeysAreDistinct(payload.fields)
    ensures Accepts(rules, schema, payload) <==>
              && payload.Obj?
              && (forall i :: 0 <= i < |payload.fields| && payload.fields[i].key in schema.declared ==>
                    payload.fields[i].value.Str? && payload.fields[i].value.text != "")
              && (exists i :: 0 <= i < |payload.fields| && Satisfies(rules, schema, payload.fields[i]))
  {
    if payload.Obj? {
      var fields := payload.fields;
      forall key ensures Lookup(fields, key).None? <==> forall i :: 0 <= i < |fields| ==> fields[i].key != key {
        LookupMeans(fields, key);
      }
      forall i | 0 <= i < |fields| ensures Lookup(fields, fields[i].key) == Some(fields[i].value) {
        LookupMeans(fields, fields[i].key);
      }
    }
  }

  lemma {:induction false} SanitizedLookup(rules: TextRules, fields: seq<Field>, key: string)
    ensures var cleaned := Sanitize(rules, Obj(fields)).fields;
            match Lookup(fields, key)
            case None => Lookup(cleaned, key) == None
            case Some(value) => Lookup(cleaned, key) == Some(SanitizeField(rules, Field(key, value)).value)
  {
    if fields != [] {
      SanitizedLookup(rules, fields[1..], key);
      var cleaned := Sanitize(rules, Obj(fields)).fields;
      assert cleaned[1..] == Sanitize(rules, Obj(fields[1..])).fields;
    }
  }

  /** Redacting never turns an accepted payload into a rejected one. */
  lemma SanitizeKeepsSchema(rules: TextRules, schema: Schema, payload: Json)
    requires !rules.isBlank(REDACTED)
    requires Accepts(rules, schema, payload)
    ensures Accepts(rules, schema, Sanitize(rules, payload))
  {
    var cleaned := Sanitize(rules, payload);
    forall key | key in schema.declared
      ensures IsIdentifier(Lookup(cleaned.fields, key))
    {
      SanitizedLookup(rules, payload.fields, key);
    }
    var key :| key in schema.requiredAnyOf && IsPresent(rules, Lookup(payload.fields, key));
    SanitizedLookup(rules, payload.fields, key);
    assert IsPresent(rules, Lookup(cleaned.fields, key));
  }

  /** Nor the other way round, as long as no declared name is sensitive and a blank text is no secret. */
  lemma SanitizeKeepsRejection(rules: TextRules, schema: Schema, payload: Json)
    requires forall key :: key in schema.declared || key in schema.requiredAnyOf ==> !rules.sensitiveKey(key)
    requires !rules.secretText("") && forall text :: rules.isBlank(text) ==> !rules.secretText(text)
    requires Accepts(rules, schema, Sanitize(rules, payload))
    ensures Accepts(rules, schema, payload)
  {
    var cleaned := Sanitize(rules, payload);
    forall key | key in schema.declared
      ensures IsIdentifier(Lookup(payload.fields, key))
    {
      SanitizedLookup(rules, payload.fields, key);
      assert IsIdentifier(Lookup(cleaned.fields, key));
    }
    var key :| key in schema.requiredAnyOf && IsPresent(rules, Lookup(cleaned.fields, key));
    SanitizedLookup(rules, payload.fields, key);
    assert IsPresent(rules, Lookup(payload.fields, key));
  }

  // Tasks and jobs

  datatype QueueTask = QueueTask(
    id: string, queueName: string, payload: Json, idempotencyKey: string, deduplicationKey: string,
    attempts: nat, createdAt: string)

  /** What the worker receives; a job id is a string here, its JSON data survives Redis unchanged. */
  datatype QueueJob = QueueJob(id: Option<string>, data: Json, timestamp: Option<string>, attemptsMade: nat)

  function TaskId(queueName: string, idempotencyKey: string): string {
    queueName + ":" + idempotencyKey
  }

  function JobId(rules: TextRules, idempotencyKey: string): string {
    "idempotency-" + rules.base64url(idempotencyKey)
  }

  function Wrap(payload: Json, idempotencyKey: string, deduplicationKey: string, createdAt: string): Json {
    var metadata := [Field("idempotencyKey", Str(idempotencyKey)), Field("deduplicationKey", Str(deduplicationKey)),
                     Field("createdAt", Str(createdAt))];
    Obj([Field("payload", payload), Field("metadata", Obj(metadata))])
  }

  /** BullMqQueueAdapter.enqueue: `None` is a payload the schema rejects. */
  function Enqueue(
    rules: TextRules, schema: Schema, queueName: string, payload: Json, idempotencyKey: string, deduplicationKey: string, now: string)
    : Option<(QueueTask, QueueJob)>
  {
    if !Accepts(rules, schema, payload) then None
    else
      var cleaned := Sanitize(rules, payload);
      Some((QueueTask(TaskId(queueName, idempotencyKey), queueName, cleaned, idempotencyKey, deduplicationKey, 0, now),
            QueueJob(Some(JobId(rules, idempotencyKey)), Wrap(cleaned, idempotencyKey, deduplicationKey, now), None, 0)))
  }

  predicate IsEnvelope(data: Json) {
    && data.Obj? && HasKey(data.fields, "payload") && HasKey(data.fields, "metadata")
    && var metadata := Lookup(data.fields, "metadata");
       && metadata.Some? && metadata.value.Obj?
       && HasKey(metadata.value.fields, "idempotencyKey") && HasKey(metadata.value.fields, "deduplicationKey")
  }

  /** The data holds a payload and metadata with both keys. */
  ghost predicate HoldsEnvelope(data: Json) {
    && data.Obj? && (exists i :: 0 <= i < |data.fields| && data.fields[i].key == "payload")
    && exists i :: 0 <= i < |data.fields| && IsMetadata(data.fields[i])
  }

  ghost predicate IsMetadata(field: Field) {
    && field.key == "metadata" && field.value.Obj?
    && (exists i :: 0 <= i < |field.value.fields| && field.value.fields[i].key == "idempotencyKey")
    && (exists i :: 0 <= i < |field.value.fields| && field.value.fields[i].key == "deduplicationKey")
  }

  lemma EnvelopeExactlyWhen(data: Json)
    requires data.Obj? ==> KeysAreDistinct(data.fields)
    ensures IsEnvelope(data) <==> HoldsEnvelope(data)
  {
    if data.Obj? {
      LookupMeans(data.fields, "metadata");
    }
  }

  function TextOf(fields: seq<Field>, key: string): string {
    match Lookup(fields, key)
    case Some(Str(text)) => text
    case _ => ""
  }

  datatype Unwrapped = Unwrapped(payload: Json, idempotencyKey: string, deduplicationKey: string, createdAt: string)

  function Unwrap(data: Json): Unwrapped {
    if IsEnvelope(data) then
      var metadata := Lookup(data.fields, "metadata").value.fields;
      Unwrapped(Lookup(data.fields, "payload").GetOr(Null), TextOf(metadata, "idempotencyKey"),
                TextOf(metadata, "deduplicationKey"), TextOf(metadata, "createdAt"))
    else Unwrapped(data, "", "", "")
  }

  function OrElse(text: string, fallback: string): string {
    if text != "" then text else fallback
  }

  /** bullMqJobToQueueTask; `freshId` and `now` are the clock fallbacks. */
  function ToTask(rules: TextRules, schema: Schema, queueName: string, job: QueueJob, freshId: string, now: string): Option<QueueTask> {
    var envelope := Unwrap(job.data);
    var jobId := if job.id.Some? && !rules.isBlank(job.id.value) then job.id.value else freshId;
    var idempotencyKey := OrElse(envelope.idempotencyKey, jobId);
    var createdAt := if rules.isDate(envelope.createdAt) then envelope.createdAt else job.timestamp.GetOr(now);
    if !Accepts(rules, schema, envelope.payload) then None
    else
      Some(QueueTask(TaskId(queueName, idempotencyKey), queueName, envelope.payload, idempotencyKey,
                     OrElse(envelope.deduplicationKey, idempotencyKey), job.attemptsMade, createdAt))
  }

  /** A job whose data is no envelope is read as a bare payload, with the job's own id, or a fresh one, for both keys. */
  lemma BareJobIsRead(rules: TextRules, schema: Schema, queueName: string, job: QueueJob, freshId: string, now: string)
    requires job.data.Obj? ==> KeysAreDistinct(job.data.fields)
    requires !HoldsEnvelope(job.data) && !rules.isDate("")
    ensures ToTask(rules, schema, queueName, job, freshId, now)
         == if !Accepts(rules, schema, job.data) then None
            else
              var key := if job.id.None? || rules.isBlank(job.id.value) then freshId else job.id.value;
              Some(QueueTask(queueName + ":" + key, queueName, job.data, key, key, job.attemptsMade,
                             if job.timestamp.Some? then job.timestamp.value else now))
  {
    EnvelopeExactlyWhen(job.data);
  }

  /** The worker's view of an enqueued job, whatever its keys. */
  lemma EnvelopeUnwraps(payload: Json, idempotencyKey: string, deduplicationKey: string, createdAt: string)
    ensures Unwrap(Wrap(payload, idempotencyKey, deduplicationKey, createdAt))
         == Unwrapped(payload, idempotencyKey, deduplicationKey, createdAt)
  {
    var metadata := [Field("idempotencyKey", Str(idempotencyKey)), Field("deduplicationKey", Str(deduplicationKey)),
                     Field("createdAt", Str(createdAt))];
    var data := [Field("payload", payload), Field("metadata", Obj(metadata))];
    assert "payload"[0] != "metadata"[0] && "idempotencyKey"[0] != "deduplicationKey"[0] && "createdAt"[0] == 'c';
    assert data[0].key == "payload" && data[1].key == "metadata";
    assert metadata[0].key == "idempotencyKey" && metadata[1].key == "deduplicationKey";
    assert Lookup(data[1..], "metadata") == Some(Obj(metadata));
    assert Lookup(metadata[1..], "deduplicationKey") == Some(Str(deduplicationKey));
    assert metadata[1..][1..] == metadata[2..] && Lookup(metadata[2..], "createdAt") == Some(Str(createdAt));
    assert Lookup(metadata[1..], "createdAt") == Some(Str(createdAt));
  }

  /**
   The worker reads back the payload, the creation time and the keys that were not empty;
   it works on the task that was enqueued exactly when the idempotency key was not empty.
   */
  lemma EnvelopeRoundTrip(
    rules: TextRules, schema: Schema, queueName: string, payload: Json, idempotencyKey: string, deduplicationKey: string,
    now: string, freshId: string, later: string)
    requires !rules.isBlank(REDACTED) && rules.isDate(now)
    requires Accepts(rules, schema, payload) && !rules.isBlank(JobId(rules, idempotencyKey))
    ensures var (task, job) := Enqueue(rules, schema, queueName, payload, idempotencyKey, deduplicationKey, now).value;
            && task == QueueTask(queueName + ":" + idempotencyKey, queueName, Sanitize(rules, payload), idempotencyKey, deduplicationKey, 0, now)
            && job.id == Some("idempotency-" + rules.base64url(idempotencyKey))
            && ToTask(rules, schema, queueName, job, freshId, later).Some?
            && var read := ToTask(rules, schema, queueName, job, freshId, later).value;
               && read.payload == task.payload && read.createdAt == task.createdAt && read.queueName == task.queueName
               && (idempotencyKey != "" ==> read == task.(deduplicationKey := OrElse(deduplicationKey, idempotencyKey)))
               && (read == task <==> idempotencyKey != "" && deduplicationKey != "")
  {
    var (task, job) := Enqueue(rules, schema, queueName, payload, idempotencyKey, deduplicationKey, now).value;
    EnvelopeUnwraps(task.payload, idempotencyKey, deduplicationKey, now);
    SanitizeKeepsSchema(rules, schema, payload);
  }

  /** With an empty key the worker makes up another one from the job id, and so another task. */
  lemma EmptyKeyChangesTask(
    rules: TextRules, schema: Schema, queueName: string, payload: Json, deduplicationKey: string, now: string, freshId: string, later: string)
    requires !rules.isBlank(REDACTED) && rules.isDate(now)
    requires Accepts(rules, schema, payload) && !rules.isBlank(JobId(rules, ""))
    ensures var (task, job) := Enqueue(rules, schema, queueName, payload, "", deduplicationKey, now).value;
            && ToTask(rules, schema, queueName, job, freshId, later).Some?
            && ToTask(rules, schema, queueName, job, freshId, later).value.id == TaskId(queueName, JobId(rules, "")) != task.id
  {
    EnvelopeRoundTrip(rules, schema, queueName, payload, "", deduplicationKey, now, freshId, later);
    var (task, job) := Enqueue(rules, schema, queueName, payload, "", deduplicationKey, now).value;
    EnvelopeUnwraps(task.payload, "", deduplicationKey, now);
    assert |TaskId(queueName, JobId(rules, ""))| > |TaskId(queueName, "")|;
  }
}
