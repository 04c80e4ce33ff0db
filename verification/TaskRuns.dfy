/**
 Task runs and dead letters (packages/db/src/queue.ts): the records in memory, the rows
 they are mirrored to, and the execution of a queued task.
 */
module TaskRuns {
  import opened Common
  import opened Envelope

  datatype RunStatus = Queued | Running | Succeeded | Failed | DeadLettered

  datatype TaskRun = TaskRun(
    id: string, queueName: string, payload: Json, idempotencyKey: string, deduplicationKey: string, status: RunStatus,
    attempts: nat, createdAt: string, startedAt: Option<int>, completedAt: Option<int>, lastHeartbeatAt: Option<int>,
    errorCode: Option<string>, errorMessage: Option<string>)

  datatype LetterStatus = Open | Assigned | Resolved | Discarded

  datatype DeadLetter = DeadLetter(
    id: string, taskRunId: string, queueName: string, payload: Json, errorCode: string, errorMessage: string,
    status: LetterStatus, assignedTo: Option<string>, createdAt: int, updatedAt: int, resolvedAt: Option<int>,
    resolvedBy: Option<string>, note: Option<string>)

  datatype Store = Store(runs: map<string, TaskRun>, letters: map<string, DeadLetter>)

  /** The tables: task_runs and dead_letter_tasks. */
  datatype Tables = Tables(runs: map<string, TaskRun>, letters: map<string, DeadLetter>)

  // Operations

  function NewRun(task: QueueTask): TaskRun {
    TaskRun(task.id, task.queueName, task.payload, task.idempotencyKey, task.deduplicationKey, Queued, 0, task.createdAt,
            None, None, None, None, None)
  }

  function CreateQueued(store: Store, task: QueueTask): Store {
    if task.id in store.runs then store else store.(runs := store.runs[task.id := NewRun(task)])
  }

  /** The patches of `markRunning`, `heartbeat`, `markSucceeded` and `markFailed`. */
  datatype Patch = RunningPatch(at: int) | HeartbeatPatch(at: int) | SucceededPatch(at: int) | FailedPatch(code: string, message: string, at: int)

  function Patched(run: TaskRun, patch: Patch): TaskRun {
    match patch
    case RunningPatch(at) => run.(status := Running, attempts := run.attempts + 1, startedAt := Some(at), lastHeartbeatAt := Some(at))
    case HeartbeatPatch(at) => run.(lastHeartbeatAt := Some(at))
    case SucceededPatch(at) => run.(status := Succeeded, completedAt := Some(at))
    case FailedPatch(code, message, at) =>
      run.(status := Failed, completedAt := Some(at), errorCode := Some(code), errorMessage := Some(message))
  }

  function Mark(store: Store, id: string, patch: Patch): Store {
    if id in store.runs then store.(runs := store.runs[id := Patched(store.runs[id], patch)]) else store
  }

  function LetterId(taskRunId: string): string {
    "dlq:" + taskRunId
  }

  function NewLetter(run: TaskRun, taskRunId: string, code: string, message: string, at: int): DeadLetter {
    DeadLetter(LetterId(taskRunId), taskRunId, run.queueName, run.payload, code, message, Open, None, at, at, None, None, None)
  }

  function MoveToDeadLetter(store: Store, id: string, code: string, message: string, at: int): Store {
    if id !in store.runs then store
    else
      var run := Patched(store.runs[id], FailedPatch(code, message, at)).(status := DeadLettered);
      Store(store.runs[id := run], store.letters[LetterId(id) := NewLetter(run, id, code, message, at)])
  }

  predicate IsClosed(letter: DeadLetter) {
    letter.status == Resolved || letter.status == Discarded
  }

  /** assignDeadLetter, and resolveDeadLetter or discardDeadLetter. */
  datatype Handling =
    | Assign(assignee: string, actor: string, note: Option<string>, at: int)
    | Close(resolved: bool, actor: string, note: Option<string>, at: int)

  function Handled(letter: DeadLetter, handling: Handling): DeadLetter {
    match handling
    case Assign(assignee, actor, note, at) =>
      letter.(status := LetterStatus.Assigned, assignedTo := Some(assignee), updatedAt := at,
              note := Some(note.GetOr("assigned by " + actor)))
    case Close(resolved, actor, note, at) =>
      letter.(status := if resolved then Resolved else Discarded, resolvedAt := Some(at), updatedAt := at, resolvedBy := Some(actor), note := note)
  }

  function Handle(store: Store, letterId: string, handling: Handling): Store {
    if letterId in store.letters && !IsClosed(store.letters[letterId])
    then store.(letters := store.letters[letterId := Handled(store.letters[letterId], handling)])
    else store
  }

  // The upserts

  /** Everything but the id and `created_at` is overwritten. */
  function UpsertRun(rows: map<string, TaskRun>, run: TaskRun): map<string, TaskRun> {
    rows[run.id := if run.id in rows then run.(createdAt := rows[run.id].createdAt) else run]
  }

  /** The task, payload, error and `created_at` of an existing row are left alone. */
  function UpsertLetter(rows: map<string, DeadLetter>, letter: DeadLetter): map<string, DeadLetter> {
    rows[letter.id :=
      if letter.id in rows then
        rows[letter.id].(status := letter.status, assignedTo := letter.assignedTo, updatedAt := letter.updatedAt,
                         resolvedAt := letter.resolvedAt, resolvedBy := letter.resolvedBy, note := letter.note)
      else letter]
  }

  // What the operations do to each field

  /** A patch changes the fields of its kind and no others; a start is one more attempt. */
  lemma PatchMeans(run: TaskRun, patch: Patch)
    ensures var after := Patched(run, patch);
            && after.id == run.id && after.queueName == run.queueName && after.payload == run.payload
            && after.idempotencyKey == run.idempotencyKey && after.deduplicationKey == run.deduplicationKey && after.createdAt == run.createdAt
            && after.attempts - run.attempts == (if patch.RunningPatch? then 1 else 0)
            && after.startedAt == (if patch.RunningPatch? then Some(patch.at) else run.startedAt)
            && after.lastHeartbeatAt == (if patch.RunningPatch? || patch.HeartbeatPatch? then Some(patch.at) else run.lastHeartbeatAt)
            && after.completedAt == (if patch.SucceededPatch? || patch.FailedPatch? then Some(patch.at) else run.completedAt)
            && after.errorCode == (if patch.FailedPatch? then Some(patch.code) else run.errorCode)
            && after.errorMessage == (if patch.FailedPatch? then Some(patch.message) else run.errorMessage)
            && (after.status == Running <==> patch.RunningPatch? || (patch.HeartbeatPatch? && run.status == Running))
            && (after.status == Succeeded <==> patch.SucceededPatch? || (patch.HeartbeatPatch? && run.status == Succeeded))
            && (after.status == Failed <==> patch.FailedPatch? || (patch.HeartbeatPatch? && run.status == Failed))
            && (after.status in {Queued, DeadLettered} <==> patch.HeartbeatPatch? && run.status in {Queued, DeadLettered})
            && (patch.HeartbeatPatch? ==> after.status == run.status)
  {}

  /** Assigning names the assignee, closing the one who closed it; either dates the letter and leaves its task and error alone. */
  lemma HandlingMeans(letter: DeadLetter, handling: Handling)
    ensures var after := Handled(letter, handling);
            && after.id == letter.id && after.taskRunId == letter.taskRunId && after.queueName == letter.queueName && after.payload == letter.payload
            && after.errorCode == letter.errorCode && after.errorMessage == letter.errorMessage && after.createdAt == letter.createdAt
            && after.updatedAt == handling.at
            && after.status == (if handling.Assign? then LetterStatus.Assigned else if handling.resolved then Resolved else Discarded)
            && after.assignedTo == (if handling.Assign? then Some(handling.assignee) else letter.assignedTo)
            && after.resolvedAt == (if handling.Close? then Some(handling.at) else letter.resolvedAt)
            && after.resolvedBy == (if handling.Close? then Some(handling.actor) else letter.resolvedBy)
            && (handling.note.Some? || handling.Close? ==> after.note == handling.note)
            && (handling.Assign? && handling.note.None? ==> after.note == Some("assigned by " + handling.actor))
  {}

  /** A letter is handled exactly while it is open or assigned; nothing else changes. */
  lemma HandleMeans(store: Store, letterId: string, handling: Handling)
    ensures Handle(store, letterId, handling).runs == store.runs
    ensures Handle(store, letterId, handling).letters
         == if letterId in store.letters && store.letters[letterId].status in {Open, LetterStatus.Assigned}
            then store.letters[letterId := Handled(store.letters[letterId], handling)] else store.letters
  {}

  /** Burying leaves the failed run dead-lettered, with an open letter that repeats its queue, payload and error. */
  lemma BuryMeans(store: Store, id: string, code: string, message: string, at: int)
    requires id in store.runs
    ensures var after, run := MoveToDeadLetter(store, id, code, message, at), store.runs[id];
            && after.runs == store.runs[id := Patched(run, FailedPatch(code, message, at)).(status := DeadLettered)]
            && after.letters == store.letters["dlq:" + id := DeadLetter("dlq:" + id, id, run.queueName, run.payload, code, message, Open,
                                                                        None, at, at, None, None, None)]
  {}

  /** An upsert writes everything but the creation date of a known run, and all but the letter's task and error. */
  lemma UpsertsMean(runRows: map<string, TaskRun>, run: TaskRun, letterRows: map<string, DeadLetter>, letter: DeadLetter)
    ensures var row := UpsertRun(runRows, run)[run.id];
            row.(createdAt := run.createdAt) == run && row.createdAt == if run.id in runRows then runRows[run.id].createdAt else run.createdAt
    ensures var row, known := UpsertLetter(letterRows, letter)[letter.id], if letter.id in letterRows then letterRows[letter.id] else letter;
            row == DeadLetter(known.id, known.taskRunId, known.queueName, known.payload, known.errorCode, known.errorMessage,
                              letter.status, letter.assignedTo, known.createdAt, letter.updatedAt, letter.resolvedAt, letter.resolvedBy, letter.note)
  {}

  class TaskRunStore {
    var runs: map<string, TaskRun>
    var letters: map<string, DeadLetter>

    constructor ()
      ensures Contents() == Store(map[], map[])
    {
      runs, letters := map[], map[];
    }

    ghost function Contents(): Store
      reads this
    {
      Store(runs, letters)
    }

    method Create(task: QueueTask) returns (run: TaskRun)
      modifies this
      ensures Contents() == CreateQueued(old(Contents()), task)
      ensures task.id in runs && run == runs[task.id]
    {
      if task.id in runs {
        return runs[task.id];
      }
      run := NewRun(task);
      runs := runs[task.id := run];
    }

    method Patch(id: string, patch: Patch) returns (run: Option<TaskRun>)
      modifies this
      ensures Contents() == Mark(old(Contents()), id, patch)
      ensures run == if id in runs then Some(runs[id]) else None
    {
      if id !in runs {
        return None;
      }
      runs := runs[id := Patched(runs[id], patch)];
      run := Some(runs[id]);
    }

    method BuryTask(id: string, code: string, message: string, at: int) returns (letter: Option<DeadLetter>)
      modifies this
      ensures Contents() == MoveToDeadLetter(old(Contents()), id, code, message, at)
      ensures letter == if id in runs then Some(letters[LetterId(id)]) else None
    {
      var failed := Patch(id, FailedPatch(code, message, at));
      if failed.None? {
        return None;
      }
      var buried := AddLetter(id, code, message, at);
      letter := Some(buried);
    }

    /** The end of `moveToDeadLetter`, after the run was marked failed. */
    method AddLetter(id: string, code: string, message: string, at: int) returns (letter: DeadLetter)
      requires id in runs
      modifies this
      ensures Contents() == Store(old(runs)[id := old(runs)[id].(status := DeadLettered)], old(letters)[LetterId(id) := letter])
      ensures letter == NewLetter(old(runs)[id], id, code, message, at)
    {
      letter := NewLetter(runs[id], id, code, message, at);
      runs := runs[id := runs[id].(status := DeadLettered)];
      letters := letters[letter.id := letter];
    }

    method HandleLetter(letterId: string, handling: Handling) returns (letter: Option<DeadLetter>)
      modifies this
      ensures Contents() == Handle(old(Contents()), letterId, handling)
      ensures letter.Some? <==> letterId in old(letters) && !IsClosed(old(letters)[letterId])
      ensures letter.Some? ==> letter == Some(letters[letterId])
    {
      if letterId !in letters || IsClosed(letters[letterId]) {
        return None;
      }
      letters := letters[letterId := Handled(letters[letterId], handling)];
      letter := Some(letters[letterId]);
    }

    /** executeQueueTask, whose handler's outcome is given: an error code, and whether it forbids a retry. */
    method Execute(task: QueueTask, error: Option<(string, string)>, noRetry: set<string>, started: int, ended: int)
      returns (status: RunStatus)
      modifies this
      ensures status == OutcomeOf(error, noRetry)
      ensures Contents() == Executed(old(Contents()), task, error, noRetry, started, ended)
    {
      var created := Create(task);
      var running := Patch(task.id, RunningPatch(started));
      var alive := Patch(task.id, HeartbeatPatch(started));
      match error {
        case None =>
          var succeeded := Patch(task.id, SucceededPatch(ended));
          status := Succeeded;
        case Some((code, message)) =>
          if code in noRetry {
            var buried := BuryTask(task.id, code, message, ended);
            status := DeadLettered;
          } else {
            var failed := Patch(task.id, FailedPatch(code, message, ended));
            status := Failed;
          }
      }
    }
  }

  function OutcomeOf(error: Option<(string, string)>, noRetry: set<string>): RunStatus {
    if error.None? then Succeeded else if error.value.0 in noRetry then DeadLettered else Failed
  }

  function Executed(store: Store, task: QueueTask, error: Option<(string, string)>, noRetry: set<string>, started: int, ended: int): Store {
    var running := Mark(Mark(CreateQueued(store, task), task.id, RunningPatch(started)), task.id, HeartbeatPatch(started));
    match error
    case None => Mark(running, task.id, SucceededPatch(ended))
    case Some((code, message)) =>
      if code in noRetry then MoveToDeadLetter(running, task.id, code, message, ended)
      else Mark(running, task.id, FailedPatch(code, message, ended))
  }

  /**
   An execution works on the stored run or a new one: one more attempt, both dates, the error if there was
   one. It touches no other run, and leaves an open letter exactly when the error forbids a retry.
   */
  lemma ExecutionLeavesOutcome(store: Store, task: QueueTask, error: Option<(string, string)>, noRetry: set<string>, started: int, ended: int)
    ensures var after := Executed(store, task, error, noRetry, started, ended);
            var run := if task.id in store.runs then store.runs[task.id] else NewRun(task);
            var final := error.Some? && error.value.0 in noRetry;
            && task.id in after.runs && after.runs - {task.id} == store.runs - {task.id}
            && after.runs[task.id]
               == TaskRun(run.id, run.queueName, run.payload, run.idempotencyKey, run.deduplicationKey,
                          if error.None? then Succeeded else if final then DeadLettered else Failed,
                          run.attempts + 1, run.createdAt, Some(started), Some(ended), Some(started),
                          if error.None? then run.errorCode else Some(error.value.0),
                          if error.None? then run.errorMessage else Some(error.value.1))
            && after.letters
               == (if final then
                     store.letters["dlq:" + task.id := DeadLetter("dlq:" + task.id, task.id, run.queueName, run.payload, error.value.0, error.value.1,
                                                                  Open, None, ended, ended, None, None, None)]
                   else store.letters)
  {}

  /**
   A worker that reads an enqueued job back works on the run created at the enqueue exactly when the
   key is not empty; with an empty one it starts another run, unless that one is there already.
   */
  lemma WorkerReusesTheRun(
    store: Store, rules: TextRules, schema: Schema, queueName: string, payload: Json, idempotencyKey: string, deduplicationKey: string,
    now: string, freshId: string, later: string)
    requires !rules.isBlank(REDACTED) && rules.isDate(now)
    requires Accepts(rules, schema, payload) && !rules.isBlank(JobId(rules, idempotencyKey))
    ensures var (task, job) := Enqueue(rules, schema, queueName, payload, idempotencyKey, deduplicationKey, now).value;
            var enqueued := CreateQueued(store, task);
            && ToTask(rules, schema, queueName, job, freshId, later).Some?
            && var read := ToTask(rules, schema, queueName, job, freshId, later).value;
               && (read.id == task.id <==> idempotencyKey != "")
               && (CreateQueued(enqueued, read) == enqueued <==>
                     idempotencyKey != "" || TaskId(queueName, JobId(rules, "")) in store.runs)
  {
    EnvelopeRoundTrip(rules, schema, queueName, payload, idempotencyKey, deduplicationKey, now, freshId, later);
    var (task, job) := Enqueue(rules, schema, queueName, payload, idempotencyKey, deduplicationKey, now).value;
    if idempotencyKey == "" {
      EmptyKeyChangesTask(rules, schema, queueName, payload, deduplicationKey, now, freshId, later);
      var enqueued := CreateQueued(store, task);
      var read := ToTask(rules, schema, queueName, job, freshId, later).value;
      assert read.id in CreateQueued(enqueued, read).runs;
    }
  }

  // Runs of the Postgres store

  datatype Mirror = Mirror(store: Store, tables: Tables)

  datatype Op =
    | CreateOp(task: QueueTask)
    | MarkOp(id: string, patch: Patch)
    | BuryOp(id: string, code: string, message: string, at: int)
    | HandleOp(letterId: string, handling: Handling)
    | Restart

  function Apply(mirror: Mirror, op: Op): Mirror {
    match op
    case CreateOp(task) =>
      var store := CreateQueued(mirror.store, task);
      Mirror(store, mirror.tables.(runs := UpsertRun(mirror.tables.runs, store.runs[task.id])))
    case MarkOp(id, patch) =>
      var store := Mark(mirror.store, id, patch);
      Mirror(store, if id in store.runs then mirror.tables.(runs := UpsertRun(mirror.tables.runs, store.runs[id])) else mirror.tables)
    case BuryOp(id, code, message, at) =>
      if id !in mirror.store.runs then mirror
      else
        // The overridden `markFailed` writes the failed run first.
        var failed := Mark(mirror.store, id, FailedPatch(code, message, at));
        var store := MoveToDeadLetter(mirror.store, id, code, message, at);
        Mirror(store, Tables(UpsertRun(UpsertRun(mirror.tables.runs, failed.runs[id]), store.runs[id]),
                             UpsertLetter(mirror.tables.letters, store.letters[LetterId(id)])))
    case HandleOp(letterId, handling) =>
      var store := Handle(mirror.store, letterId, handling);
      if letterId in mirror.store.letters && !IsClosed(mirror.store.letters[letterId])
      then Mirror(store, mirror.tables.(letters := UpsertLetter(mirror.tables.letters, store.letters[letterId])))
      else Mirror(store, mirror.tables)
    case Restart => Mirror(Store(mirror.tables.runs, mirror.tables.letters), mirror.tables)
  }

  /** The Postgres store: every record an operation returns is written to its table. */
  class PostgresTaskRunStore {
    const memory: TaskRunStore
    var runRows: map<string, TaskRun>
    var letterRows: map<string, DeadLetter>

    constructor (store: TaskRunStore, tables: Tables)
      ensures memory == store && runRows == tables.runs && letterRows == tables.letters
    {
      memory, runRows, letterRows := store, tables.runs, tables.letters;
    }

    ghost function Contents(): Mirror
      reads this, memory
    {
      Mirror(memory.Contents(), Tables(runRows, letterRows))
    }

    method Create(task: QueueTask) returns (run: TaskRun)
      requires forall id :: id in memory.runs ==> memory.runs[id].id == id
      modifies this, memory
      ensures Contents() == Apply(old(Contents()), CreateOp(task))
    {
      run := memory.Create(task);
      runRows := UpsertRun(runRows, run);
    }

    method PatchRun(id: string, patch: Patch) returns (run: Option<TaskRun>)
      requires forall id :: id in memory.runs ==> memory.runs[id].id == id
      modifies this, memory
      ensures Contents() == Apply(old(Contents()), MarkOp(id, patch))
      ensures run == if id in memory.runs then Some(memory.runs[id]) else None
    {
      run := memory.Patch(id, patch);
      if run.Some? {
        runRows := UpsertRun(runRows, run.value);
      }
    }

    /** `markFailed` is overridden, so the failed run is written before the dead-lettered one. */
    method BuryTask(id: string, code: string, message: string, at: int) returns (letter: Option<DeadLetter>)
      requires forall id :: id in memory.runs ==> memory.runs[id].id == id
      modifies this, memory
      ensures Contents() == Apply(old(Contents()), BuryOp(id, code, message, at))
      ensures letter.Some? <==> id in old(memory.runs)
    {
      var failed := PatchRun(id, FailedPatch(code, message, at));
      if failed.None? {
        return None;
      }
      var buried := memory.AddLetter(id, code, message, at);
      runRows := UpsertRun(runRows, memory.runs[id]);
      letterRows := UpsertLetter(letterRows, buried);
      letter := Some(buried);
    }

    method HandleLetter(letterId: string, handling: Handling) returns (letter: Option<DeadLetter>)
      requires forall id :: id in memory.letters ==> memory.letters[id].id == id
      modifies this, memory
      ensures Contents() == Apply(old(Contents()), HandleOp(letterId, handling))
    {
      letter := memory.HandleLetter(letterId, handling);
      if letter.Some? {
        letterRows := UpsertLetter(letterRows, letter.value);
      }
    }
  }

  const EMPTY := Mirror(Store(map[], map[]), Tables(map[], map[]))

  function After(ops: seq<Op>): Mirror {
    if ops == [] then EMPTY else Apply(After(ops[..|ops| - 1]), ops[|ops| - 1])
  }

  /** A letter and its row agree on everything but the error and the creation date. */
  predicate SameLetter(letter: DeadLetter, row: DeadLetter) {
    letter == row.(errorCode := letter.errorCode, errorMessage := letter.errorMessage, createdAt := letter.createdAt)
  }

  ghost predicate RunsAgree(mirror: Mirror) {
    mirror.store.runs == mirror.tables.runs && forall id :: id in mirror.store.runs ==> mirror.store.runs[id].id == id
  }

  ghost predicate LettersAgree(mirror: Mirror) {
    && mirror.store.letters.Keys == mirror.tables.letters.Keys
    && (forall id :: id in mirror.store.letters ==> LetterIsSound(mirror.store, id, mirror.store.letters[id], mirror.tables.letters[id]))
  }

  ghost predicate LetterIsSound(store: Store, id: string, letter: DeadLetter, row: DeadLetter) {
    && SameLetter(letter, row) && letter.id == id == LetterId(letter.taskRunId)
    && letter.taskRunId in store.runs
    && letter.queueName == store.runs[letter.taskRunId].queueName && letter.payload == store.runs[letter.taskRunId].payload
  }

  lemma LetterIdsDiffer(left: string, right: string)
    requires LetterId(left) == LetterId(right)
    ensures left == right
  {
    assert left == LetterId(left)[4..] && right == LetterId(right)[4..];
  }

  lemma MarkKeepsLetters(mirror: Mirror, id: string, run: TaskRun, runRows: map<string, TaskRun>)
    requires LettersAgree(mirror)
    requires id in mirror.store.runs ==> run.payload == mirror.store.runs[id].payload && run.queueName == mirror.store.runs[id].queueName
    ensures LettersAgree(Mirror(mirror.store.(runs := mirror.store.runs[id := run]), mirror.tables.(runs := runRows)))
  {}

  lemma BuryKeepsMirror(mirror: Mirror, id: string, code: string, message: string, at: int)
    requires RunsAgree(mirror) && LettersAgree(mirror) && id in mirror.store.runs
    ensures RunsAgree(Apply(mirror, BuryOp(id, code, message, at))) && LettersAgree(Apply(mirror, BuryOp(id, code, message, at)))
  {
    var after := Apply(mirror, BuryOp(id, code, message, at));
    var run := after.store.runs[id];
    MarkKeepsLetters(mirror, id, run, after.tables.runs);
    if LetterId(id) in mirror.tables.letters {
      LetterIdsDiffer(id, mirror.tables.letters[LetterId(id)].taskRunId);
    }
  }

  lemma HandleKeepsMirror(mirror: Mirror, letterId: string, handling: Handling)
    requires RunsAgree(mirror) && LettersAgree(mirror)
    ensures RunsAgree(Apply(mirror, HandleOp(letterId, handling))) && LettersAgree(Apply(mirror, HandleOp(letterId, handling)))
  {}

  lemma OpKeepsMirror(mirror: Mirror, op: Op)
    requires RunsAgree(mirror) && LettersAgree(mirror)
    ensures RunsAgree(Apply(mirror, op)) && LettersAgree(Apply(mirror, op))
  {
    match op
    case CreateOp(task) => MarkKeepsLetters(mirror, task.id, CreateQueued(mirror.store, task).runs[task.id], Apply(mirror, op).tables.runs);
    case MarkOp(id, patch) =>
      if id in mirror.store.runs {
        MarkKeepsLetters(mirror, id, Patched(mirror.store.runs[id], patch), Apply(mirror, op).tables.runs);
      }
    case BuryOp(id, code, message, at) =>
      if id in mirror.store.runs { BuryKeepsMirror(mirror, id, code, message, at); }
    case HandleOp(letterId, handling) => HandleKeepsMirror(mirror, letterId, handling);
    case Restart =>
  }

  /** After any operations and restarts the run rows are the records, and the letters agree but for error and date. */
  lemma {:induction false} TablesMirrorRecords(ops: seq<Op>)
    ensures RunsAgree(After(ops)) && LettersAgree(After(ops))
  {
    if ops != [] {
      TablesMirrorRecords(ops[..|ops| - 1]);
      OpKeepsMirror(After(ops[..|ops| - 1]), ops[|ops| - 1]);
    }
  }

  // What a run tells of its task

  predicate Starts(op: Op, id: string) {
    op.MarkOp? && op.id == id && op.patch.RunningPatch?
  }

  /** How often the run was started since its creation at `first`. */
  function StartsAfter(ops: seq<Op>, id: string, first: nat): nat {
    if |ops| <= first + 1 then 0
    else StartsAfter(ops[..|ops| - 1], id, first) + if Starts(ops[|ops| - 1], id) then 1 else 0
  }

  predicate Creates(op: Op, id: string) {
    op.CreateOp? && op.task.id == id
  }

  /** The run is of the task first created under its id, and its attempts are its starts since then. */
  ghost predicate TellsTask(ops: seq<Op>, run: TaskRun, first: int) {
    && 0 <= first < |ops| && Creates(ops[first], run.id) && (forall i :: 0 <= i < first ==> !Creates(ops[i], run.id))
    && run.queueName == ops[first].task.queueName && run.payload == ops[first].task.payload && run.createdAt == ops[first].task.createdAt
    && run.idempotencyKey == ops[first].task.idempotencyKey && run.deduplicationKey == ops[first].task.deduplicationKey
    && run.attempts == StartsAfter(ops, run.id, first)
  }

  lemma TellsTaskLater(ops: seq<Op>, op: Op, before: TaskRun, after: TaskRun, first: int)
    requires TellsTask(ops, before, first)
    requires after.id == before.id && after.queueName == before.queueName && after.payload == before.payload && after.createdAt == before.createdAt
    requires after.idempotencyKey == before.idempotencyKey && after.deduplicationKey == before.deduplicationKey
    requires after.attempts == before.attempts + if Starts(op, before.id) then 1 else 0
    ensures TellsTask(ops + [op], after, first)
  {
    var more := ops + [op];
    assert more[..|more| - 1] == ops;
    assert forall i :: 0 <= i < |ops| ==> more[i] == ops[i];
  }

  /** What an operation makes of a known run, as far as its task and attempts go. */
  lemma OpKeepsTask(mirror: Mirror, op: Op, id: string)
    requires RunsAgree(mirror) && LettersAgree(mirror) && id in mirror.store.runs
    ensures id in Apply(mirror, op).store.runs
    ensures var before, after := mirror.store.runs[id], Apply(mirror, op).store.runs[id];
            && after.id == before.id && after.queueName == before.queueName && after.payload == before.payload && after.createdAt == before.createdAt
            && after.idempotencyKey == before.idempotencyKey && after.deduplicationKey == before.deduplicationKey
            && after.attempts == before.attempts + if Starts(op, id) then 1 else 0
  {}

  lemma OnlyCreatingAddsRuns(mirror: Mirror, op: Op, id: string)
    requires RunsAgree(mirror) && LettersAgree(mirror) && id !in mirror.store.runs
    ensures id in Apply(mirror, op).store.runs <==> Creates(op, id)
    ensures Creates(op, id) ==>
              var task := op.task;
              Apply(mirror, op).store.runs[id]
              == TaskRun(id, task.queueName, task.payload, task.idempotencyKey, task.deduplicationKey, Queued, 0, task.createdAt, None, None, None, None, None)
  {}

  /** Every stored run of every run of the store, restarts or not, is of the first task of its id and counts its starts; no other is stored. */
  lemma {:induction false} RunsTellTheirTask(ops: seq<Op>, id: string)
    ensures id in After(ops).store.runs <==> exists i :: 0 <= i < |ops| && Creates(ops[i], id)
    ensures id in After(ops).store.runs ==> exists first :: TellsTask(ops, After(ops).store.runs[id], first)
  {
    if ops != [] {
      var front, op := ops[..|ops| - 1], ops[|ops| - 1];
      var before := After(front);
      RunsTellTheirTask(front, id);
      TablesMirrorRecords(front);
      assert ops == front + [op] && forall i :: 0 <= i < |front| ==> ops[i] == front[i];
      if id in before.store.runs {
        OpKeepsTask(before, op, id);
        var first :| TellsTask(front, before.store.runs[id], first);
        TellsTaskLater(front, op, before.store.runs[id], After(ops).store.runs[id], first);
        assert Creates(ops[first], id);
      } else {
        OnlyCreatingAddsRuns(before, op, id);
        if Creates(op, id) {
          assert TellsTask(ops, After(ops).store.runs[id], |front|);
        }
      }
    }
  }

  /** A closed letter stays closed, as it was closed, until its task is dead-lettered again. */
  lemma {:induction false} ClosedLettersStay(ops: seq<Op>, i: nat, letterId: string)
    requires i <= |ops| && letterId in After(ops[..i]).store.letters
    requires After(ops[..i]).store.letters[letterId].status in {Resolved, Discarded}
    requires forall k :: i <= k < |ops| && ops[k].BuryOp? ==> ops[k].id != After(ops[..i]).store.letters[letterId].taskRunId
    ensures letterId in After(ops).store.letters
    ensures SameLetter(After(ops).store.letters[letterId], After(ops[..i]).store.letters[letterId])
    decreases |ops|
  {
    if i == |ops| {
      assert ops[..i] == ops;
    } else {
      var front, op := ops[..|ops| - 1], ops[|ops| - 1];
      assert front[..i] == ops[..i];
      ClosedLettersStay(front, i, letterId);
      TablesMirrorRecords(front);
      ClosedLetterStays(After(front), op, letterId);
    }
  }

  lemma ClosedLetterStays(mirror: Mirror, op: Op, letterId: string)
    requires RunsAgree(mirror) && LettersAgree(mirror)
    requires letterId in mirror.store.letters && mirror.store.letters[letterId].status in {Resolved, Discarded}
    requires op.BuryOp? ==> op.id != mirror.store.letters[letterId].taskRunId
    ensures letterId in Apply(mirror, op).store.letters
    ensures SameLetter(Apply(mirror, op).store.letters[letterId], mirror.store.letters[letterId])
  {
    if op.BuryOp? && LetterId(op.id) == letterId {
      LetterIdsDiffer(op.id, mirror.store.letters[letterId].taskRunId);
    }
  }

  // Which error a letter's row keeps

  predicate Buries(ops: seq<Op>, i: int, id: string) {
    0 <= i < |ops| && ops[i].BuryOp? && ops[i].id == id && id in After(ops[..i]).store.runs
  }

  /** The row tells of the first time the task was dead-lettered in the whole run. */
  ghost predicate TellsOf(row: DeadLetter, ops: seq<Op>, i: int) {
    && 0 <= i < |ops| && Buries(ops, i, row.taskRunId)
    && row.errorCode == ops[i].code && row.errorMessage == ops[i].message && row.createdAt == ops[i].at
    && forall k :: 0 <= k < i ==> !Buries(ops, k, row.taskRunId)
  }

  lemma BuriesInPrefix(ops: seq<Op>, op: Op, i: int, id: string)
    requires i < |ops|
    ensures Buries(ops + [op], i, id) <==> Buries(ops, i, id)
  {
    if 0 <= i {
      assert (ops + [op])[..i] == ops[..i];
    }
  }

  ghost predicate RowsTellFirst(ops: seq<Op>) {
    && (forall id :: LetterId(id) in After(ops).tables.letters ==> exists i :: TellsOf(After(ops).tables.letters[LetterId(id)], ops, i))
    && (forall id :: LetterId(id) !in After(ops).tables.letters ==> forall i :: !Buries(ops, i, id))
  }

  lemma TellsOfLonger(row: DeadLetter, ops: seq<Op>, op: Op, i: int)
    requires TellsOf(row, ops, i)
    ensures TellsOf(row, ops + [op], i)
  {
    BuriesInPrefix(ops, op, i, row.taskRunId);
    forall k | 0 <= k < i
      ensures !Buries(ops + [op], k, row.taskRunId)
    {
      BuriesInPrefix(ops, op, k, row.taskRunId);
    }
  }

  lemma KnownLetterIsTold(ops: seq<Op>, op: Op, letterId: string, i: int)
    requires letterId in After(ops).tables.letters && TellsOf(After(ops).tables.letters[letterId], ops, i)
    ensures letterId in After(ops + [op]).tables.letters && TellsOf(After(ops + [op]).tables.letters[letterId], ops + [op], i)
  {
    assert (ops + [op])[..|ops|] == ops;
    TablesMirrorRecords(ops);
    RowKeepsError(After(ops), op, letterId);
    TellsOfLonger(After(ops).tables.letters[letterId], ops, op, i);
  }

  lemma NewLetterIsTold(ops: seq<Op>, op: Op, id: string)
    requires LetterId(id) !in After(ops).tables.letters && forall i :: !Buries(ops, i, id)
    ensures LetterId(id) in After(ops + [op]).tables.letters ==> TellsOf(After(ops + [op]).tables.letters[LetterId(id)], ops + [op], |ops|)
    ensures LetterId(id) !in After(ops + [op]).tables.letters ==> forall i :: !Buries(ops + [op], i, id)
  {
    assert (ops + [op])[..|ops|] == ops;
    forall i | i < |ops|
      ensures !Buries(ops + [op], i, id)
    {
      BuriesInPrefix(ops, op, i, id);
    }
    if LetterId(id) in After(ops + [op]).tables.letters {
      TablesMirrorRecords(ops);
      LetterAppears(After(ops), op, id);
    }
  }

  lemma OpTellsFirst(ops: seq<Op>, op: Op, id: string)
    requires RowsTellFirst(ops)
    ensures var rows := After(ops + [op]).tables.letters;
            && (LetterId(id) in rows ==> exists i :: TellsOf(rows[LetterId(id)], ops + [op], i))
            && (LetterId(id) !in rows ==> forall i :: !Buries(ops + [op], i, id))
  {
    if LetterId(id) in After(ops).tables.letters {
      var i :| TellsOf(After(ops).tables.letters[LetterId(id)], ops, i);
      KnownLetterIsTold(ops, op, LetterId(id), i);
    } else {
      NewLetterIsTold(ops, op, id);
    }
  }

  lemma RowKeepsError(mirror: Mirror, op: Op, letterId: string)
    requires letterId in mirror.tables.letters && LettersAgree(mirror)
    ensures var row := mirror.tables.letters[letterId];
            && letterId in Apply(mirror, op).tables.letters
            && var kept := Apply(mirror, op).tables.letters[letterId];
               kept.taskRunId == row.taskRunId && kept.errorCode == row.errorCode && kept.errorMessage == row.errorMessage
               && kept.createdAt == row.createdAt
  {}

  lemma LetterAppears(mirror: Mirror, op: Op, id: string)
    requires LettersAgree(mirror)
    requires LetterId(id) !in mirror.tables.letters && LetterId(id) in Apply(mirror, op).tables.letters
    ensures op.BuryOp? && op.id == id && id in mirror.store.runs
    ensures var row := Apply(mirror, op).tables.letters[LetterId(id)];
            row.taskRunId == id && row.errorCode == op.code && row.errorMessage == op.message && row.createdAt == op.at
  {
    if op.BuryOp? && LetterId(op.id) == LetterId(id) {
      LetterIdsDiffer(op.id, id);
    }
  }

  /** A letter's row keeps the first error and date, however often the task is dead-lettered again. */
  lemma {:induction false} RowsKeepFirstError(ops: seq<Op>)
    ensures RowsTellFirst(ops)
  {
    if ops != [] {
      var front, last := ops[..|ops| - 1], ops[|ops| - 1];
      RowsKeepFirstError(front);
      assert ops == front + [last];
      forall id
        ensures LetterId(id) in After(ops).tables.letters ==> exists i :: TellsOf(After(ops).tables.letters[LetterId(id)], ops, i)
        ensures LetterId(id) !in After(ops).tables.letters ==> forall i :: !Buries(ops, i, id)
      {
        OpTellsFirst(front, last, id);
      }
    }
  }
}
