# A verified model of the job-search application runtime

The repository finds vacancies, prepares applications, has a person approve them and submits
them through providers. This project models the code that decides what is sent, and proves
what it promises over whole runs. Main results are about every reachable state or every input.

- **Submit protocol** (`SubmitWorker`, `SubmitProtocol`, `SubmitPolicy`, `Records`, `Approvals`).
  One state machine: ingest and dedup, application records, approval requests, the approving
  handlers of the API and the Telegram bot, the enqueue call they wait for, and the submit worker
  cut into the three segments that run between its two awaits. Any number of executions, handlers
  and clock ticks interleave; the provider's answers and failures, mode changes and identifiers are
  chosen freely by the steps. `log` and `approvals` are history variables.
- **Its theorems.** No second submit without a new approval (`SubmitOnce`); only approved content is
  submitted (`SubmitProvenance`); what every submit is made with, and what a rejection stops
  (`SubmitCalls`); no two submits to one listing or vacancy (`SubmitDedup`);
  rate limits over whole runs (`SubmitRates`); at most one successful submit (`SubmitSuccess`);
  when a submit beats the expiry of its approval (`SubmitExpiry`).
- **Why they assume what they assume.** Runs of the same machine, built with `SubmitRuns` on
  `SubmitStage`, that break a theorem's conclusion when just one of its assumptions is dropped: dates
  (`SubmitBackdating`), undisturbed and non-overlapping calls (`SubmitDisturbed`), stable jobs
  (`SubmitReingested`), fresh proofs (`SubmitReproved`). `SubmitRejected` is the bot's crash.
- **Its code.** `Database`, `SubmitRuntime` and `Ingest` hold the same operations as methods on a
  mutable database. They are a refinement layer: each method is proved equal to the function that a
  protocol step takes, and the theorems are about those functions.
- **Rate limits.** The sliding window over history (`RateLimits`) and the fixed-window counter
  (`RateLimitCounters`).
- **Flow runner** (`FuelledWalk`, `FlowRunner`): the loop with 25 steps of fuel against the walk without fuel.
- **Queue** (`Idempotency`, `TaskRuns`, `Envelope`): records, the rows they are mirrored to,
  restarts, payload sanitizing and the job envelope.
- **Messages** (`Outbound`, `FollowUps`), **time and calendars** (`ZonedTime`, `Scheduling`,
  `IcsLines`, `IcsEvents`).

`dafny verify dfyconfig.toml` checks everything.

## Conventions

- Hashes are free constructors: `stableHash(JSON.stringify(...))` is taken to be injective.
  Random identifiers are parameters that a step requires to be fresh.
- Clocks are integers in milliseconds (seconds in `ZonedTime`); a protocol run has one clock that
  never goes back, and the API's optional clock in the request body is a separate parameter.
- Regular expressions, case folding, URL parsing, scoring, resume routing, cover letters and
  time-zone data are functions the model is given.
- Records are values in maps. The source changes records in place, so a record it holds is always
  the stored one; the model looks it up again. The only record the worker holds that a map update
  replaces in the source is the job, and the protocol keeps the one read before the first await.

## Findings

- Approving an already approved request queues the application again
  (`SubmitWorker.ApiQueuesExactlyWhen`). The dry-run proof, not the approval, is what stops a
  second successful submit: the submit's own proof replaces it (`SubmitSuccess`). A submit proof that
  claims a dry-run success, or is overwritten by one, lets it be submitted again (`SubmitReproved`).
- The approval is checked only before the health check. A submit reaches the provider after the expiry
  of its approval exactly when the clock has advanced in between by what the approval had left
  (`SubmitExpiry.CallBeatsExpiryExactlyWhen`); this happens for every lifetime and every longer wait,
  even past a sweep or when the request has been marked expired (`SubmitExpiry.ExpiredApprovalIsSubmitted`).
- `conversation_only` mode lets submits through (`SubmitWorker.CallsProviderExactlyWhen`).
- The API dates a queued submit by the request body's clock but checks limits against its own. A date
  after the clock does no harm; any date before it, by however little, can break the limits
  (`SubmitBackdating.AnyBackdatingBreaksLimit`).
- While a call to the provider is unanswered its application can lose its place, which the answer then
  fills again: by an enqueue that fails late, with a single execution (`SubmitDisturbed.FailedEnqueueBreaksLimit`),
  by a second task without an approval (`SubmitDisturbed.SecondTaskBreaksLimit`), or by the answer of an
  earlier call, though the application stays counted all the time (`SubmitDisturbed.EarlierAnswerBreaksLimit`).
  The last run also submits one application successfully twice (`SubmitDisturbed.OverlapSucceedsTwice`).
- A job ingested again with other contents may join a company whose day is full
  (`SubmitReingested.ReingestBreaksLimit`), or take the keys of a job already submitted and be
  submitted too (`SubmitReingested.SwappedJobsAreBothCalled`).
- Rejecting a request that is approved and still applies makes the bot read a null submit plan and throw
  (`SubmitWorker.TelegramThrowsExactlyWhen`); nothing is written, and the submit goes on as approved
  (`SubmitRejected.RejectedIsSubmitted`).
- A counter window can be followed so closely by the next that `2 * limit - 1` grants fall into one
  window's length, and never more; only a window of one millisecond is bounded by the limit itself.
- The flow runner ignores a failing guard whose name is empty and does not look at the ones after it: past
  a failing captcha guard it reaches the submit boundary (`FlowRunner.UnnamedGuardHidesTheNext`).
- Interview slots of any length below an hour come closer to an interview than the buffers intend
  (`Scheduling.ShortSlotComesCloser`); cancelled interviews still block their time and count for the day.
- A slot whose date is not written in ten characters is stored under another date (`Scheduling.OtherDatesAreLost`).
- A task dead-lettered again shows its latest error until a restart brings back the first one
  (`TaskRuns.RowsKeepFirstError`), and a re-acquired key gets its first acquisition date back
  (`Idempotency.RestartRestoresFirstDate`).
- An empty idempotency key gives the worker another task than the one enqueued.
- `resetAt` of a full window is wrong when the oldest counted record is dated at the epoch.

## Model

| member | source | states |
|---|---|---|
| `SubmitOnce.NoResubmitWithoutNewApproval` | apps/worker-apply/src/runner.ts:170-328 | in every run, between any two provider calls for one application an approving call queued it again, whatever retries, duplicates and throws interleave |
| `SubmitOnce.CallsNeverExceedEntries` | apps/worker-apply/src/runner.ts:220-301 | in every reachable state the provider calls for an application are at most the times it entered `application_prepared` or `apply_queued`, and one less while it is ready |
| `SubmitProvenance.OnlyApprovedDraftsAreSubmitted` | apps/worker-apply/src/runner.ts:368-452 | every draft handed to a provider is, field for field, the content hashed when its application was created, and a request for exactly that hash was approved by presenting it and was unexpired when the same execution validated its payload |
| `SubmitProvenance.ProtocolBookIsRun` | packages/db/src/index.ts:417-552 | the approval requests of every protocol run are a run of the approval book, so its theorems apply |
| `SubmitCalls.CallsAreCovered` | apps/worker-apply/src/runner.ts:222-300 | whenever a call is logged in any run: the application is prepared or queued and linked to a stored proof whose provider and entity are its own provider and job, with a dry-run status, no error, a completion date and both artifacts; a canary of that provider passed within a day; the stored job is shortlisted and decided "new"; the mode, consent and configuration allow submits |
| `SubmitCalls.RejectedIsNeverValidated` | apps/api/src/server.ts:659-670 | once the API or the bot rejects a pending request before its expiry anywhere in a run, it stays rejected and no execution of the whole run validates it |
| `SubmitCalls.NoCallRestsOnRejected` | apps/worker-apply/src/runner.ts:194-219 | so the validation behind every logged call names another request |
| `SubmitCalls.FailedEnqueueLeaves` | apps/api/src/server.ts:681-698 | an enqueue that fails right after a handler queued the submit leaves the application for review, with the date the API gave it and without the one the bot gave it; one that succeeds changes nothing |
| `SubmitCalls.OneApplicationPerKey` | packages/db/src/index.ts:294-329 | in every reachable state no two applications share an idempotency key |
| `SubmitCalls.StepLeavesExecution` | apps/worker-apply/src/runner.ts:170-328 | a worker step leaves its execution suspended at the next await exactly when it came that far, ended otherwise, and moves no other execution |
| `SubmitCalls.EndedStaysEnded` | apps/worker-apply/src/runner.ts:170-328 | in every run an ended execution stays ended |
| `SubmitCalls.WorkerStepIsLogged` | apps/worker-apply/src/runner.ts:180-320 | every validation that lets an execution on, every call and every answer is logged, with its application's new status and date; a step that ends an execution otherwise logs nothing |
| `SubmitDedup.NewJobsNeverShareKeys` | apps/worker-ingest/src/runner.ts:101-107 | in every reachable store two jobs decided "new" differ in provider or external id, in canonical URL, in title, company or description, and in company, title or seniority, however jobs are re-ingested |
| `SubmitDedup.NoTwoCallsShareAKey` | apps/worker-apply/src/runner.ts:222-247 | if re-ingested jobs keep these fields, no two provider calls of a run go to different jobs that agree in one of the four ways |
| `SubmitDedup.IngestedIsNewExactlyWhen` | packages/domain/src/services.ts:124-175 | an ingested job is decided "new" exactly when it is no other stored job's listing or vacancy |
| `SubmitDedup.IngestDecides` | packages/domain/src/services.ts:53-65 | ingest stores the decision on the jobs' own fields: duplicate exactly when another stored job has the same provider and external id or the same canonical URL, possible duplicate when only title, company and description or company, title and seniority agree, new otherwise |
| `SubmitRates.NoWindowExceedsItsLimit` | packages/db/src/rate-limits.ts:58-153 | in every run in which no queued submit is dated before the clock, no re-ingested job joins the limit's group and no step uncounts an application with an unanswered call or dates it before the call, each hour, day and week, overall and for each provider, company and clone group, wherever it ends, holds at most the limit of queued, applying or applied applications |
| `SubmitRates.HoursAndDaysAreBounded` | packages/db/src/rate-limits.ts:93-117 | its hourly and daily part in plain numbers: of the applications dated within any hour or day, and for one provider within any hour |
| `SubmitRates.CompaniesAreBounded` | packages/db/src/rate-limits.ts:118-133 | its company part: of the applications for jobs of one company within any day or week |
| `SubmitRates.RolesAreBounded` | packages/db/src/rate-limits.ts:134-149 | its clone part: of the applications for jobs alike in company, title and seniority within any day or week |
| `SubmitRates.UndisturbedExactlyWhen` | apps/worker-apply/src/runner.ts:180-320 | a step leaves unanswered calls undisturbed exactly when it neither stops their applications, nor queues them at an earlier date, nor answers another call of them that failed or was dated earlier |
| `SubmitBackdating.AnyBackdatingBreaksLimit` | apps/api/src/server.ts:612-682 | for every hourly limit below the others and every amount of time, a run that meets the other assumptions, dates one submit back by that amount, and puts one application too many into an hour |
| `SubmitDisturbed.FailedEnqueueBreaksLimit` | apps/api/src/server.ts:681-698 | a run that meets the other assumptions, with a single execution, in which a failed enqueue lets two applications into an hour that allows one |
| `SubmitDisturbed.SecondTaskBreaksLimit` | apps/worker-apply/src/runner.ts:211-219 | so does a second task whose payload carries no approval, while both enqueues are still waited for |
| `SubmitDisturbed.EarlierAnswerBreaksLimit` | apps/worker-apply/src/runner.ts:302-320 | so does the answer of an earlier call, though every application with an unanswered call stays counted in every state |
| `SubmitDisturbed.OverlapSucceedsTwice` | apps/worker-apply/src/runner.ts:299-320 | with fresh proofs but overlapping calls, a run in which one application is submitted successfully twice |
| `SubmitReingested.ReingestBreaksLimit` | apps/worker-ingest/src/runner.ts:101-107 | a run that meets the other assumptions, in which a job ingested again joins a company and its day holds two applications where one is allowed |
| `SubmitReingested.SwappedJobsAreBothCalled` | apps/worker-ingest/src/runner.ts:101-107 | a run whose re-ingested jobs change their keys, with provider calls for two different jobs that share one |
| `SubmitReproved.ClaimedDryRunIsResubmitted` | apps/worker-apply/src/runner.ts:302-310 | a run with fresh proof ids in which a submit's proof claims a dry-run success, and the answered application is submitted again |
| `SubmitReproved.OverwrittenProofIsResubmitted` | packages/db/src/index.ts:558-587 | so is it when the submit's honest proof is overwritten under its own id |
| `SubmitExpiry.CallBeatsExpiryExactlyWhen` | apps/worker-apply/src/runner.ts:194-301 | in every run a logged provider call is made before the expiry of the request its execution validated exactly when the clock has advanced since by less than the request had left, and is late by less than that advance |
| `SubmitExpiry.CallHasBegun` | apps/worker-apply/src/runner.ts:180-219 | every logged call has such a validation behind it, made by its own execution |
| `SubmitExpiry.DecideIgnoresBook` | apps/worker-apply/src/runner.ts:222-301 | after the health check the worker decides and writes the same whatever has become of every approval request |
| `SubmitExpiry.ExpiredApprovalIsSubmitted` | apps/worker-apply/src/runner.ts:194-301 | for every lifetime of an approval and every wait at least as long, a run that calls the provider after the expiry, with nothing in between, past a sweep, or after the request was marked expired |
| `SubmitSuccess.AnsweredIsNeverResubmitted` | apps/worker-apply/src/runner.ts:232-310 | if proofs have fresh ids and a submit's proof claims no dry run, an application whose submit was answered is never submitted again, whatever approvals follow |
| `SubmitSuccess.AtMostOneSubmissionSucceeds` | apps/worker-apply/src/runner.ts:299-320 | without overlapping calls for one application, at most one submit of it is ever answered |
| `SubmitSuccess.AppliedOnlyWhenAccepted` | apps/worker-apply/src/runner.ts:302-320 | an application is `applied` only after its provider answered a submit with `submitted` |
| `SubmitWorker.AwaitsHealthExactlyWhen` | apps/worker-apply/src/runner.ts:180-219 | an execution reaches the health check exactly with a stored application and job, a registered provider and an approved, unexpired request for the hash that application and payload carry; otherwise it leaves the application failed or for review |
| `SubmitWorker.RateAllowedExactlyWhen` | packages/db/src/rate-limits.ts:58-153 | a submit is within the limits exactly when the other queued, applying or applied applications dated within an hour or day, for its provider within an hour, for its company and for jobs alike within a day or week leave room for it |
| `SubmitWorker.CallsProviderExactlyWhen` | apps/worker-apply/src/runner.ts:222-300 | the second segment calls the provider exactly with mode, consent, status, score, decision, health, limits, key and rebuilt draft in order, a canary of the provider passed at most a day ago, and a stored, linked proof that is right field by field |
| `SubmitWorker.DecisionLeaves` | apps/worker-apply/src/runner.ts:259-300 | without a call the application is blocked by policy exactly when the engine denies outright and goes to review otherwise; with one it is `applying`, dated by itself or by the clock; nothing else changes |
| `SubmitWorker.DraftIsRebuiltExactlyWhen` | apps/worker-apply/src/runner.ts:403-452 | a draft is rebuilt exactly when a resume is found, its letter passes and the content is the one hashed; which content that is, field by field |
| `SubmitWorker.AnswerLeaves` | apps/worker-apply/src/runner.ts:302-320 | the answer's pack is stored and linked, the status follows the answer, and only a submitted one is dated again |
| `SubmitWorker.ApiQueuesExactlyWhen` | apps/api/src/server.ts:603-701 | the API queues a submit exactly when an approving call presents the application's hash for a pending or approved request unexpired on both clocks, within the limits and with irreversible actions on; the date is the caller's |
| `SubmitWorker.ApiRejectsPending` | apps/api/src/server.ts:659-670 | a rejection that presents the request's hash leaves a pending request rejected before its expiry and expired from then on, dated by the call's clock, with exactly one event, and nothing else changed |
| `SubmitWorker.ApiRejectsOthers` | apps/api/src/server.ts:659-670 | any other rejection only notes a wrong hash or lets an overdue approval expire |
| `SubmitWorker.ApiApprovesPending` | apps/api/src/server.ts:603-670 | an approval that passes every check approves the pending request before its expiry, queued or not |
| `SubmitWorker.ApiRefusesApproval` | apps/api/src/server.ts:612-658 | an approval that fails one of the checks writes nothing |
| `SubmitWorker.TelegramQueuesExactlyWhen` | apps/telegram-bot/src/commands.ts:183-266 | the bot queues a submit exactly when the request asks for the application's own hash, is pending or approved and unexpired, within the limits, with a queue and irreversible actions on |
| `SubmitWorker.BotRejectsPending` | apps/telegram-bot/src/commands.ts:183-249 | the bot's rejection leaves a pending request rejected, or expired, with one event and nothing else |
| `SubmitWorker.BotApprovesWithoutQueue` | apps/telegram-bot/src/commands.ts:183-249 | without a queue its approval approves the request and leaves the application alone |
| `SubmitWorker.BotApprovesWithQueue` | apps/telegram-bot/src/commands.ts:183-257 | with one it also queues the application at the clock |
| `SubmitWorker.BotRefusesApproval` | apps/telegram-bot/src/commands.ts:205-238 | a closed gate leaves everything as it is |
| `SubmitWorker.TelegramThrowsExactlyWhen` | apps/telegram-bot/src/commands.ts:205-249 | the bot's handler throws exactly when it is told to reject an approved, unexpired request whose hash is the stored application's, and then leaves the store as it was |
| `SubmitRejected.ThrowingChangesNothing` | apps/telegram-bot/src/commands.ts:247-249 | a handler that throws changes nothing of the protocol's state |
| `SubmitRejected.RejectedIsSubmitted` | apps/telegram-bot/src/commands.ts:247-249 | a run in which the bot throws on the rejection of an approved request and its application is submitted afterwards |
| `SubmitWorker.ReviewQueuesExactlyWhen` | apps/telegram-bot/src/commands.ts:273-357 | approving a manual review queues the application exactly under the limits, unless the pending request found instead of a new one has expired |
| `SubmitWorker.ReviewLeavesApproval` | apps/telegram-bot/src/commands.ts:281-343 | approving a review that finds no pending request makes one that runs for a day, approves it at once with two events and queues the application |
| `SubmitWorker.ReviewIsRefused` | apps/telegram-bot/src/commands.ts:281-300 | limits, hash, queue or configuration that forbid it leave everything as it is |
| `SubmitRuntime.BeginApprovedSubmit` | apps/worker-apply/src/runner.ts:180-219 | refinement: the worker's code up to the health check has the effect of the protocol's first segment |
| `SubmitRuntime.EvaluateGuard` | apps/worker-apply/src/runner.ts:222-258 | refinement: the policy and guard computed from the database are those of the protocol |
| `SubmitRuntime.DecideApprovedSubmit` | apps/worker-apply/src/runner.ts:259-300 | refinement: the code between the awaits has the effect of the protocol's second segment: same statuses, same draft, same date |
| `SubmitRuntime.FinishApprovedSubmit` | apps/worker-apply/src/runner.ts:302-320 | refinement: the code after the provider's answer has the effect of the protocol's third segment |
| `SubmitRuntime.ResolveRequest` | apps/api/src/server.ts:612-682 | refinement: the API handler has the effect of the protocol's step up to its enqueue call |
| `SubmitRuntime.ResolveReviewCommand` | apps/telegram-bot/src/commands.ts:183-257 | refinement: the bot's handler has the effect of the protocol's step up to its enqueue call, and throws when that says so |
| `SubmitRuntime.ApproveApplicationManualReview` | apps/telegram-bot/src/commands.ts:281-343 | refinement: approving a review has the effect of the protocol's step up to its enqueue call |
| `SubmitRuntime.EnqueueFailed` | apps/telegram-bot/src/commands.ts:258-261 | refinement: a failed enqueue sends the application to manual review; the bot clears its date, the API keeps it |
| `SubmitRuntime.PrepareApplication` | apps/api/src/runtime.ts:157-193 | refinement: the pipeline's last segment has the effect of the protocol's creation step |
| `SubmitRuntime.PreparedApplicationIsEnabled` | apps/api/src/runtime.ts:157-193 | the protocol allows every application the pipeline creates for a stored job |
| `SubmitRuntime.PreparedDraftIsSubmittedOrNothing` | apps/worker-apply/src/runner.ts:403-452 | the worker rebuilds exactly the draft the provider prepared, and does so exactly when resume, letter and every other field agree with the record |
| `SubmitRuntime.CheckRateLimits` | packages/db/src/rate-limits.ts:58-153 | refinement: the seven checks allow an application exactly when every rule that applies to it does |
| `Database.InMemoryDatabase.IngestJob` | apps/worker-ingest/src/runner.ts:101-107 | one ingested job is stored with its score and a decision that is duplicate, possible duplicate or new by the fields it shares with the other stored jobs |
| `Database.InMemoryDatabase.CreateApplication` | packages/db/src/index.ts:294-329 | refinement: a record with the same idempotency key suppresses the new one, otherwise exactly the new one is added |
| `Database.InMemoryDatabase.SetApplicationStatus` | packages/db/src/index.ts:331-350 | refinement: the status changes, the date only when given, and nothing else |
| `Database.InMemoryDatabase.RecordProofPack` | packages/db/src/index.ts:558-587 | refinement: the pack is stored and an application's pack is linked to it |
| `Database.InMemoryDatabase.CreateApprovalRequest` | packages/db/src/index.ts:417-448 | refinement: returns the pending request for the same slot or adds a fresh one with one event |
| `Database.InMemoryDatabase.ResolveApprovalRequest` | packages/db/src/index.ts:450-531 | refinement: has the effect and the answer of the approval book's resolve step |
| `Database.InMemoryDatabase.ExpireApprovalRequests` | packages/db/src/index.ts:533-552 | refinement: expires exactly the overdue pending requests, one event each, in the order the loop meets them |
| `Ingest.ProcessIngest` | apps/worker-ingest/src/runner.ts:37-131 | every fetched job is ingested once, in order, and each search run's counters account for every reference |
| `Ingest.IngestRefs` | apps/worker-ingest/src/runner.ts:91-128 | raw is normalized and errors, normalized is shortlisted and rejected |
| `Ingest.ShortlistedCounts` | apps/worker-ingest/src/runner.ts:105-111 | shortlisted counts exactly the fetched jobs that pass the score, each time they were fetched |
| `Ingest.IngestAllKeepsNewJobsApart` | apps/worker-ingest/src/runner.ts:101-107 | ingesting any jobs any number of times leaves no two "new" jobs that share a key |
| `Ingest.IngestTwiceIsOnce` | apps/worker-ingest/src/runner.ts:101-107 | ingesting the same job again changes nothing |
| `Approvals.StatusesOnlyAdvance` | packages/db/src/index.ts:417-552 | over every run with arbitrary clocks a request moves only from pending to approved, rejected or expired, and from approved to expired; its terms never change and it never disappears |
| `Approvals.AuditSpellsHistory` | packages/db/src/index.ts:417-552 | the audit log spells every request's whole history, exactly one event for each status change |
| `Approvals.PendingIsUnique` | packages/db/src/index.ts:417-448 | in every reachable book at most one request is pending for a user, entity, action and hash |
| `Approvals.RequestsTellTheirSteps` | packages/db/src/index.ts:417-552 | every request of every run tells when it was created and, once it is no longer pending, when and by what it was moved: a resolve before its expiry that presented its hash, or an expiry after it |
| `Approvals.ResolveApprovesExactlyWhen` | packages/db/src/index.ts:450-531 | resolving approves a pending request exactly when the call approves before expiry with the matching hash, which irreversible actions need |
| `Approvals.ResolveMeans` | packages/db/src/index.ts:450-531 | a resolve without a needed hash or with another one is refused and noted; otherwise a pending request, or an overdue approved one, moves at the call's clock with one event, and any other stays |
| `Approvals.CreateMeans` | packages/db/src/index.ts:417-448 | creation returns a pending request for the same user, entity, action and hash, or adds a fresh pending one with one event |
| `Approvals.ApprovalNeedsMatchingHash` | packages/db/src/index.ts:450-531 | every approved request of a run was approved by one step of it, before its expiry, presenting its own hash |
| `Records.NewExactlyWhenNoSharedKey` | packages/domain/src/services.ts:124-175 | a job is decided "new" exactly when no existing key shares a component with its own |
| `Records.DuplicateExactlyWhen` | packages/domain/src/services.ts:124-175 | a shared provider or URL key makes a duplicate, failing those a shared content or company-role key a possible one |
| `Records.KeysAgreeExactlyWhen` | packages/domain/src/services.ts:53-65 | the components of two jobs' keys agree exactly when provider and external id, canonical URL, title with company and description, or company with title and seniority do |
| `RateLimits.AllowedWhenChecksPass` | packages/db/src/rate-limits.ts:93-152 | the seven checks and the rules that apply to a job allow the same applications |
| `RateLimits.StampsAre` | packages/db/src/rate-limits.ts:58-92 | which applications a check counts and at which date, by their status, provider, company and role |
| `RateLimits.CheckMeans` | packages/db/src/rate-limits.ts:224-252 | a check counts what is dated within the window, leaves the rest of the limit, and allows exactly while some is left |
| `RateLimits.ResetIsNextChange` | packages/db/src/rate-limits.ts:224-252 | full or not, a window keeps all its records until `resetAt` and has lost one then; of an empty one, or one whose oldest record is dated at the epoch, it is a window's length from now |
| `RateLimits.ResetIsFirstAllowedInstant` | packages/db/src/rate-limits.ts:224-252 | for a full window `resetAt` is the first instant at which the check passes, exactly when the oldest counted record is not dated at the epoch |
| `RateLimits.ResetIsLowerBound` | packages/db/src/rate-limits.ts:224-252 | for an overfull window the check fails before `resetAt`, and passes there exactly when enough records share the oldest date |
| `RateLimitCounters.RateLimitService.CheckLimit` | packages/domain/src/services.ts:1064-1083 | a check answers from the open window or a fresh one and stores nothing |
| `RateLimitCounters.RateLimitService.ConsumeLimit` | packages/domain/src/services.ts:1085-1100 | a consume stores one more use exactly when it is granted |
| `RateLimitCounters.WindowGrantsAtMostLimit` | packages/domain/src/services.ts:1061-1100 | no counter window of any nondecreasing run of calls on a key grants more than its limit |
| `RateLimitCounters.IntervalGrantsLessThanTwiceLimit` | packages/domain/src/services.ts:1061-1100 | any interval of a window's length holds at most 2 * limit - 1 grants |
| `RateLimitCounters.TwiceLimitLessOneIsReached` | packages/domain/src/services.ts:1061-1100 | for every positive limit and every window longer than a millisecond some run reaches that bound |
| `RateLimitCounters.InstantGrantsAtMostLimit` | packages/domain/src/services.ts:1061-1100 | with a window of one millisecond an interval of that length holds at most the limit |
| `FlowRunner.Run` | packages/automation/src/index.ts:144-241 | the loop returns the status, boundary flag, steps and error of the walk with 25 steps of fuel |
| `FlowRunner.WalkStateActions` | packages/automation/src/index.ts:189-225 | the action loop collects selectors up to the first stop action or selector error |
| `FlowRunner.TakeTurn` | packages/automation/src/index.ts:161-237 | one turn of the loop ends or moves on as the specified turn does |
| `FlowRunner.RunWithFuel` | packages/automation/src/index.ts:160-241 | the loop with any limit is the walk with that fuel |
| `FuelledWalk.HaltingWalkIsShort` | packages/automation/src/index.ts:160-241 | a walk that ends makes at most one move a state, as it never comes back to one |
| `FuelledWalk.FuelNeverShows` | packages/automation/src/index.ts:160-241 | for any turns, states and fuel above their number, the walk with fuel is the one without, and runs out exactly when that one never ends |
| `FuelledWalk.AgreesExactlyWhen` | packages/automation/src/index.ts:160-241 | a halting walk is the same with fuel exactly when it makes fewer moves than the fuel |
| `FlowRunner.RunnerIsUnbounded` | packages/automation/src/index.ts:160-241 | with at most 24 states the runner's result is that of the walk without fuel, and it fails without an error code exactly when that walk never ends |
| `FlowRunner.RunnerAgreesExactlyWhen` | packages/automation/src/index.ts:160-241 | for any flow the two agree on a halting walk exactly when it ends within 24 moves |
| `FlowRunner.ChainIsTight` | packages/automation/src/index.ts:160-241 | for any fuel a flow of as many states that ends, but not within the fuel |
| `FlowRunner.FuelIsTight` | packages/automation/src/index.ts:160-241 | a flow of 25 states that ends, on which the runner fails without an error code |
| `FlowRunner.BoundaryHasPath` | packages/automation/src/index.ts:160-241 | if the submit boundary is reached, the steps form a path of transitions on pages that show no captcha and fit their fingerprint, whose guards look true, past no stop action, up to a stop action that resolves |
| `FlowRunner.PathReachesBoundary` | packages/automation/src/index.ts:160-241 | such a path of at most 25 states leads to the boundary |
| `FlowRunner.MismatchMeans` | packages/automation/src/index.ts:81-112 | a page counts as a captcha exactly when a folded indicator occurs in its text, a captcha anchor is on it or a folded pattern occurs in its URL; it matches exactly when none does and URL pattern, title and every required anchor and text are there |
| `FlowRunner.BoundaryMeetsNoCaptcha` | packages/automation/src/index.ts:160-241 | the path of a boundary result meets no captcha page |
| `FlowRunner.CaptchaEndsInReview` | packages/automation/src/index.ts:160-241 | a walk along matching pages that comes to a captcha page ends there, in manual review |
| `FlowRunner.TurnFailsExactlyWhen` | packages/automation/src/index.ts:160-237 | what ends the walk at a state without success: the page first, then a guard, then a selector, then the flow itself |
| `FlowRunner.GuardErrors` | packages/automation/src/index.ts:594-606 | the first failing guard, if named, decides the error |
| `FlowRunner.ResolvesExactlyWhen` | packages/automation/src/index.ts:114-136 | a selector key resolves by how many of its candidates the page offers: one, none when not required, otherwise missing or ambiguous |
| `FlowRunner.WalkCollects` | packages/automation/src/index.ts:189-225 | the walk collects the selectors of the actions it passes, in order, up to its end, first stop or first error |
| `FlowRunner.ResultIsConsistent` | packages/automation/src/index.ts:160-241 | captcha errors and no others ask for a review, the boundary is a success, and only the last step can have failed, with the run's error |
| `FlowRunner.NoFailedGuardMeans` | packages/automation/src/index.ts:182-187 | no guard fails the state exactly when all hold or the first that fails has an empty name |
| `FlowRunner.NamedGuardsAllHold` | packages/automation/src/index.ts:182-187 | guards with names look true exactly when all hold |
| `FlowRunner.UnnamedGuardHidesTheNext` | packages/automation/src/index.ts:182-187 | a page with a failing captcha guard ends in manual review, and with an unnamed guard before it at the submit boundary |
| `FlowRunner.LooksAreExactWhenNamed` | packages/automation/src/index.ts:182-187 | guards look true in every world exactly when all hold, if and only if no guard has an empty name |
| `FlowRunner.WalkMeans` | packages/automation/src/index.ts:189-225 | the walk passes a state exactly when it has no stop action and every selector resolves, and stops at the boundary exactly when a first stop action is reached and resolves |
| `ZonedTime.RendersWheneverItExists` | packages/domain/src/services.ts:2282-2305 | for every zone with bounded, rarely changing offsets the two-step conversion returns an instant that renders as the requested local time exactly when one exists |
| `ZonedTime.RepeatedTimeChoice` | packages/domain/src/services.ts:2282-2288 | of the two instants of a repeated local time, which one is returned |
| `ZonedTime.SkippedTimeChoice` | packages/domain/src/services.ts:2282-2288 | a skipped local time is moved by exactly the jump, and in which direction |
| `ZonedTime.EveryTimeIsCovered` | packages/domain/src/services.ts:2282-2288 | every local time is repeated, skipped, or has exactly one instant, the one returned |
| `Scheduling.InterviewsStayApart` | packages/domain/src/services.ts:2199-2263 | over every run of confirmations of slots that read back and last an hour or more, all recorded interviews are pairwise an hour and both buffers apart |
| `Scheduling.NoDayIsOverbooked` | packages/domain/src/services.ts:2199-2210 | over every run of slots with ten-character dates no date carries more events than the profile allows |
| `Scheduling.InterviewsAreInWindows` | packages/domain/src/services.ts:2239-2249 | over every run of slots that read back, each recorded interview lies in a window of its weekday |
| `Scheduling.ShortSlotComesCloser` | packages/domain/src/services.ts:2251-2276 | for all non-negative buffers and every minimum length below an hour a run that records two interviews less than an hour and both buffers apart |
| `Scheduling.DistanceIsReached` | packages/domain/src/services.ts:2251-2276 | for all non-negative buffers and every minimum length a run that records two interviews at exactly the distance of `RunKeepsDistances` |
| `Scheduling.SlotReadsBack` | packages/domain/src/services.ts:2251-2290 | a slot with a ten-character date and a time of at most five, such as "9:00", is read back from its event at its own instant and date |
| `Scheduling.TimeReadsBack` | packages/domain/src/services.ts:2199-2231 | and with the same hour and minute |
| `Scheduling.TimeIsRead` | packages/domain/src/services.ts:2265-2268 | a time is read as the numbers around its colon, without one as an hour |
| `Scheduling.OtherDatesAreLost` | packages/domain/src/services.ts:2199-2231 | a date is read back exactly when it has ten characters |
| `Scheduling.RunKeepsDistances` | packages/domain/src/services.ts:2251-2276 | for slots that read back and last any minimum length the distance is that length, at most an hour, and both buffers |
| `Scheduling.ConflictFreeMeansApart` | packages/domain/src/services.ts:2251-2276 | a slot clashes with an event exactly when it comes closer than its own length, or the event's hour, and both buffers |
| `Scheduling.PassesExactlyWhen` | packages/domain/src/services.ts:2199-2263 | each part of a slot's proof, and all of them together: the profile's zone, enough notice, a window of the weekday whose start in minutes is at most the slot's and whose end is at least the slot's, distance from every event, and room on the date |
| `Scheduling.CalendarAddsNothing` | packages/domain/src/services.ts:1643-1682 | with buffers that are not negative the calendar built from the events blocks nothing more |
| `Scheduling.CalendarBlocksExactlyWhen` | packages/domain/src/services.ts:1643-1682 | alone it blocks a slot exactly when an event of the slot's zone takes its hour, or no availability is configured in its zone |
| `Scheduling.ChosenIsFirstPassing` | packages/domain/src/services.ts:2188-2197 | the chosen slot is the first that passes every check, and there is none only if none passes |
| `Scheduling.SlotRoundTrip` | apps/api/src/server.ts:1350-1356 | an event gives back the zero-padded slot it was made from |
| `Scheduling.ProposeAlternatives` | packages/domain/src/services.ts:1762-1786 | the alternatives all pass, one a day in order of days, none left out before the third |
| `Scheduling.InterviewDesk.ConfirmSlot` | apps/api/src/server.ts:1018-1039 | an event is recorded exactly when the slot passes, inside a window of its weekday, and the policy allows it |
| `Scheduling.InterviewDesk.ResolveSlot` | apps/api/src/server.ts:1061-1107 | an approval re-evaluates the event's own slot against the others; only its status changes |
| `Scheduling.ResolutionMeans` | apps/api/src/server.ts:1061-1107 | a resolution that went through cancels the event, or schedules it if its own slot still passes against the others; the event keeps its other fields, and other events stay |
| `Idempotency.RestartsAreInvisible` | packages/db/src/queue.ts:256-343 | restarting from the rows after any operations changes no later answer, but for acquisition dates |
| `Idempotency.RestartRestoresFirstDate` | packages/db/src/queue.ts:321-344 | after a release and a second acquire a restart brings back the first date |
| `Idempotency.AcquiresNeedReleases` | packages/db/src/queue.ts:198-252 | over every run with restarts a key is acquired at most once more than it is released |
| `Idempotency.RecordsTellLastChange` | packages/db/src/queue.ts:198-252 | every record of every run, restarts or not, tells of its last granted acquire and the last change after it: key, entity, status, completion, error and, without a restart since, date; later acquires found it held |
| `Idempotency.RowsKeepFirstDate` | packages/db/src/queue.ts:321-344 | exactly the keys ever acquired have rows, and a row keeps the date of the first acquire |
| `Idempotency.IdempotencyService.AcquireKey` | packages/db/src/queue.ts:201-217 | a key is acquired exactly when it is not held, and a held record is returned unchanged |
| `Idempotency.IdempotencyService.SetStatus` | packages/db/src/queue.ts:219-252 | commit, fail and release change exactly status, completion and error, and fail on an unknown key |
| `Idempotency.PostgresIdempotencyService.Hydrate` | packages/db/src/queue.ts:264-285 | a restart makes the rows the records |
| `Idempotency.PostgresIdempotencyService.AcquireKey` | packages/db/src/queue.ts:287-291 | an acquire is mirrored by an upsert that keeps the row's acquisition date |
| `TaskRuns.TablesMirrorRecords` | packages/db/src/queue.ts:497-728 | after any operations and restarts the run rows equal the records, and letters and their rows agree on everything but error and creation date |
| `TaskRuns.RowsKeepFirstError` | packages/db/src/queue.ts:683-716 | a dead letter's row tells the error and date of the first time the task was dead-lettered |
| `TaskRuns.RunsTellTheirTask` | packages/db/src/queue.ts:353-400 | every stored run, restarts or not, is of the first task created under its id, and its attempts are its starts since then; no other is stored |
| `TaskRuns.ClosedLettersStay` | packages/db/src/queue.ts:449-493 | a resolved or discarded letter stays as it was closed until its task is dead-lettered again |
| `TaskRuns.PatchMeans` | packages/db/src/queue.ts:389-413 | which fields a start, heartbeat, success or failure changes, and to what |
| `TaskRuns.HandlingMeans` | packages/db/src/queue.ts:449-493 | what assigning and closing write of a letter, and what they keep |
| `TaskRuns.UpsertsMean` | packages/db/src/queue.ts:643-716 | an upsert keeps a run's creation date, and a letter's task, error and creation date |
| `TaskRuns.ExecutionLeavesOutcome` | packages/db/src/queue.ts:747-786 | an execution leaves the stored or new run with the outcome's status, one more attempt, its dates and error, touches no other, and leaves an open letter exactly when the error forbids a retry |
| `TaskRuns.WorkerReusesTheRun` | packages/db/src/queue.ts:930-971 | the worker works on the run created at the enqueue exactly when the idempotency key is not empty |
| `TaskRuns.TaskRunStore.Execute` | packages/db/src/queue.ts:747-786 | the execution's calls on the store have the specified effect and outcome |
| `TaskRuns.TaskRunStore.BuryTask` | packages/db/src/queue.ts:415-438 | a known task is marked dead-lettered with a letter carrying its queue, payload and error |
| `TaskRuns.TaskRunStore.HandleLetter` | packages/db/src/queue.ts:449-493 | an open or assigned letter is assigned or closed, a closed one is left alone |
| `TaskRuns.PostgresTaskRunStore.BuryTask` | packages/db/src/queue.ts:594-604 | dead-lettering writes the failed run, the dead-lettered run and the letter, in this order |
| `TaskRuns.PostgresTaskRunStore.PatchRun` | packages/db/src/queue.ts:578-592 | a changed run is upserted |
| `TaskRuns.PostgresTaskRunStore.HandleLetter` | packages/db/src/queue.ts:606-616 | a handled letter is upserted, a refused one is not |
| `Envelope.SanitizeIsIdempotent` | packages/db/src/queue.ts:1093-1108 | sanitizing a sanitized payload changes nothing, on every JSON tree |
| `Envelope.SanitizeCleans` | packages/db/src/queue.ts:1093-1108 | at every depth sensitive fields hold the mark, and every other key, value and order is kept |
| `Envelope.CleanIsFixed` | packages/db/src/queue.ts:1093-1108 | a payload is left as it is exactly when it is clean |
| `Envelope.SanitizeKeepsSchema` | packages/db/src/queue.ts:29-45 | redacting never turns an accepted payload into a rejected one |
| `Envelope.SanitizeKeepsRejection` | packages/db/src/queue.ts:29-45 | nor a rejected one into an accepted one, if no declared name is sensitive |
| `Envelope.AcceptsExactlyWhen` | packages/db/src/queue.ts:29-45 | a payload is accepted exactly when every declared field it has is a text that is not empty, and some required one a text that is not blank |
| `Envelope.EnvelopeRoundTrip` | packages/db/src/queue.ts:794-808 | the worker reads back payload, creation time and keys; the task is the enqueued one exactly when neither key is empty |
| `Envelope.EmptyKeyChangesTask` | packages/db/src/queue.ts:1040-1066 | with an empty key the worker's task has another id |
| `Envelope.BareJobIsRead` | packages/db/src/queue.ts:1018-1064 | a job whose data is no envelope is read as a bare payload, with the job's own id, or a fresh one, for both keys |
| `Envelope.EnvelopeExactlyWhen` | packages/db/src/queue.ts:1032-1038 | data is an envelope exactly when it holds a payload and metadata with both keys |
| `Outbound.RecordsOnlyAdvance` | packages/db/src/index.ts:168-176 | over every run a recorded text, message and date never change, a dry run can only become sent, and a sent record never changes |
| `Outbound.OneRecordPerKey` | packages/db/src/index.ts:785-787 | in every reachable state there is one record for an idempotency key |
| `Outbound.RecordsComeFromDispatches` | packages/db/src/index.ts:778-859 | every record of every run tells of the first dispatch of its key and of the result of one of its dispatches, with the text of the first |
| `Outbound.KeysAreRecorded` | packages/db/src/index.ts:778-859 | every key ever dispatched has a record |
| `Outbound.RepeatedDispatchMeans` | packages/db/src/index.ts:788-830 | a repeated dispatch leaves the record, or gives it the new result and says so: a block may become anything else, a queued message anything else, a dry run only sent; another text is only noted |
| `Outbound.FirstDispatchMeans` | packages/db/src/index.ts:831-859 | a dispatch of a new key adds one record and says so |
| `Outbound.AuditTellsStory` | packages/db/src/index.ts:788-856 | the log spells the statuses of every record, each one an allowed replacement of the one before |
| `Outbound.BlockedAndQueuedAlternate` | packages/db/src/index.ts:168-176 | a message may be blocked, queued and blocked again |
| `Outbound.OutboundStore.RecordOutboundDispatch` | packages/db/src/index.ts:778-859 | a dispatch updates the record of its key only for the same text and an allowed status, otherwise adds one |
| `FollowUps.FollowUpsStayWithinCaps` | apps/api/src/server.ts:1371-1447 | however often follow-ups are planned, a conversation has at most two reviews and one open, and a company at most five |
| `FollowUps.ReviewsComeFromDueCalls` | apps/api/src/server.ts:1371-1447 | every follow-up review of every run was created by a call that found its conversation due: three days after its latest message, open, of an eligible kind, unanswered, within both caps and without an open review |
| `FollowUps.CallCreatesOnlyDue` | apps/api/src/server.ts:1423-1443 | a call keeps every review, and creates reviews only for conversations that were due |
| `FollowUps.CreatesExactlyWhen` | apps/api/src/server.ts:1386-1430 | a review is created exactly in that situation |
| `FollowUps.OutcomeTellsReview` | apps/api/src/server.ts:1415-1443 | the answer tells of a new review, an open one or the reason there is none |
| `FollowUps.AnswerTellsAll` | apps/api/src/server.ts:1371-1447 | the answer tells of every conversation in turn, created exactly where a review is new |
| `FollowUps.PlanTellsFirstFailure` | packages/domain/src/services.ts:1502-1536 | each reason not to plan is given exactly when its check is the first to fail |
| `FollowUps.PlanReads` | apps/api/src/server.ts:1386-1414 | what the plan reads: the latest message and its classification, the follow-ups sent and reviews made, the replies, and the company's reviews |
| `FollowUps.DueExactlyWhen` | packages/domain/src/services.ts:1502-1536 | a follow-up is due three days after the latest message, exactly in an open thread of an eligible kind without a reply to the follow-ups sent and within both caps |
| `FollowUps.LastInboundIsLatest` | apps/api/src/server.ts:1386-1389 | the message planned from is the conversation's latest, the last stored one of its date |
| `FollowUps.RepeatCreatesNothing` | apps/api/src/server.ts:1371-1447 | repeating a call at the same clock creates nothing |
| `FollowUps.FollowUpPlanner.PlanConservativeFollowUps` | apps/api/src/server.ts:1371-1447 | the loop creates the reviews and the answer of planning the conversations one after the other |
| `FollowUps.FollowUpPlanner.PlanConversation` | apps/api/src/server.ts:1386-1443 | a review is created exactly when a follow-up is due and none is open |
| `IcsLines.UnfoldUndoesFolding` | packages/domain/src/services.ts:2338-2348 | splitting and unfolding give back the lines of any folding, with either line ending, exactly when no first piece ends in white space |
| `IcsLines.UnfoldDocument` | packages/domain/src/services.ts:2338-2348 | of any folded document only the white space at the end of first pieces is lost |
| `IcsLines.SplitUndoesJoin` | packages/domain/src/services.ts:2340 | splitting gives back the lines, each ended by a line feed with or without a return |
| `IcsLines.UnfoldIcsLines` | packages/domain/src/services.ts:2338-2348 | the loop computes the unfolding |
| `IcsEvents.ParseUndoesPrint` | packages/domain/src/services.ts:2311-2336 | reading the lines of any file gives the windows its events tell of, in order |
| `IcsEvents.FoldedFileReadsBack` | packages/domain/src/services.ts:2311-2348 | so does reading any folding of it whose first pieces do not end in white space: an event's window follows from the last property of each name, whatever the case of names, the zone of the start, the end or the caller in this order, and an id of its own when it has none |
| `IcsEvents.ReadsExactlyWhen` | packages/domain/src/services.ts:2398-2410 | a text is read as a date exactly when it is printed from a date, or from a local or UTC time with or without seconds, and its instant is the one printed |
| `IcsEvents.LineRoundTrip` | packages/domain/src/services.ts:2379-2396 | a property line with any parameters reads back as name, value and the last value of each parameter |
| `IcsEvents.LineGivesWindow` | packages/domain/src/services.ts:2311-2336 | a line adds a window exactly when it ends an event that was begun and the lines between tell of one |
| `IcsEvents.ParseIcsBusyWindows` | packages/domain/src/services.ts:2311-2336 | the loop computes the windows of the unfolded lines |

## Left out

- SubmitRates.NoWindowExceedsItsLimit: stated for runs that keep three assumptions on dates, re-ingested jobs and unanswered calls; a run for each shows the limit broken without it.
- SubmitDedup.NoTwoCallsShareAKey: stated for runs in which a re-ingested job keeps its keys; without that it is false (`SubmitReingested.SwappedJobsAreBothCalled`).
- SubmitSuccess.AnsweredIsNeverResubmitted: stated for proofs with fresh ids, whose final status after a submit is none of the three dry-run successes; without either half it is false (`SubmitReproved`).
- SubmitSuccess.AtMostOneSubmissionSucceeds: stated for such proofs and for calls of one application that do not overlap, as the queue's concurrency of one arranges; otherwise it is false (`SubmitDisturbed.OverlapSucceedsTwice`).
- Scheduling.InterviewsStayApart: stated for slots that read back from their events; dates that are not written in ten characters are stored under another date and may be at another time.
- Scheduling.RunKeepsDistances: stated for slots that read back, as above.
- Scheduling.InterviewsAreInWindows: stated for slots that read back with their time, as above.
- Scheduling.NoDayIsOverbooked: stated for dates of ten characters, as above.
- Scheduling.SlotRoundTrip: stated for zero-padded dates and times; of a time such as "9:00" the event keeps another text, which reads as the same time.
- The pipeline's loops (apps/api/src/runtime.ts): the protocol's creation step may create any application the pipeline can create, for any stored job and in any of its three initial statuses; the dry run and policy that choose among them are not modelled.
- Ingest.ProcessIngest: the loops run without interruption here; in the protocol each job is a step of its own and anything may happen between two.
- Records as shared objects: two holders of one record are not modelled, records are looked up in the maps.
- Audit events other than those of approval requests and outbound records, manual reviews, policy-check records, provider health and release evidence: nothing in the protocol reads them back.
- Reply limits (packages/db/src/rate-limits.ts, evaluateReplyRateLimits): the same window check on another history; records keep their first date when they are upgraded, so no bound on real send times follows.
- Envelope.EnvelopeRoundTrip: job metadata whose keys are not strings, and job ids that are numbers, are not modelled.
- The in-memory queue adapter, queue depth and age: one list operation each.
- Text of ICS lines: upper-casing covers ASCII letters only, and parameters in quotes are split as the source splits them.
- Comparison of ISO date strings in `planConservativeFollowUps` is modelled as comparison of instants.
- Invalid dates (NaN), and object keys inherited from JavaScript prototypes in flow lookups.
- Routing, authentication, rendering, metrics, logging, Redis, SQL execution, object storage, secrets, browsers and language models: input and output, or decided by foreign libraries.
- Release gates, retention, artifact access, digests, analytics ratios and confidences: checklists and sums that one branch settles.
