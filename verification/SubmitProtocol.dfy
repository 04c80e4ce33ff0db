/**
 The submit protocol as a state machine. Any number of worker executions, approving
 handlers, ingests and clock ticks interleave; a worker execution yields only at its
 two awaits. The provider's answers and all identifiers are chosen by the steps.
 */
module SubmitProtocol {
  import opened Common
  import opened Drafts
  import opened Records
  import opened SubmitWorker
  import Approvals
  import RateLimits

  /** Where a worker execution is suspended. The job object was read before the first await. */
  datatype Execution =
    | AwaitingHealth(applicationId: string, job: Job, requestId: string)
    | AwaitingSubmit(applicationId: string, submittedAt: int)
    | Ended

  /** An `enqueue` call a handler is waiting for; the bot also clears the date if it fails. */
  datatype PendingEnqueue = PendingEnqueue(applicationId: string, clearsDate: bool)

  /** What the history records about an application. */
  datatype Event =
    | Created(applicationId: string, draftHash: Option<Digest>, ready: bool)
    | Queued(applicationId: string, entered: bool)
    | Validated(execution: nat, applicationId: string, requestId: string, at: int, approvals: nat)
    | SubmitCalled(execution: nat, applicationId: string, at: int, job: Job, draft: ApplicationDraft)
    | SubmitReturned(applicationId: string, status: SubmitStatus)

  /** `approvals` is the history of the approval book; `log` that of the applications. */
  datatype State = State(
    store: Store, clock: int, executions: map<nat, Execution>, enqueues: map<nat, PendingEnqueue>,
    log: seq<Event>, approvals: seq<Approvals.Step>)

  function Initial(clock: int, mode: AppMode): State {
    State(Store(map[], map[], map[], map[], Approvals.EMPTY_BOOK, map[], [], mode), clock, map[], map[], [], [])
  }

  datatype Step =
    | Tick(elapsed: nat)
    | SetMode(mode: AppMode)
    | RecordCanary(run: CanaryRun)
    | IngestJob(job: Job)
    | RecordOtherProof(proofId: string, proof: ProofPack)
    | CreateApplication(application: Application)
    | CreateApproval(freshId: string, terms: Approvals.Terms)
    | ResolveElsewhere(id: string, resolution: Approvals.Resolution, presented: Option<Digest>, at: int)
    | ExpireApprovals(at: int, order: seq<string>)
    | ApiResolve(id: string, resolution: Approvals.Resolution, presented: Option<Digest>, bodyNow: Option<int>, ticket: nat)
    | TelegramResolve(id: string, resolution: Approvals.Resolution, hasQueue: bool, ticket: nat)
    | TelegramApproveReview(applicationId: string, freshId: string, hasQueue: bool, ticket: nat)
    | EnqueueSettles(ticket: nat, failed: bool)
    | BeginSubmit(execution: nat, applicationId: string, requestId: Option<string>, draftHash: Option<Digest>)
    | HealthReturns(execution: nat, health: ProviderStatus)
    | HealthThrows(execution: nat)
    | SubmitReturns(execution: nat, status: SubmitStatus, proofId: string, proof: ProofPack)
    | SubmitThrows(execution: nat)

  /** Fresh identifiers, suspended executions of the right kind, and stored jobs for new applications. */
  ghost predicate Enabled(state: State, step: Step) {
    match step
    case CreateApplication(application) =>
      && application.id !in state.store.applications
      && application.jobId in state.store.jobs
      && application.status in {ApplicationPrepared, ManualReviewRequired, ApplyBlockedByPolicy}
      && application.submittedAt.None?
      && application.createdAt == state.clock
    case CreateApproval(freshId, _) => freshId !in state.store.book.requests
    case ExpireApprovals(at, order) => Approvals.OverdueOrder(state.store.book, at, order)
    case ApiResolve(_, _, _, _, ticket) => ticket !in state.enqueues
    case TelegramResolve(_, _, _, ticket) => ticket !in state.enqueues
    case TelegramApproveReview(_, freshId, _, ticket) => ticket !in state.enqueues && freshId !in state.store.book.requests
    case EnqueueSettles(ticket, _) => ticket in state.enqueues
    case BeginSubmit(execution, _, _, _) => execution !in state.executions
    case HealthReturns(execution, _) => execution in state.executions && state.executions[execution].AwaitingHealth?
    case HealthThrows(execution) => execution in state.executions && state.executions[execution].AwaitingHealth?
    case SubmitReturns(execution, _, _, _) => execution in state.executions && state.executions[execution].AwaitingSubmit?
    case SubmitThrows(execution) => execution in state.executions && state.executions[execution].AwaitingSubmit?
    case _ => true
  }

  predicate Ready(status: ApplicationStatus) {
    status == ApplicationPrepared || status == ApplyQueued
  }

  // Steps

  /** A step that only changes the approval book. */
  function WithApprovals(state: State, book: Approvals.Book, steps: seq<Approvals.Step>): State {
    state.(store := state.store.(book := book), approvals := state.approvals + steps)
  }

  /** The shared end of the approving handlers: a queued submit leaves an enqueue call pending. */
  function Handled(state: State, result: HandlerResult, applicationId: string, steps: seq<Approvals.Step>, ticket: nat, clearsDate: bool): State {
    var after := state.(store := result.store, approvals := state.approvals + steps);
    if result.queuedAt.None? then after
    else
      var entered := applicationId in state.store.applications && !Ready(state.store.applications[applicationId].status);
      after.(enqueues := state.enqueues[ticket := PendingEnqueue(applicationId, clearsDate)],
             log := state.log + [Queued(applicationId, entered)])
  }

  /** The approval steps a handler took, read off from whether it changed the book. */
  function StepsIfChanged(before: Approvals.Book, after: Approvals.Book, steps: seq<Approvals.Step>): seq<Approvals.Step> {
    if before == after then [] else steps
  }

  function CreateApplicationStep(state: State, application: Application): State {
    if exists id | id in state.store.applications :: state.store.applications[id].idempotencyKey == application.idempotencyKey
    then state
    else
      state.(store := state.store.(applications := state.store.applications[application.id := application]),
             log := state.log + [Created(application.id, application.draftVariantKey, Ready(application.status))])
  }

  ghost function ApiResolveStep(
    cfg: Config, state: State, id: string, resolution: Approvals.Resolution, presented: Option<Digest>,
    bodyNow: Option<int>, ticket: nat): State
  {
    var result := ResolveViaApi(cfg, state.store, id, resolution, presented, bodyNow, state.clock);
    var target := if id in state.store.book.requests then state.store.book.requests[id].terms.entityId else "";
    var step := Approvals.ResolveStep(id, resolution, presented, bodyNow.GetOr(state.clock));
    Handled(state, result, target, StepsIfChanged(state.store.book, result.store.book, [step]), ticket, false)
  }

  ghost function TelegramResolveStep(
    cfg: Config, state: State, id: string, resolution: Approvals.Resolution, hasQueue: bool, ticket: nat): State
  {
    var result := ResolveViaTelegram(cfg, state.store, id, resolution, hasQueue, state.clock);
    var target := if id in state.store.book.requests then state.store.book.requests[id].terms.entityId else "";
    var presented := if target in state.store.applications then state.store.applications[target].draftVariantKey else None;
    var step := Approvals.ResolveStep(id, resolution, presented, state.clock);
    Handled(state, result, target, StepsIfChanged(state.store.book, result.store.book, [step]), ticket, true)
  }

  ghost function TelegramApproveReviewStep(
    cfg: Config, state: State, applicationId: string, freshId: string, hasQueue: bool, ticket: nat): State
  {
    var result := ApproveReviewViaTelegram(cfg, state.store, applicationId, freshId, hasQueue, state.clock);
    var steps :=
      if applicationId in state.store.applications then
        var application := state.store.applications[applicationId];
        var terms := ReviewTerms(cfg, application, state.clock);
        var id := Approvals.CreatedId(state.store.book, freshId, terms);
        [Approvals.CreateStep(freshId, terms, state.clock),
         Approvals.ResolveStep(id, Approvals.Approve, application.draftVariantKey, state.clock)]
      else [];
    Handled(state, result, applicationId, StepsIfChanged(state.store.book, result.store.book, steps), ticket, true)
  }

  function EnqueueSettlesStep(state: State, ticket: nat, failed: bool): State
    requires ticket in state.enqueues
  {
    var pending := state.enqueues[ticket];
    var settled := state.(enqueues := state.enqueues - {ticket});
    if !failed || pending.applicationId !in state.store.applications then settled
    else if pending.clearsDate then settled.(store := SetStatusAt(state.store, pending.applicationId, ManualReviewRequired, None))
    else settled.(store := SetStatus(state.store, pending.applicationId, ManualReviewRequired))
  }

  function BeginStep(
    cfg: Config, state: State, execution: nat, applicationId: string, requestId: Option<string>, draftHash: Option<Digest>): State
  {
    var (store, result) := Begin(cfg, state.store, applicationId, requestId, draftHash, state.clock);
    match result
    case AwaitHealth(job) =>
      var request := requestId.GetOr("");
      state.(store := store,
             executions := state.executions[execution := AwaitingHealth(applicationId, job, request)],
             log := state.log + [Validated(execution, applicationId, request, state.clock, |state.approvals|)])
    case _ => state.(store := store, executions := state.executions[execution := Ended])
  }

  ghost function HealthReturnsStep(cfg: Config, state: State, execution: nat, health: ProviderStatus): State
    requires execution in state.executions && state.executions[execution].AwaitingHealth?
  {
    var suspended := state.executions[execution];
    if suspended.applicationId !in state.store.applications then state
    else
      var (store, result) := Decide(cfg, state.store, suspended.applicationId, suspended.job, health, state.clock);
      match result
      case DecideBlocked => state.(store := store, executions := state.executions[execution := Ended])
      case CallProvider(draft, submittedAt) =>
        state.(store := store,
               executions := state.executions[execution := AwaitingSubmit(suspended.applicationId, submittedAt)],
               log := state.log + [SubmitCalled(execution, suspended.applicationId, state.clock, suspended.job, draft)])
  }

  function SubmitReturnsStep(state: State, execution: nat, status: SubmitStatus, proofId: string, proof: ProofPack): State
    requires execution in state.executions && state.executions[execution].AwaitingSubmit?
  {
    var suspended := state.executions[execution];
    if suspended.applicationId !in state.store.applications then state
    else
      state.(store := Finish(state.store, suspended.applicationId, suspended.submittedAt, status, proofId, proof),
             executions := state.executions[execution := Ended],
             log := state.log + [SubmitReturned(suspended.applicationId, status)])
  }

  /** The steps that write no application record and no application event. */
  predicate IsQuiet(step: Step) {
    || step.Tick? || step.SetMode? || step.RecordCanary? || step.IngestJob? || step.RecordOtherProof?
    || step.CreateApproval? || step.ResolveElsewhere? || step.ExpireApprovals? || step.HealthThrows? || step.SubmitThrows?
  }

  ghost function ApplyQuiet(cfg: Config, state: State, step: Step): State
    requires Enabled(state, step) && IsQuiet(step)
  {
    match step
    case Tick(elapsed) => state.(clock := state.clock + elapsed)
    case SetMode(mode) => state.(store := state.store.(mode := mode))
    case RecordCanary(run) => state.(store := state.store.(canaries := state.store.canaries + [run]))
    case IngestJob(job) => state.(store := Ingest(cfg, state.store, job))
    case RecordOtherProof(proofId, proof) => state.(store := state.store.(proofs := state.store.proofs[proofId := proof]))
    case CreateApproval(freshId, terms) =>
      WithApprovals(state, Approvals.Create(state.store.book, freshId, terms, state.clock),
                    [Approvals.CreateStep(freshId, terms, state.clock)])
    case ResolveElsewhere(id, resolution, presented, at) =>
      WithApprovals(state, Approvals.Resolve(state.store.book, id, resolution, presented, at).0,
                    [Approvals.ResolveStep(id, resolution, presented, at)])
    case ExpireApprovals(at, order) =>
      WithApprovals(state, Approvals.ExpireInOrder(state.store.book, at, order), [Approvals.ExpireStep(at, order)])
    case HealthThrows(execution) => state.(executions := state.executions[execution := Ended])
    case SubmitThrows(execution) => state.(executions := state.executions[execution := Ended])
  }

  ghost function Apply(cfg: Config, state: State, step: Step): State
    requires Enabled(state, step)
  {
    match step
    case CreateApplication(application) => CreateApplicationStep(state, application)
    case ApiResolve(id, resolution, presented, bodyNow, ticket) =>
      ApiResolveStep(cfg, state, id, resolution, presented, bodyNow, ticket)
    case TelegramResolve(id, resolution, hasQueue, ticket) =>
      TelegramResolveStep(cfg, state, id, resolution, hasQueue, ticket)
    case TelegramApproveReview(applicationId, freshId, hasQueue, ticket) =>
      TelegramApproveReviewStep(cfg, state, applicationId, freshId, hasQueue, ticket)
    case EnqueueSettles(ticket, failed) => EnqueueSettlesStep(state, ticket, failed)
    case BeginSubmit(execution, applicationId, requestId, draftHash) =>
      BeginStep(cfg, state, execution, applicationId, requestId, draftHash)
    case HealthReturns(execution, health) => HealthReturnsStep(cfg, state, execution, health)
    case SubmitReturns(execution, status, proofId, proof) => SubmitReturnsStep(state, execution, status, proofId, proof)
    case _ => ApplyQuiet(cfg, state, step)
  }

  // Runs

  /** The states a run passes through: each is the previous one after an enabled step. */
  ghost predicate IsRun(cfg: Config, states: seq<State>, steps: seq<Step>) {
    && |states| == |steps| + 1
    && states[0] == Initial(states[0].clock, states[0].store.mode)
    && forall i :: 0 <= i < |steps| ==> Enabled(states[i], steps[i]) && states[i + 1] == Apply(cfg, states[i], steps[i])
  }

  // Facts that hold in every reachable state

  ghost predicate WellFormed(state: State) {
    && (forall id :: id in state.store.applications ==>
          state.store.applications[id].id == id && state.store.applications[id].jobId in state.store.jobs)
    && (forall id :: id in state.store.jobs ==> state.store.jobs[id].id == id)
    && (forall e :: e in state.executions && state.executions[e].AwaitingHealth? ==>
          && state.executions[e].applicationId in state.store.applications
          && state.executions[e].job.id == state.store.applications[state.executions[e].applicationId].jobId)
    && (forall e :: e in state.executions && state.executions[e].AwaitingSubmit? ==>
          state.executions[e].applicationId in state.store.applications)
  }

  /** Whether an event is about the life of this application (validations are not). */
  predicate About(event: Event, id: string) {
    !event.Validated? && event.applicationId == id
  }

  predicate Quiet(before: State, after: State, id: string) {
    || after.log == before.log
    || (|after.log| == |before.log| + 1 && after.log[..|before.log|] == before.log && !About(after.log[|before.log|], id))
  }

  predicate Kept(before: State, after: State, id: string) {
    && id in before.store.applications && id in after.store.applications
    && SameIdentity(before.store.applications[id], after.store.applications[id])
  }

  // The six things a step may do to one application

  predicate Untouched(before: State, after: State, id: string) {
    && Quiet(before, after, id)
    && (id in before.store.applications <==> id in after.store.applications)
    && (id in before.store.applications ==> after.store.applications[id] == before.store.applications[id])
  }

  predicate Appears(before: State, after: State, step: Step, id: string) {
    && id !in before.store.applications && id in after.store.applications
    && step.CreateApplication? && step.application.id == id && after.store.applications[id] == step.application
    && var application := after.store.applications[id];
       && after.log == before.log + [Created(id, application.draftVariantKey, Ready(application.status))]
       && !RateLimits.Irreversible(application.status) && application.submittedAt.None?
  }

  predicate IsHandler(step: Step) {
    step.ApiResolve? || step.TelegramResolve? || step.TelegramApproveReview?
  }

  predicate IsQueued(before: State, after: State, step: Step, id: string) {
    && IsHandler(step)
    && Kept(before, after, id)
    && after.log == before.log + [Queued(id, !Ready(before.store.applications[id].status))]
    && after.store.applications[id].status == ApplyQueued && after.store.applications[id].submittedAt.Some?
    && after.store.applications[id].proofPackId == before.store.applications[id].proofPackId
  }

  /** The steps that can stop a submit: a worker segment of the application, or its failed enqueue. */
  predicate MayStop(state: State, step: Step, id: string) {
    || (step.BeginSubmit? && step.applicationId == id)
    || (step.HealthReturns? && step.execution in state.executions && state.executions[step.execution].AwaitingHealth?
        && state.executions[step.execution].applicationId == id)
    || (step.EnqueueSettles? && step.failed && step.ticket in state.enqueues && state.enqueues[step.ticket].applicationId == id)
  }

  /** A segment or a failed enqueue stops the submit: the new status is neither ready nor counted. */
  predicate IsStopped(before: State, after: State, step: Step, id: string) {
    && MayStop(before, step, id)
    && Quiet(before, after, id) && Kept(before, after, id)
    && (after.store.applications[id].submittedAt == before.store.applications[id].submittedAt || after.store.applications[id].submittedAt.None?)
    && !Ready(after.store.applications[id].status) && !RateLimits.Irreversible(after.store.applications[id].status)
    && after.store.applications[id].proofPackId == before.store.applications[id].proofPackId
  }

  /** The call's date is the application's own, or the clock if it has none. */
  function CallDate(state: State, id: string): int
    requires id in state.store.applications
  {
    state.store.applications[id].submittedAt.GetOr(state.clock)
  }

  predicate IsSubmitted(before: State, after: State, step: Step, id: string) {
    && Kept(before, after, id)
    && step.HealthReturns? && step.execution in before.executions && before.executions[step.execution].AwaitingHealth?
    && before.executions[step.execution].applicationId == id
    && |after.log| == |before.log| + 1
    && after.log == before.log + [after.log[|before.log|]]
    && after.log[|before.log|].SubmitCalled?
    && after.log[|before.log|].execution == step.execution
    && after.log[|before.log|].applicationId == id && after.log[|before.log|].at == before.clock
    && after.log[|before.log|].job == before.executions[step.execution].job
    && after.executions == before.executions[step.execution := AwaitingSubmit(id, CallDate(before, id))]
    && Ready(before.store.applications[id].status)
    && after.store.applications[id].status == Applying
    && after.store.applications[id].submittedAt == Some(CallDate(before, id))
    && after.store.applications[id].proofPackId == before.store.applications[id].proofPackId
  }

  /** The logged call is the one the second segment of the worker decided on. */
  ghost predicate WasDecided(cfg: Config, before: State, after: State, step: Step, id: string)
    requires IsSubmitted(before, after, step, id)
  {
    Decide(cfg, before.store, id, before.executions[step.execution].job, step.health, before.clock).1
    == CallProvider(after.log[|before.log|].draft, CallDate(before, id))
  }

  predicate IsAnswered(before: State, after: State, step: Step, id: string) {
    && Kept(before, after, id)
    && step.SubmitReturns? && step.execution in before.executions && before.executions[step.execution].AwaitingSubmit?
    && before.executions[step.execution].applicationId == id
    && after.log == before.log + [SubmitReturned(id, step.status)]
    && after.executions == before.executions[step.execution := Ended]
    && after.store == Finish(before.store, id, before.executions[step.execution].submittedAt, step.status, step.proofId, step.proof)
  }

  ghost predicate Classified(before: State, after: State, step: Step, id: string) {
    || Untouched(before, after, id)
    || Appears(before, after, step, id)
    || IsQueued(before, after, step, id)
    || IsStopped(before, after, step, id)
    || IsSubmitted(before, after, step, id)
    || IsAnswered(before, after, step, id)
  }

  lemma ApiResolveIsClassified(
    cfg: Config, state: State, request: string, resolution: Approvals.Resolution, presented: Option<Digest>,
    bodyNow: Option<int>, ticket: nat, step: Step, id: string)
    requires IsHandler(step)
    ensures Classified(state, ApiResolveStep(cfg, state, request, resolution, presented, bodyNow, ticket), step, id)
  {}

  lemma TelegramResolveIsClassified(
    cfg: Config, state: State, request: string, resolution: Approvals.Resolution, hasQueue: bool, ticket: nat, step: Step, id: string)
    requires IsHandler(step)
    ensures Classified(state, TelegramResolveStep(cfg, state, request, resolution, hasQueue, ticket), step, id)
  {}

  lemma TelegramReviewIsClassified(
    cfg: Config, state: State, applicationId: string, freshId: string, hasQueue: bool, ticket: nat, step: Step, id: string)
    requires IsHandler(step)
    ensures Classified(state, TelegramApproveReviewStep(cfg, state, applicationId, freshId, hasQueue, ticket), step, id)
  {}

  lemma BeginIsClassified(
    cfg: Config, state: State, execution: nat, applicationId: string, requestId: Option<string>, draftHash: Option<Digest>,
    step: Step, id: string)
    requires step == BeginSubmit(execution, applicationId, requestId, draftHash)
    ensures Classified(state, BeginStep(cfg, state, execution, applicationId, requestId, draftHash), step, id)
  {
    var after := BeginStep(cfg, state, execution, applicationId, requestId, draftHash);
    if id == applicationId && !Begin(cfg, state.store, applicationId, requestId, draftHash, state.clock).1.AwaitHealth?
       && id in state.store.applications {
      assert IsStopped(state, after, step, id);
    } else {
      assert Untouched(state, after, id);
    }
  }

  lemma HealthIsClassified(cfg: Config, state: State, execution: nat, health: ProviderStatus, id: string)
    requires execution in state.executions && state.executions[execution].AwaitingHealth?
    ensures Classified(state, HealthReturnsStep(cfg, state, execution, health), HealthReturns(execution, health), id)
  {
    var after := HealthReturnsStep(cfg, state, execution, health);
    var suspended := state.executions[execution];
    if id != suspended.applicationId || id !in state.store.applications {
      assert Untouched(state, after, id);
    } else if Decide(cfg, state.store, id, suspended.job, health, state.clock).1.CallProvider? {
      assert IsSubmitted(state, after, HealthReturns(execution, health), id);
    } else {
      assert IsStopped(state, after, HealthReturns(execution, health), id);
    }
  }

  lemma AnswerIsClassified(cfg: Config, state: State, execution: nat, status: SubmitStatus, proofId: string, proof: ProofPack, id: string)
    requires execution in state.executions && state.executions[execution].AwaitingSubmit?
    ensures Classified(state, SubmitReturnsStep(state, execution, status, proofId, proof),
                       SubmitReturns(execution, status, proofId, proof), id)
  {}

  lemma EnqueueIsClassified(cfg: Config, state: State, ticket: nat, failed: bool, step: Step, id: string)
    requires ticket in state.enqueues && step == EnqueueSettles(ticket, failed)
    ensures Classified(state, EnqueueSettlesStep(state, ticket, failed), step, id)
  {
    var after := EnqueueSettlesStep(state, ticket, failed);
    if id == state.enqueues[ticket].applicationId && failed && id in state.store.applications {
      assert IsStopped(state, after, step, id);
    } else {
      assert Untouched(state, after, id);
    }
  }

  lemma CreationIsClassified(cfg: Config, state: State, application: Application, id: string)
    requires Enabled(state, CreateApplication(application))
    ensures Classified(state, CreateApplicationStep(state, application), CreateApplication(application), id)
  {}

  lemma QuietStepsTouchNothing(cfg: Config, state: State, step: Step, id: string)
    requires Enabled(state, step) && IsQuiet(step)
    ensures Untouched(state, ApplyQuiet(cfg, state, step), id)
  {}

  /** Every step does one of the six things to every application. */
  lemma StepIsClassified(cfg: Config, state: State, step: Step, id: string)
    requires Enabled(state, step)
    ensures Classified(state, Apply(cfg, state, step), step, id)
  {
    match step
    case ApiResolve(request, resolution, presented, bodyNow, ticket) =>
      ApiResolveIsClassified(cfg, state, request, resolution, presented, bodyNow, ticket, step, id);
    case TelegramResolve(request, resolution, hasQueue, ticket) =>
      TelegramResolveIsClassified(cfg, state, request, resolution, hasQueue, ticket, step, id);
    case TelegramApproveReview(applicationId, freshId, hasQueue, ticket) =>
      TelegramReviewIsClassified(cfg, state, applicationId, freshId, hasQueue, ticket, step, id);
    case BeginSubmit(execution, applicationId, requestId, draftHash) =>
      BeginIsClassified(cfg, state, execution, applicationId, requestId, draftHash, step, id);
    case HealthReturns(execution, health) => HealthIsClassified(cfg, state, execution, health, id);
    case SubmitReturns(execution, status, proofId, proof) => AnswerIsClassified(cfg, state, execution, status, proofId, proof, id);
    case CreateApplication(application) => CreationIsClassified(cfg, state, application, id);
    case EnqueueSettles(ticket, failed) => EnqueueIsClassified(cfg, state, ticket, failed, step, id);
    case _ => QuietStepsTouchNothing(cfg, state, step, id);
  }

  lemma ClassifiedIsKept(before: State, after: State, step: Step, id: string)
    requires Classified(before, after, step, id) && id in before.store.applications
    ensures Kept(before, after, id)
  {}

  // What a step may do to the rest of the state

  predicate MovesAnExecution(step: Step) {
    step.BeginSubmit? || step.HealthReturns? || step.HealthThrows? || step.SubmitReturns? || step.SubmitThrows?
  }

  /** Only ingest writes jobs and dedup decisions, only proof steps write proofs, only worker steps move executions. */
  predicate Framed(cfg: Config, before: State, after: State, step: Step) {
    && (if step.IngestJob? then after == before.(store := Ingest(cfg, before.store, step.job))
        else && after.store.jobs == before.store.jobs && after.store.decisions == before.store.decisions
             && after.store.scores == before.store.scores)
    && (step.RecordOtherProof? || step.SubmitReturns? || after.store.proofs == before.store.proofs)
    && (MovesAnExecution(step) || after.executions == before.executions)
    && after.clock == before.clock + if step.Tick? then step.elapsed else 0
  }

  lemma HealthIsFramed(cfg: Config, state: State, execution: nat, health: ProviderStatus)
    requires execution in state.executions && state.executions[execution].AwaitingHealth?
    ensures Framed(cfg, state, HealthReturnsStep(cfg, state, execution, health), HealthReturns(execution, health))
  {}

  lemma BeginWritesOnlyApplications(cfg: Config, store: Store, applicationId: string, requestId: Option<string>, draftHash: Option<Digest>, now: int)
    ensures var after := Begin(cfg, store, applicationId, requestId, draftHash, now).0;
            after == store.(applications := after.applications)
  {}

  lemma BeginIsFramed(cfg: Config, state: State, execution: nat, applicationId: string, requestId: Option<string>, draftHash: Option<Digest>)
    ensures Framed(cfg, state, BeginStep(cfg, state, execution, applicationId, requestId, draftHash),
                   BeginSubmit(execution, applicationId, requestId, draftHash))
  {
    BeginWritesOnlyApplications(cfg, state.store, applicationId, requestId, draftHash, state.clock);
  }

  lemma ApiResolveIsFramed(
    cfg: Config, state: State, request: string, resolution: Approvals.Resolution, presented: Option<Digest>,
    bodyNow: Option<int>, ticket: nat)
    ensures Framed(cfg, state, ApiResolveStep(cfg, state, request, resolution, presented, bodyNow, ticket),
                   ApiResolve(request, resolution, presented, bodyNow, ticket))
  {}

  lemma TelegramResolveIsFramed(
    cfg: Config, state: State, request: string, resolution: Approvals.Resolution, hasQueue: bool, ticket: nat)
    ensures Framed(cfg, state, TelegramResolveStep(cfg, state, request, resolution, hasQueue, ticket),
                   TelegramResolve(request, resolution, hasQueue, ticket))
  {}

  lemma TelegramReviewIsFramed(cfg: Config, state: State, applicationId: string, freshId: string, hasQueue: bool, ticket: nat)
    ensures Framed(cfg, state, TelegramApproveReviewStep(cfg, state, applicationId, freshId, hasQueue, ticket),
                   TelegramApproveReview(applicationId, freshId, hasQueue, ticket))
  {}

  lemma QuietStepIsFramed(cfg: Config, state: State, step: Step)
    requires Enabled(state, step) && IsQuiet(step)
    ensures Framed(cfg, state, ApplyQuiet(cfg, state, step), step)
  {}

  lemma EnqueueIsFramed(cfg: Config, state: State, ticket: nat, failed: bool)
    requires ticket in state.enqueues
    ensures Framed(cfg, state, EnqueueSettlesStep(state, ticket, failed), EnqueueSettles(ticket, failed))
  {}

  lemma AnswerIsFramed(cfg: Config, state: State, execution: nat, status: SubmitStatus, proofId: string, proof: ProofPack)
    requires execution in state.executions && state.executions[execution].AwaitingSubmit?
    ensures Framed(cfg, state, SubmitReturnsStep(state, execution, status, proofId, proof), SubmitReturns(execution, status, proofId, proof))
  {}

  lemma StepIsFramed(cfg: Config, state: State, step: Step)
    requires Enabled(state, step)
    ensures Framed(cfg, state, Apply(cfg, state, step), step)
  {
    match step
    case ApiResolve(request, resolution, presented, bodyNow, ticket) =>
      ApiResolveIsFramed(cfg, state, request, resolution, presented, bodyNow, ticket);
    case TelegramResolve(request, resolution, hasQueue, ticket) =>
      TelegramResolveIsFramed(cfg, state, request, resolution, hasQueue, ticket);
    case TelegramApproveReview(applicationId, freshId, hasQueue, ticket) =>
      TelegramReviewIsFramed(cfg, state, applicationId, freshId, hasQueue, ticket);
    case HealthReturns(execution, health) => HealthIsFramed(cfg, state, execution, health);
    case BeginSubmit(execution, applicationId, requestId, draftHash) =>
      BeginIsFramed(cfg, state, execution, applicationId, requestId, draftHash);
    case SubmitReturns(execution, status, proofId, proof) => AnswerIsFramed(cfg, state, execution, status, proofId, proof);
    case EnqueueSettles(ticket, failed) => EnqueueIsFramed(cfg, state, ticket, failed);
    case CreateApplication(_) =>
    case _ => QuietStepIsFramed(cfg, state, step);
  }

  // How an execution comes to be where it is suspended

  /** A fresh execution validated its payload and read the job the application names. */
  ghost predicate HasBegun(before: State, after: State, step: Step, e: nat) {
    && step.BeginSubmit? && e == step.execution && e !in before.executions
    && step.applicationId in before.store.applications
    && before.store.applications[step.applicationId].jobId in before.store.jobs
    && PayloadValid(before.store, before.store.applications[step.applicationId], step.requestId, step.draftHash, before.clock)
    && e in after.executions
    && after.executions[e] == AwaitingHealth(step.applicationId, before.store.jobs[before.store.applications[step.applicationId].jobId],
                                             step.requestId.value)
    && after.log == before.log + [Validated(e, step.applicationId, step.requestId.value, before.clock, |before.approvals|)]
    && after.store == before.store && after.approvals == before.approvals
  }

  ghost predicate Advanced(before: State, after: State, step: Step, e: nat)
    requires e in after.executions
  {
    || (e in before.executions && after.executions[e] == before.executions[e])
    || after.executions[e].Ended?
    || HasBegun(before, after, step, e)
    || (after.executions[e].AwaitingSubmit? && step.HealthReturns? && step.execution == e
        && IsSubmitted(before, after, step, after.executions[e].applicationId))
  }

  lemma BeginAdvances(
    cfg: Config, state: State, execution: nat, applicationId: string, requestId: Option<string>, draftHash: Option<Digest>, e: nat)
    requires execution !in state.executions
    requires e in BeginStep(cfg, state, execution, applicationId, requestId, draftHash).executions
    ensures Advanced(state, BeginStep(cfg, state, execution, applicationId, requestId, draftHash),
                     BeginSubmit(execution, applicationId, requestId, draftHash), e)
  {}

  lemma HealthAdvances(cfg: Config, state: State, execution: nat, health: ProviderStatus, e: nat)
    requires execution in state.executions && state.executions[execution].AwaitingHealth?
    requires e in HealthReturnsStep(cfg, state, execution, health).executions
    ensures Advanced(state, HealthReturnsStep(cfg, state, execution, health), HealthReturns(execution, health), e)
  {}

  lemma ExecutionsAdvance(cfg: Config, state: State, step: Step, e: nat)
    requires Enabled(state, step)
    requires e in Apply(cfg, state, step).executions
    ensures Advanced(state, Apply(cfg, state, step), step, e)
  {
    match step
    case BeginSubmit(execution, applicationId, requestId, draftHash) =>
      BeginAdvances(cfg, state, execution, applicationId, requestId, draftHash, e);
    case HealthReturns(execution, health) => HealthAdvances(cfg, state, execution, health, e);
    case HealthThrows(_) =>
    case SubmitReturns(_, _, _, _) =>
    case SubmitThrows(_) =>
    case _ => StepIsFramed(cfg, state, step);
  }

  // Well-formedness in every reachable state

  lemma ClassifiedAppears(before: State, after: State, step: Step, id: string)
    requires Classified(before, after, step, id)
    requires id !in before.store.applications && id in after.store.applications
    ensures Appears(before, after, step, id)
  {}

  lemma ExecutionStaysWellFormed(cfg: Config, before: State, after: State, step: Step, e: nat)
    requires WellFormed(before) && e in after.executions && !after.executions[e].Ended?
    requires Advanced(before, after, step, e)
    requires forall id :: id in before.store.applications ==> Kept(before, after, id)
    ensures after.executions[e].applicationId in after.store.applications
    ensures after.executions[e].AwaitingHealth? ==>
              after.executions[e].job.id == after.store.applications[after.executions[e].applicationId].jobId
  {}

  lemma StepKeepsWellFormed(cfg: Config, state: State, step: Step)
    requires WellFormed(state) && Enabled(state, step)
    ensures WellFormed(Apply(cfg, state, step))
  {
    StepIsFramed(cfg, state, step);
    var after := Apply(cfg, state, step);
    forall id | id in state.store.applications
      ensures Kept(state, after, id)
    {
      StepIsClassified(cfg, state, step, id);
      ClassifiedIsKept(state, after, step, id);
    }
    forall id | id in after.store.applications
      ensures after.store.applications[id].id == id && after.store.applications[id].jobId in after.store.jobs
    {
      if id !in state.store.applications {
        StepIsClassified(cfg, state, step, id);
        ClassifiedAppears(state, after, step, id);
      }
    }
    forall e | e in after.executions && !after.executions[e].Ended?
      ensures after.executions[e].applicationId in after.store.applications
      ensures after.executions[e].AwaitingHealth? ==>
                after.executions[e].job.id == after.store.applications[after.executions[e].applicationId].jobId
    {
      ExecutionsAdvance(cfg, state, step, e);
      ExecutionStaysWellFormed(cfg, state, after, step, e);
    }
  }

  lemma {:induction false} RunsAreWellFormed(cfg: Config, states: seq<State>, steps: seq<Step>, n: nat)
    requires IsRun(cfg, states, steps) && n <= |steps|
    ensures WellFormed(states[n])
  {
    if n > 0 {
      RunsAreWellFormed(cfg, states, steps, n - 1);
      StepKeepsWellFormed(cfg, states[n - 1], steps[n - 1]);
    }
  }

  /** All that the theorems use about two consecutive states. */
  ghost predicate Conforms(cfg: Config, before: State, after: State, step: Step) {
    && WellFormed(before) && WellFormed(after) && Framed(cfg, before, after, step)
    && (forall id :: Classified(before, after, step, id))
    && (forall e :: e in after.executions ==> Advanced(before, after, step, e))
  }

  lemma RunConforms(cfg: Config, states: seq<State>, steps: seq<Step>, i: nat)
    requires IsRun(cfg, states, steps) && i < |steps|
    ensures Conforms(cfg, states[i], states[i + 1], steps[i])
  {
    RunsAreWellFormed(cfg, states, steps, i);
    RunsAreWellFormed(cfg, states, steps, i + 1);
    StepIsFramed(cfg, states[i], steps[i]);
    forall id { StepIsClassified(cfg, states[i], steps[i], id); }
    forall e | e in states[i + 1].executions { ExecutionsAdvance(cfg, states[i], steps[i], e); }
  }

  lemma RunDecides(cfg: Config, states: seq<State>, steps: seq<Step>, i: nat, id: string)
    requires IsRun(cfg, states, steps) && i < |steps|
    requires IsSubmitted(states[i], states[i + 1], steps[i], id)
    ensures WasDecided(cfg, states[i], states[i + 1], steps[i], id)
  {}
}
