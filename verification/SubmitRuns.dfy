/**
 Building runs of the protocol step by step, for the runs that show what goes wrong
 without an assumption. A scene is a state without the audit log of its approval book;
 each move extends a run by one step and says what the step makes of the scene.
 */
module SubmitRuns {
  import opened Common
  import opened Drafts
  import opened Records
  import opened Sets
  import opened SubmitPolicy
  import opened SubmitWorker
  import opened SubmitProtocol
  import Approvals
  import RateLimits

  // Runs

  datatype Run = Run(states: seq<State>, steps: seq<Step>)

  type Discipline = (State, Step) -> bool

  function Anything(): Discipline {
    (state: State, step: Step) => true
  }

  /** A run to `last` whose steps all keep a discipline. */
  ghost predicate Plays(cfg: Config, ok: Discipline, run: Run, last: State) {
    && IsRun(cfg, run.states, run.steps) && run.states[|run.steps|] == last
    && forall i :: 0 <= i < |run.steps| ==> ok(run.states[i], run.steps[i])
  }

  lemma PlayOn(cfg: Config, ok: Discipline, run: Run, last: State, step: Step) returns (longer: Run)
    requires Plays(cfg, ok, run, last) && Enabled(last, step) && ok(last, step)
    ensures Plays(cfg, ok, longer, Apply(cfg, last, step)) && longer.steps == run.steps + [step]
  {
    longer := Run(run.states + [Apply(cfg, last, step)], run.steps + [step]);
    forall i | 0 <= i < |longer.steps|
      ensures && Enabled(longer.states[i], longer.steps[i])
              && longer.states[i + 1] == Apply(cfg, longer.states[i], longer.steps[i])
              && ok(longer.states[i], longer.steps[i])
    {
      if i < |run.steps| {
        assert longer.states[i] == run.states[i] && longer.steps[i] == run.steps[i];
      }
    }
  }

  lemma Relax(cfg: Config, strict: Discipline, loose: Discipline, run: Run, last: State)
    requires Plays(cfg, strict, run, last) && forall state, step :: strict(state, step) ==> loose(state, step)
    ensures Plays(cfg, loose, run, last)
  {}

  // Scenes

  datatype Scene = Scene(
    clock: int, executions: map<nat, Execution>, enqueues: map<nat, PendingEnqueue>, log: seq<Event>,
    jobs: map<string, Job>, scores: map<string, bool>, decisions: map<string, DedupStatus>,
    applications: map<string, Application>, requests: map<string, Approvals.Request>,
    proofs: map<string, ProofPack>, canaries: seq<CanaryRun>, mode: AppMode)

  function SceneOf(state: State): Scene {
    Scene(state.clock, state.executions, state.enqueues, state.log, state.store.jobs, state.store.scores, state.store.decisions,
          state.store.applications, state.store.book.requests, state.store.proofs, state.store.canaries, state.store.mode)
  }

  // Moves that prepare

  lemma PlayTick(cfg: Config, ok: Discipline, run: Run, state: State, elapsed: nat) returns (longer: Run, after: State)
    requires Plays(cfg, ok, run, state) && ok(state, Tick(elapsed))
    ensures Plays(cfg, ok, longer, after) && longer.steps == run.steps + [Tick(elapsed)]
    ensures SceneOf(after) == SceneOf(state).(clock := state.clock + elapsed) && after.approvals == state.approvals
  {
    longer := PlayOn(cfg, ok, run, state, Tick(elapsed));
    after := Apply(cfg, state, Tick(elapsed));
  }

  function WithJob(scene: Scene, job: Job): Scene {
    scene.(jobs := scene.jobs[job.id := job], decisions := scene.decisions[job.id := New], scores := scene.scores[job.id := true])
  }

  /** A shortlisted job that shares no key with another. */
  lemma PlayIngest(cfg: Config, ok: Discipline, run: Run, state: State, job: Job) returns (longer: Run, after: State)
    requires Plays(cfg, ok, run, state) && ok(state, IngestJob(job)) && cfg.shortlisted(job)
    requires forall id :: id in state.store.jobs && id != job.id ==>
               !SharesKey(BuildDedupKey(cfg.text, state.store.jobs[id]), BuildDedupKey(cfg.text, job))
    ensures Plays(cfg, ok, longer, after) && longer.steps == run.steps + [IngestJob(job)]
    ensures SceneOf(after) == WithJob(SceneOf(state), job)
  {
    NewExactlyWhenNoSharedKey(BuildDedupKey(cfg.text, job), OtherKeys(cfg, state.store, job.id));
    longer := PlayOn(cfg, ok, run, state, IngestJob(job));
    after := Apply(cfg, state, IngestJob(job));
  }

  lemma PlayCanary(cfg: Config, ok: Discipline, run: Run, state: State, canary: CanaryRun) returns (longer: Run, after: State)
    requires Plays(cfg, ok, run, state) && ok(state, RecordCanary(canary))
    ensures Plays(cfg, ok, longer, after) && longer.steps == run.steps + [RecordCanary(canary)]
    ensures SceneOf(after) == SceneOf(state).(canaries := state.store.canaries + [canary])
  {
    longer := PlayOn(cfg, ok, run, state, RecordCanary(canary));
    after := Apply(cfg, state, RecordCanary(canary));
  }

  lemma PlayProof(cfg: Config, ok: Discipline, run: Run, state: State, proofId: string, proof: ProofPack) returns (longer: Run, after: State)
    requires Plays(cfg, ok, run, state) && ok(state, RecordOtherProof(proofId, proof))
    ensures Plays(cfg, ok, longer, after) && longer.steps == run.steps + [RecordOtherProof(proofId, proof)]
    ensures SceneOf(after) == SceneOf(state).(proofs := state.store.proofs[proofId := proof])
  {
    longer := PlayOn(cfg, ok, run, state, RecordOtherProof(proofId, proof));
    after := Apply(cfg, state, RecordOtherProof(proofId, proof));
  }

  function WithApplication(scene: Scene, application: Application): Scene {
    scene.(applications := scene.applications[application.id := application],
           log := scene.log + [Created(application.id, application.draftVariantKey, Ready(application.status))])
  }

  lemma PlayCreate(cfg: Config, ok: Discipline, run: Run, state: State, application: Application) returns (longer: Run, after: State)
    requires Plays(cfg, ok, run, state) && ok(state, CreateApplication(application))
    requires Enabled(state, CreateApplication(application))
    requires forall id :: id in state.store.applications ==> state.store.applications[id].idempotencyKey != application.idempotencyKey
    ensures Plays(cfg, ok, longer, after) && longer.steps == run.steps + [CreateApplication(application)]
    ensures SceneOf(after) == WithApplication(SceneOf(state), application)
  {
    longer := PlayOn(cfg, ok, run, state, CreateApplication(application));
    after := Apply(cfg, state, CreateApplication(application));
  }

  function WithRequest(scene: Scene, id: string, terms: Approvals.Terms): Scene {
    scene.(requests := scene.requests[id := Approvals.Request(terms, Approvals.Pending, scene.clock, None)])
  }

  /** The first request about an entity. */
  lemma PlayRequest(cfg: Config, ok: Discipline, run: Run, state: State, freshId: string, terms: Approvals.Terms)
    returns (longer: Run, after: State)
    requires Plays(cfg, ok, run, state) && ok(state, CreateApproval(freshId, terms)) && freshId !in state.store.book.requests
    requires forall r :: r in state.store.book.requests ==> state.store.book.requests[r].terms.entityId != terms.entityId
    ensures Plays(cfg, ok, longer, after) && longer.steps == run.steps + [CreateApproval(freshId, terms)]
    ensures SceneOf(after) == WithRequest(SceneOf(state), freshId, terms)
  {
    assert !Approvals.HasPending(state.store.book, terms);
    longer := PlayOn(cfg, ok, run, state, CreateApproval(freshId, terms));
    after := Apply(cfg, state, CreateApproval(freshId, terms));
  }

  // Approving

  /** An approving call through the API that meets every check. */
  ghost predicate CanApprove(cfg: Config, state: State, request: string, bodyNow: Option<int>) {
    && request in state.store.book.requests && AsksToSend(state.store, state.store.book.requests[request])
    && var it := state.store.book.requests[request];
       && (it.status == Approvals.Pending || it.status == Approvals.Approved)
       && bodyNow.GetOr(state.clock) < it.terms.expiresAt && state.clock < it.terms.expiresAt
       && cfg.irreversibleActionsEnabled
       && HandlerRateAllowed(cfg, state.store, state.store.applications[it.terms.entityId], state.clock)
  }

  function Approving(scene: Scene, request: string, bodyNow: Option<int>, ticket: nat): Step
    requires request in scene.requests
  {
    ApiResolve(request, Approvals.Approve, scene.requests[request].terms.draftHash, bodyNow, ticket)
  }

  /** What an approving call leaves of a request. */
  function ApprovedAt(request: Approvals.Request, now: int): Approvals.Request {
    if request.status == Approvals.Pending then request.(status := Approvals.Approved, resolvedAt := Some(now)) else request
  }

  function WithApproval(scene: Scene, request: string, now: int, ticket: nat): Scene
    requires request in scene.requests && scene.requests[request].terms.entityId in scene.applications
  {
    var id := scene.requests[request].terms.entityId;
    scene.(applications := scene.applications[id := scene.applications[id].(status := ApplyQueued, submittedAt := Some(now))],
           requests := scene.requests[request := ApprovedAt(scene.requests[request], now)],
           enqueues := scene.enqueues[ticket := PendingEnqueue(id, false)],
           log := scene.log + [Queued(id, !Ready(scene.applications[id].status))])
  }

  lemma ApprovedInStore(cfg: Config, state: State, request: string, bodyNow: Option<int>)
    requires CanApprove(cfg, state, request, bodyNow)
    ensures var store := state.store;
            var it := store.book.requests[request];
            var id := it.terms.entityId;
            var now := bodyNow.GetOr(state.clock);
            var result := ResolveViaApi(cfg, store, request, Approvals.Approve, it.terms.draftHash, bodyNow, state.clock);
            && result.queuedAt == Some(now)
            && result.store == SetStatusAt(store, id, ApplyQueued, Some(now)).(book := result.store.book)
            && result.store.book.requests == store.book.requests[request := ApprovedAt(it, now)]
  {}

  lemma PlayApprove(cfg: Config, ok: Discipline, run: Run, state: State, request: string, bodyNow: Option<int>, ticket: nat)
    returns (longer: Run, after: State)
    requires Plays(cfg, ok, run, state) && CanApprove(cfg, state, request, bodyNow) && ticket !in state.enqueues
    requires ok(state, Approving(SceneOf(state), request, bodyNow, ticket))
    ensures Plays(cfg, ok, longer, after) && longer.steps == run.steps + [Approving(SceneOf(state), request, bodyNow, ticket)]
    ensures SceneOf(after) == WithApproval(SceneOf(state), request, bodyNow.GetOr(state.clock), ticket)
  {
    var step := Approving(SceneOf(state), request, bodyNow, ticket);
    longer := PlayOn(cfg, ok, run, state, step);
    after := Apply(cfg, state, step);
    ApprovedInStore(cfg, state, request, bodyNow);
  }

  /** An enqueue that the API waited for fails. */
  lemma PlayFailEnqueue(cfg: Config, ok: Discipline, run: Run, state: State, ticket: nat) returns (longer: Run, after: State)
    requires Plays(cfg, ok, run, state) && ticket in state.enqueues && !state.enqueues[ticket].clearsDate
    requires ok(state, EnqueueSettles(ticket, true)) && state.enqueues[ticket].applicationId in state.store.applications
    ensures Plays(cfg, ok, longer, after) && longer.steps == run.steps + [EnqueueSettles(ticket, true)]
    ensures var id := state.enqueues[ticket].applicationId;
            SceneOf(after)
            == SceneOf(state).(applications := state.store.applications[id := state.store.applications[id].(status := ManualReviewRequired)],
                               enqueues := state.enqueues - {ticket})
  {
    longer := PlayOn(cfg, ok, run, state, EnqueueSettles(ticket, true));
    after := Apply(cfg, state, EnqueueSettles(ticket, true));
  }

  // The worker

  /** The job a worker reads for the request is stored, and the request approved. */
  predicate CanBegin(cfg: Config, scene: Scene, request: string) {
    && request != "" && request in scene.requests
    && var terms := scene.requests[request].terms;
       && terms.entityType == Approvals.ApplicationEntity && terms.action == Approvals.SendApplication
       && terms.entityId in scene.applications && Present(terms.draftHash)
       && scene.requests[request].status == Approvals.Approved && scene.clock < terms.expiresAt
       && var application := scene.applications[terms.entityId];
          && application.id == terms.entityId && application.draftVariantKey == terms.draftHash
          && application.jobId in scene.jobs && application.providerId in cfg.providers
  }

  function Beginning(scene: Scene, request: string, execution: nat): Step
    requires request in scene.requests
  {
    BeginSubmit(execution, scene.requests[request].terms.entityId, Some(request), scene.requests[request].terms.draftHash)
  }

  function WithExecution(scene: Scene, request: string, execution: nat, approvals: nat): Scene
    requires request in scene.requests && scene.requests[request].terms.entityId in scene.applications
    requires scene.applications[scene.requests[request].terms.entityId].jobId in scene.jobs
  {
    var id := scene.requests[request].terms.entityId;
    scene.(executions := scene.executions[execution := AwaitingHealth(id, scene.jobs[scene.applications[id].jobId], request)],
           log := scene.log + [Validated(execution, id, request, scene.clock, approvals)])
  }

  lemma PlayBegin(cfg: Config, ok: Discipline, run: Run, state: State, request: string, execution: nat) returns (longer: Run, after: State)
    requires Plays(cfg, ok, run, state) && CanBegin(cfg, SceneOf(state), request) && execution !in state.executions
    requires ok(state, Beginning(SceneOf(state), request, execution))
    ensures Plays(cfg, ok, longer, after) && longer.steps == run.steps + [Beginning(SceneOf(state), request, execution)]
    ensures SceneOf(after) == WithExecution(SceneOf(state), request, execution, |state.approvals|) && after.approvals == state.approvals
  {
    var step := Beginning(SceneOf(state), request, execution);
    longer := PlayOn(cfg, ok, run, state, step);
    after := Apply(cfg, state, step);
    assert after == BeginStep(cfg, state, execution, step.applicationId, step.requestId, step.draftHash);
  }

  /** A task without an approval sends its application to review. */
  lemma PlayBeginInVain(cfg: Config, ok: Discipline, run: Run, state: State, id: string, execution: nat) returns (longer: Run, after: State)
    requires Plays(cfg, ok, run, state) && ok(state, BeginSubmit(execution, id, None, None)) && execution !in state.executions
    requires id in state.store.applications && state.store.applications[id].jobId in state.store.jobs
    requires state.store.applications[id].providerId in cfg.providers
    ensures Plays(cfg, ok, longer, after) && longer.steps == run.steps + [BeginSubmit(execution, id, None, None)]
    ensures SceneOf(after)
         == SceneOf(state).(applications := state.store.applications[id := state.store.applications[id].(status := ManualReviewRequired)],
                            executions := state.executions[execution := Ended])
  {
    longer := PlayOn(cfg, ok, run, state, BeginSubmit(execution, id, None, None));
    after := Apply(cfg, state, BeginSubmit(execution, id, None, None));
    assert after == BeginStep(cfg, state, execution, id, None, None);
  }

  /** The second segment of a suspended execution would call the provider. */
  ghost predicate CanCall(cfg: Config, state: State, execution: nat) {
    && execution in state.executions && state.executions[execution].AwaitingHealth?
    && state.executions[execution].applicationId in state.store.applications
    && Decide(cfg, state.store, state.executions[execution].applicationId, state.executions[execution].job, Stable, state.clock).1.CallProvider?
  }

  function WithCall(scene: Scene, execution: nat, draft: ApplicationDraft): Scene
    requires execution in scene.executions && scene.executions[execution].AwaitingHealth?
    requires scene.executions[execution].applicationId in scene.applications
  {
    var id := scene.executions[execution].applicationId;
    var date := scene.applications[id].submittedAt.GetOr(scene.clock);
    scene.(applications := scene.applications[id := scene.applications[id].(status := Applying, submittedAt := Some(date))],
           executions := scene.executions[execution := AwaitingSubmit(id, date)],
           log := scene.log + [SubmitCalled(execution, id, scene.clock, scene.executions[execution].job, draft)])
  }

  lemma PlayCall(cfg: Config, ok: Discipline, run: Run, state: State, execution: nat)
    returns (longer: Run, after: State, draft: ApplicationDraft)
    requires Plays(cfg, ok, run, state) && CanCall(cfg, state, execution) && ok(state, HealthReturns(execution, Stable))
    ensures Plays(cfg, ok, longer, after) && longer.steps == run.steps + [HealthReturns(execution, Stable)]
    ensures SceneOf(after) == WithCall(SceneOf(state), execution, draft) && after.approvals == state.approvals
  {
    var suspended := state.executions[execution];
    draft := Decide(cfg, state.store, suspended.applicationId, suspended.job, Stable, state.clock).1.draft;
    longer := PlayOn(cfg, ok, run, state, HealthReturns(execution, Stable));
    after := Apply(cfg, state, HealthReturns(execution, Stable));
    assert after == HealthReturnsStep(cfg, state, execution, Stable);
  }

  function WithAnswer(scene: Scene, execution: nat, proofId: string, proof: ProofPack): Scene
    requires execution in scene.executions && scene.executions[execution].AwaitingSubmit?
    requires scene.executions[execution].applicationId in scene.applications
  {
    var id, date := scene.executions[execution].applicationId, scene.executions[execution].submittedAt;
    scene.(applications := scene.applications[id := scene.applications[id].(
             status := Applied, submittedAt := Some(date), proofPackId := Some(proofId))],
           proofs := scene.proofs[proofId := proof], executions := scene.executions[execution := Ended],
           log := scene.log + [SubmitReturned(id, Submitted)])
  }

  lemma PlayAnswer(cfg: Config, ok: Discipline, run: Run, state: State, execution: nat, proofId: string, proof: ProofPack)
    returns (longer: Run, after: State)
    requires Plays(cfg, ok, run, state) && ok(state, SubmitReturns(execution, Submitted, proofId, proof))
    requires execution in state.executions && state.executions[execution].AwaitingSubmit?
    requires state.executions[execution].applicationId in state.store.applications
    ensures Plays(cfg, ok, longer, after) && longer.steps == run.steps + [SubmitReturns(execution, Submitted, proofId, proof)]
    ensures SceneOf(after) == WithAnswer(SceneOf(state), execution, proofId, proof)
  {
    longer := PlayOn(cfg, ok, run, state, SubmitReturns(execution, Submitted, proofId, proof));
    after := Apply(cfg, state, SubmitReturns(execution, Submitted, proofId, proof));
    assert after == SubmitReturnsStep(state, execution, Submitted, proofId, proof);
  }

  // When the limits leave room

  /** The other counted applications dated after the cutoff. */
  function Others(store: Store, id: string, cutoff: int): set<string> {
    set x | x in store.applications && x != id && RateLimits.Irreversible(store.applications[x].status)
            && cutoff < RateLimits.Timestamp(store.applications[x])
  }

  lemma FewOthersAreAllowed(cfg: Config, store: Store, application: Application, job: Job, now: int)
    requires |Others(store, application.id, now - HOUR_MS)| < cfg.limits.applicationsPerHour
    requires |Others(store, application.id, now - DAY_MS)| < cfg.limits.applicationsPerDay
    requires |Others(store, application.id, now - DAY_MS)| < cfg.limits.maxPerCompanyPerDay
    requires |Others(store, application.id, now - WEEK_MS)| < cfg.limits.maxPerCompanyPerWeek
    ensures RateAllowed(cfg, store, application, job, now)
  {
    forall rule | RateLimits.IsRuleFor(cfg.limits, cfg.text, job, application.providerId, rule)
      ensures RateLimits.BuildWindowCheck(
                rule.limit, RateLimits.Stamps(cfg.text, store.jobs, store.applications, rule.group, false, Some(application.id)),
                rule.windowMs, now).allowed
    {
      var stamps := RateLimits.Stamps(cfg.text, store.jobs, store.applications, rule.group, false, Some(application.id));
      SubsetSize(RateLimits.Recent(stamps, now - rule.windowMs), Others(store, application.id, now - rule.windowMs));
    }
  }
}
