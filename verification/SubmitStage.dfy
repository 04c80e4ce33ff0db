/** The setting the runs start from: two new jobs, and a prepared application and a pending request for each. */
module SubmitStage {
  import opened Common
  import opened Drafts
  import opened Records
  import opened SubmitPolicy
  import opened SubmitWorker
  import opened SubmitProtocol
  import opened SubmitRuns
  import Approvals
  import RateLimits

  /** Everything is allowed but by the limits; texts are compared as they are. */
  function Setting(limits: RateLimits.Limits): Config {
    Config("u", "p", true, limits, true, {"p"},
           TextRules((text: Option<string>) => text.GetOr(""), (text: Option<string>) => text.GetOr(""), url => None),
           job => true, job => None, (job, resume) => CoverLetter("l", true))
  }

  /** A job; `name` is its key at the provider, and its title. */
  function JobOf(id: string, name: string, company: Option<string>): Job {
    Job(id, "p", name, None, name, company, None, "", "")
  }

  lemma NamesTellApart(limits: RateLimits.Limits, left: Job, right: Job)
    requires left == JobOf(left.id, left.title, left.companyName) && right == JobOf(right.id, right.title, right.companyName)
    requires left.title != right.title
    ensures !SharesKey(BuildDedupKey(Setting(limits).text, left), BuildDedupKey(Setting(limits).text, right))
  {
    assert ("p:" + left.title)[2..] == left.title && ("p:" + right.title)[2..] == right.title;
    assert "p" + ":" == "p:";
  }

  /** The draft of application `id` for job `jobId`, and its hash. */
  function HashFor(id: string, jobId: string): Digest {
    HashOf(DraftContent(jobId, "p", jobId, "p", "r", "c", "l", id))
  }

  /** Its dry-run proof has the job's id. */
  function Prepared(id: string, jobId: string, createdAt: int): Application {
    Application(id, jobId, "p", jobId, None, Some("r"), Some("c"), ApplicationPrepared, id, Some(HashFor(id, jobId)), Some(jobId), None, createdAt)
  }

  function DryRun(jobId: string): ProofPack {
    ProofPack("p", jobId, DryRunPassed, None, Some(0), Some("before.png"), Some("before.html"))
  }

  function TermsFor(id: string, jobId: string, expiresAt: int): Approvals.Terms {
    Approvals.Terms("u", Approvals.ApplicationEntity, id, Approvals.SendApplication, expiresAt, Some(HashFor(id, jobId)))
  }

  function PendingFor(id: string, jobId: string, expiresAt: int, at: int): Approvals.Request {
    Approvals.Request(TermsFor(id, jobId, expiresAt), Approvals.Pending, at, None)
  }

  /** The two jobs of most runs, and a proof a submit may leave. */
  function JobA(): Job { JobOf("a", "a", None) }

  function JobB(): Job { JobOf("b", "b", None) }

  function SubmitProof(): ProofPack {
    ProofPack("p", "a", OtherFinalStatus("submitted"), None, Some(0), None, None)
  }

  /** When most runs start, and their limits: one application an hour, ten a day. */
  const CLOCK: int := 0
  const LIMITS := RateLimits.Limits(1, 10, 10, 10)

  // Setting the stage

  /** Nothing is executed, approved, answered or written twice. */
  function Calm(): Discipline {
    (state: State, step: Step) =>
      && state.executions == map[] && !step.ApiResolve? && !step.SubmitReturns?
      && (step.IngestJob? ==> step.job.id !in state.store.jobs)
      && (step.RecordOtherProof? ==> step.proofId !in state.store.proofs)
  }

  predicate AreTwoJobs(a: Job, b: Job) {
    && a == JobOf("a", a.title, a.companyName) && b == JobOf("b", b.title, b.companyName) && a.title != b.title
  }

  function WithJobs(a: Job, b: Job, clock: int): Scene {
    Scene(clock, map[], map[], [], map["a" := a, "b" := b], map["a" := true, "b" := true], map["a" := New, "b" := New],
          map[], map[], map[], [], FullAutoApply)
  }

  lemma SetJobs(limits: RateLimits.Limits, a: Job, b: Job, clock: int) returns (run: Run, last: State)
    requires AreTwoJobs(a, b)
    ensures Plays(Setting(limits), Calm(), run, last) && SceneOf(last) == WithJobs(a, b, clock)
  {
    last := Initial(clock, FullAutoApply);
    run, last := PlayIngest(Setting(limits), Calm(), Run([last], []), last, a);
    NamesTellApart(limits, a, b);
    run, last := PlayIngest(Setting(limits), Calm(), run, last, b);
    assert SceneOf(last).jobs == map["a" := a, "b" := b];
  }

  function WithProofs(scene: Scene): Scene {
    scene.(canaries := [CanaryRun("p", true, scene.clock)], proofs := map["a" := DryRun("a"), "b" := DryRun("b")])
  }

  lemma SetProofs(limits: RateLimits.Limits, a: Job, b: Job, clock: int) returns (run: Run, last: State)
    requires AreTwoJobs(a, b)
    ensures Plays(Setting(limits), Calm(), run, last) && SceneOf(last) == WithProofs(WithJobs(a, b, clock))
  {
    run, last := SetJobs(limits, a, b, clock);
    run, last := PlayCanary(Setting(limits), Calm(), run, last, CanaryRun("p", true, clock));
    run, last := PlayProof(Setting(limits), Calm(), run, last, "a", DryRun("a"));
    run, last := PlayProof(Setting(limits), Calm(), run, last, "b", DryRun("b"));
  }

  function WithApplications(scene: Scene): Scene {
    scene.(applications := map["A" := Prepared("A", "a", scene.clock), "B" := Prepared("B", "b", scene.clock)],
           log := [Created("A", Some(HashFor("A", "a")), true), Created("B", Some(HashFor("B", "b")), true)])
  }

  lemma SetApplications(limits: RateLimits.Limits, a: Job, b: Job, clock: int) returns (run: Run, last: State)
    requires AreTwoJobs(a, b)
    ensures Plays(Setting(limits), Calm(), run, last) && SceneOf(last) == WithApplications(WithProofs(WithJobs(a, b, clock)))
  {
    run, last := SetProofs(limits, a, b, clock);
    run, last := PlayCreate(Setting(limits), Calm(), run, last, Prepared("A", "a", clock));
    run, last := PlayCreate(Setting(limits), Calm(), run, last, Prepared("B", "b", clock));
  }

  /** The stage: both applications prepared, both requests pending until `expiresAt`. */
  function Stage(a: Job, b: Job, clock: int, expiresAt: int): Scene {
    WithApplications(WithProofs(WithJobs(a, b, clock))).(
      requests := map["ra" := PendingFor("A", "a", expiresAt, clock), "rb" := PendingFor("B", "b", expiresAt, clock)])
  }

  lemma SetStage(limits: RateLimits.Limits, a: Job, b: Job, clock: int, expiresAt: int) returns (run: Run, last: State)
    requires AreTwoJobs(a, b)
    ensures Plays(Setting(limits), Calm(), run, last) && SceneOf(last) == Stage(a, b, clock, expiresAt)
  {
    run, last := SetApplications(limits, a, b, clock);
    run, last := PlayRequest(Setting(limits), Calm(), run, last, "ra", TermsFor("A", "a", expiresAt));
    run, last := PlayRequest(Setting(limits), Calm(), run, last, "rb", TermsFor("B", "b", expiresAt));
  }

  // Calling the provider on the stage

  /** A prepared application in a ready status, with a proof that lets it through. */
  ghost predicate IsSendable(store: Store, id: string, jobId: string) {
    && id in store.applications
    && var application := store.applications[id];
       && SameIdentity(Prepared(id, jobId, application.createdAt), application)
       && Ready(application.status) && SubmitProofReady(application, ProofOf(store, application))
  }

  lemma SendableDraft(limits: RateLimits.Limits, application: Application, id: string, jobId: string, job: Job)
    requires id != "" && SameIdentity(Prepared(id, jobId, application.createdAt), application)
    ensures BuildApprovedDraft(Setting(limits), application, job).Some?
  {}

  lemma SendableIsCalled(limits: RateLimits.Limits, state: State, id: string, job: Job, execution: nat)
    requires execution in state.executions && state.executions[execution].AwaitingHealth?
    requires state.executions[execution].applicationId == id && state.executions[execution].job == job
    requires id != "" && IsSendable(state.store, id, job.id) && state.store.mode == FullAutoApply
    requires job.id in state.store.scores && state.store.scores[job.id]
    requires job.id in state.store.decisions && state.store.decisions[job.id] == New
    requires HasFreshPassedCanary(state.store.canaries, "p", state.clock)
    requires RateAllowed(Setting(limits), state.store, state.store.applications[id], job, state.clock)
    ensures CanCall(Setting(limits), state, execution)
  {
    SendableDraft(limits, state.store.applications[id], id, job.id, job);
    CallsProviderExactlyWhen(Setting(limits), state.store, id, job, Stable, state.clock);
  }

  // The first application is approved, begun and called

  /** Known jobs and proofs stay, the API uses its own clock, and no call is unanswered. */
  ghost function Proper(): Discipline {
    (state: State, step: Step) =>
      && (step.ApiResolve? ==> step.bodyNow.None?) && !step.SubmitReturns?
      && (step.IngestJob? ==> step.job.id !in state.store.jobs)
      && (step.RecordOtherProof? ==> step.proofId !in state.store.proofs)
      && forall e :: e in state.executions ==> !state.executions[e].AwaitingSubmit?
  }

  /** Limits that let a lone application through. */
  predicate LetOneThrough(limits: RateLimits.Limits) {
    0 < limits.applicationsPerHour && 0 < limits.applicationsPerDay && 0 < limits.maxPerCompanyPerDay && 0 < limits.maxPerCompanyPerWeek
  }

  ghost predicate NobodyElse(store: Store, id: string) {
    forall x :: x in store.applications && x != id ==> !RateLimits.Irreversible(store.applications[x].status)
  }

  lemma AloneIsAllowed(limits: RateLimits.Limits, store: Store, application: Application, job: Job, now: int)
    requires LetOneThrough(limits) && NobodyElse(store, application.id)
    ensures RateAllowed(Setting(limits), store, application, job, now)
  {
    forall cutoff ensures Others(store, application.id, cutoff) == {} {}
    FewOthersAreAllowed(Setting(limits), store, application, job, now);
  }

  /** Whatever the clock: a canary of the last day, a proof that is ready, and nobody else counted. */
  lemma SendableAlone(limits: RateLimits.Limits, state: State, id: string, job: Job, execution: nat)
    requires execution in state.executions && state.executions[execution].AwaitingHealth?
    requires state.executions[execution].applicationId == id && state.executions[execution].job == job
    requires LetOneThrough(limits) && id != "" && IsSendable(state.store, id, job.id) && NobodyElse(state.store, id)
    requires job.id in state.store.scores && state.store.scores[job.id]
    requires job.id in state.store.decisions && state.store.decisions[job.id] == New
    requires state.store.mode == FullAutoApply && HasFreshPassedCanary(state.store.canaries, "p", state.clock)
    ensures CanCall(Setting(limits), state, execution)
  {
    AloneIsAllowed(limits, state.store, state.store.applications[id], job, state.clock);
    SendableIsCalled(limits, state, id, job, execution);
  }

  function QueuedA(clock: int): Application {
    Prepared("A", "a", clock).(status := ApplyQueued, submittedAt := Some(clock))
  }

  /** An application nobody else is counted with can be approved. */
  lemma CanApproveAlone(limits: RateLimits.Limits, state: State, request: string, bodyNow: Option<int>)
    requires LetOneThrough(limits) && request in state.store.book.requests && AsksToSend(state.store, state.store.book.requests[request])
    requires var it := state.store.book.requests[request];
             && (it.status == Approvals.Pending || it.status == Approvals.Approved)
             && bodyNow.GetOr(state.clock) < it.terms.expiresAt && state.clock < it.terms.expiresAt
             && state.store.applications[it.terms.entityId].id == it.terms.entityId && NobodyElse(state.store, it.terms.entityId)
    ensures CanApprove(Setting(limits), state, request, bodyNow)
  {
    var application := state.store.applications[state.store.book.requests[request].terms.entityId];
    if application.jobId in state.store.jobs {
      AloneIsAllowed(limits, state.store, application, state.store.jobs[application.jobId], state.clock);
    }
  }

  function FirstQueued(a: Job, b: Job, clock: int, expiresAt: int): Scene {
    var stage := Stage(a, b, clock, expiresAt);
    stage.(applications := stage.applications["A" := QueuedA(clock)],
           requests := stage.requests["ra" := ApprovedAt(PendingFor("A", "a", expiresAt, clock), clock)],
           enqueues := map[0 := PendingEnqueue("A", false)], log := stage.log + [Queued("A", false)])
  }

  lemma StageCanBeApproved(limits: RateLimits.Limits, a: Job, b: Job, clock: int, expiresAt: int, state: State)
    requires LetOneThrough(limits) && clock < expiresAt && SceneOf(state) == Stage(a, b, clock, expiresAt)
    ensures CanApprove(Setting(limits), state, "ra", None)
  {
    CanApproveAlone(limits, state, "ra", None);
  }

  lemma SetProperStage(limits: RateLimits.Limits, a: Job, b: Job, clock: int, expiresAt: int) returns (run: Run, last: State)
    requires AreTwoJobs(a, b)
    ensures Plays(Setting(limits), Proper(), run, last) && SceneOf(last) == Stage(a, b, clock, expiresAt)
  {
    run, last := SetStage(limits, a, b, clock, expiresAt);
    Relax(Setting(limits), Calm(), Proper(), run, last);
  }

  lemma ApprovalQueuesFirst(a: Job, b: Job, clock: int, expiresAt: int)
    ensures WithApproval(Stage(a, b, clock, expiresAt), "ra", clock, 0) == FirstQueued(a, b, clock, expiresAt)
  {}

  lemma PlayFirstQueued(limits: RateLimits.Limits, a: Job, b: Job, clock: int, expiresAt: int) returns (run: Run, last: State)
    requires AreTwoJobs(a, b) && LetOneThrough(limits) && clock < expiresAt
    ensures Plays(Setting(limits), Proper(), run, last) && SceneOf(last) == FirstQueued(a, b, clock, expiresAt)
  {
    var start: State;
    run, start := SetProperStage(limits, a, b, clock, expiresAt);
    StageCanBeApproved(limits, a, b, clock, expiresAt, start);
    run, last := PlayApprove(Setting(limits), Proper(), run, start, "ra", None, 0);
    ApprovalQueuesFirst(a, b, clock, expiresAt);
  }

  function FirstBegun(a: Job, b: Job, clock: int, expiresAt: int, approvals: nat): Scene {
    var queued := FirstQueued(a, b, clock, expiresAt);
    queued.(executions := map[0 := AwaitingHealth("A", a, "ra")],
            log := queued.log + [Validated(0, "A", "ra", clock, approvals)])
  }

  lemma BeginningMakesFirstBegun(a: Job, b: Job, clock: int, expiresAt: int, approvals: nat)
    requires AreTwoJobs(a, b)
    ensures WithExecution(FirstQueued(a, b, clock, expiresAt), "ra", 0, approvals) == FirstBegun(a, b, clock, expiresAt, approvals)
  {}

  lemma PlayFirstBegun(limits: RateLimits.Limits, a: Job, b: Job, clock: int, expiresAt: int) returns (run: Run, last: State)
    requires AreTwoJobs(a, b) && LetOneThrough(limits) && clock < expiresAt
    ensures Plays(Setting(limits), Proper(), run, last) && SceneOf(last) == FirstBegun(a, b, clock, expiresAt, |last.approvals|)
  {
    run, last := PlayFirstQueued(limits, a, b, clock, expiresAt);
    run, last := PlayBegin(Setting(limits), Proper(), run, last, "ra", 0);
    BeginningMakesFirstBegun(a, b, clock, expiresAt, |last.approvals|);
  }

  function FirstCalled(a: Job, b: Job, clock: int, expiresAt: int, approvals: nat, draft: ApplicationDraft): Scene {
    var begun := FirstBegun(a, b, clock, expiresAt, approvals);
    begun.(applications := begun.applications["A" := QueuedA(clock).(status := Applying)],
           executions := map[0 := AwaitingSubmit("A", clock)],
           log := begun.log + [SubmitCalled(0, "A", clock, a, draft)])
  }

  lemma BegunCanBeCalled(limits: RateLimits.Limits, a: Job, b: Job, clock: int, expiresAt: int, approvals: nat, state: State)
    requires AreTwoJobs(a, b) && LetOneThrough(limits) && SceneOf(state) == FirstBegun(a, b, clock, expiresAt, approvals)
    ensures CanCall(Setting(limits), state, 0)
  {
    assert state.store.canaries[0] == CanaryRun("p", true, state.clock);
    SendableAlone(limits, state, "A", a, 0);
  }

  lemma CallMakesFirstCalled(a: Job, b: Job, clock: int, expiresAt: int, approvals: nat, draft: ApplicationDraft)
    ensures WithCall(FirstBegun(a, b, clock, expiresAt, approvals), 0, draft) == FirstCalled(a, b, clock, expiresAt, approvals, draft)
  {}

  lemma PlayFirstCalled(limits: RateLimits.Limits, a: Job, b: Job, clock: int, expiresAt: int)
    returns (run: Run, last: State, draft: ApplicationDraft)
    requires AreTwoJobs(a, b) && LetOneThrough(limits) && clock < expiresAt
    ensures Plays(Setting(limits), Proper(), run, last) && SceneOf(last) == FirstCalled(a, b, clock, expiresAt, |last.approvals|, draft)
  {
    var begun: State;
    run, begun := PlayFirstBegun(limits, a, b, clock, expiresAt);
    BegunCanBeCalled(limits, a, b, clock, expiresAt, |begun.approvals|, begun);
    run, last, draft := PlayCall(Setting(limits), Proper(), run, begun, 0);
    CallMakesFirstCalled(a, b, clock, expiresAt, |last.approvals|, draft);
  }

  // What a scene shows

  predicate OnlyTwo(scene: Scene, first: Application, second: Application) {
    && "A" in scene.applications && scene.applications["A"] == first && "B" in scene.applications && scene.applications["B"] == second
    && scene.applications.Keys == {"A", "B"}
  }

  /** Everything the worker reads of a job is there, and a canary of the last day. */
  predicate ShowsNew(scene: Scene, job: Job) {
    && job.id in scene.jobs && scene.jobs[job.id] == job
    && job.id in scene.scores && scene.scores[job.id] && job.id in scene.decisions && scene.decisions[job.id] == New
    && scene.mode == FullAutoApply && HasFreshPassedCanary(scene.canaries, "p", scene.clock)
  }

  ghost predicate JustCalled(scene: Scene, a: Job, b: Job, clock: int, expiresAt: int) {
    && scene.clock == clock && scene.canaries == [CanaryRun("p", true, clock)] && ShowsNew(scene, a) && ShowsNew(scene, b)
    && scene.jobs.Keys == {"a", "b"} && scene.proofs == map["a" := DryRun("a"), "b" := DryRun("b")]
    && OnlyTwo(scene, QueuedA(clock).(status := Applying), Prepared("B", "b", clock))
    && "ra" in scene.requests && scene.requests["ra"] == ApprovedAt(PendingFor("A", "a", expiresAt, clock), clock)
    && "rb" in scene.requests && scene.requests["rb"] == PendingFor("B", "b", expiresAt, clock)
    && scene.executions == map[0 := AwaitingSubmit("A", clock)] && scene.enqueues == map[0 := PendingEnqueue("A", false)]
    && |scene.log| == 5 && scene.log[4].SubmitCalled? && scene.log[4].job == a && scene.log[4].applicationId == "A"
  }

  lemma FirstCalledShows(a: Job, b: Job, clock: int, expiresAt: int, approvals: nat, draft: ApplicationDraft)
    requires AreTwoJobs(a, b)
    ensures JustCalled(FirstCalled(a, b, clock, expiresAt, approvals, draft), a, b, clock, expiresAt)
  {
    assert [CanaryRun("p", true, clock)][0] == CanaryRun("p", true, clock);
  }

  lemma PlayJustCalled(limits: RateLimits.Limits, a: Job, b: Job, clock: int, expiresAt: int) returns (run: Run, last: State)
    requires AreTwoJobs(a, b) && LetOneThrough(limits) && clock < expiresAt
    ensures Plays(Setting(limits), Proper(), run, last) && JustCalled(SceneOf(last), a, b, clock, expiresAt)
  {
    var draft: ApplicationDraft;
    run, last, draft := PlayFirstCalled(limits, a, b, clock, expiresAt);
    FirstCalledShows(a, b, clock, expiresAt, |last.approvals|, draft);
  }
}
