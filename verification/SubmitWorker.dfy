/**
 The approved-submit worker (apps/worker-apply/src/runner.ts), cut into the segments
 that run without interruption between its two awaits, and the two handlers that
 approve and enqueue a submit (apps/api/src/server.ts, apps/telegram-bot/src/commands.ts).
 */
module SubmitWorker {
  import opened Common
  import opened Drafts
  import opened Records
  import opened SubmitPolicy
  import Approvals
  import RateLimits

  datatype CoverLetter = CoverLetter(text: string, passed: bool)

  /**
   What is fixed for a run: configuration, profile, registered providers, and the
   deterministic engines (scoring, resume routing, cover letters) as functions.
   */
  datatype Config = Config(
    userId: string, profileId: string, autoApplyConsent: bool, limits: RateLimits.Limits,
    irreversibleActionsEnabled: bool, providers: set<string>, text: TextRules,
    shortlisted: Job -> bool, selectResume: Job -> Option<string>, generateLetter: (Job, string) -> CoverLetter)

  /** The part of `InMemoryDatabase` the protocol touches. */
  datatype Store = Store(
    jobs: map<string, Job>, scores: map<string, bool>, decisions: map<string, DedupStatus>,
    applications: map<string, Application>, book: Approvals.Book, proofs: map<string, ProofPack>,
    canaries: seq<CanaryRun>, mode: AppMode)

  // Database operations

  function SetStatus(store: Store, id: string, status: ApplicationStatus): Store
    requires id in store.applications
  {
    store.(applications := store.applications[id := store.applications[id].(status := status)])
  }

  function SetStatusAt(store: Store, id: string, status: ApplicationStatus, submittedAt: Option<int>): Store
    requires id in store.applications
  {
    store.(applications := store.applications[id := store.applications[id].(status := status, submittedAt := submittedAt)])
  }

  function ProofOf(store: Store, application: Application): Option<ProofPack> {
    if NonEmpty(application.proofPackId) && application.proofPackId.value in store.proofs
    then Some(store.proofs[application.proofPackId.value]) else None
  }

  /** `recordProofPack` for an application also links the application to the pack. */
  function RecordApplicationProof(store: Store, id: string, proofId: string, proof: ProofPack): Store
    requires id in store.applications
  {
    store.(proofs := store.proofs[proofId := proof],
           applications := store.applications[id := store.applications[id].(proofPackId := Some(proofId))])
  }

  ghost predicate RateAllowed(cfg: Config, store: Store, application: Application, job: Job, now: int) {
    RateLimits.ApplicationRateAllowed(
      cfg.limits, cfg.text, store.applications, store.jobs, job, application.providerId, false, Some(application.id), now)
  }

  /** The keys of every stored job but one. */
  function OtherKeys(cfg: Config, store: Store, id: string): set<DedupKey> {
    set other | other in store.jobs && other != id :: BuildDedupKey(cfg.text, store.jobs[other])
  }

  /** One ingested job: the dedup decision is taken against every other stored job. */
  function Ingest(cfg: Config, store: Store, job: Job): Store {
    store.(jobs := store.jobs[job.id := job],
           decisions := store.decisions[job.id := DecideDedup(BuildDedupKey(cfg.text, job), OtherKeys(cfg, store, job.id))],
           scores := store.scores[job.id := cfg.shortlisted(job)])
  }

  // validateApprovedSubmitPayload

  predicate PayloadValid(
    store: Store, application: Application, requestId: Option<string>, draftHash: Option<Digest>, now: int)
  {
    && Present(application.draftVariantKey)
    && NonEmpty(requestId) && Present(draftHash)
    && draftHash == application.draftVariantKey
    && requestId.value in store.book.requests
    && var request := store.book.requests[requestId.value];
       && request.terms.entityType == Approvals.ApplicationEntity
       && request.terms.entityId == application.id
       && request.terms.action == Approvals.SendApplication
       && request.status == Approvals.Approved
       && now < request.terms.expiresAt
       && request.terms.draftHash == application.draftVariantKey
  }

  // Segment 1: up to the health check

  datatype BeginResult = Threw(code: string) | BeginBlocked | AwaitHealth(job: Job)

  function Begin(
    cfg: Config, store: Store, applicationId: string, requestId: Option<string>, draftHash: Option<Digest>, now: int)
    : (Store, BeginResult)
  {
    if applicationId !in store.applications then (store, Threw("application_missing"))
    else
      var application := store.applications[applicationId];
      if application.jobId !in store.jobs then (SetStatus(store, applicationId, ApplyFailed), Threw("job_missing"))
      else if application.providerId !in cfg.providers then (SetStatus(store, applicationId, ApplyFailed), Threw("provider_missing"))
      else if !PayloadValid(store, application, requestId, draftHash, now) then
        (SetStatus(store, applicationId, ManualReviewRequired), BeginBlocked)
      else (store, AwaitHealth(store.jobs[application.jobId]))
  }

  // Segment 2: from the health result to the provider call

  /** What the provider receives; `draftId` is the hash the application was approved under. */
  datatype ApplicationDraft = ApplicationDraft(draftId: Digest, content: DraftContent, createdAt: int)

  /** buildApprovedApplicationDraft; `None` is any of its invalid results. */
  function BuildApprovedDraft(cfg: Config, application: Application, job: Job): Option<ApplicationDraft> {
    var resumeId := application.resumeId.GetOr(cfg.selectResume(job).GetOr(""));
    if resumeId == "" then None
    else
      var letter := cfg.generateLetter(job, resumeId);
      if !letter.passed then None
      else
        var content := DraftContent(
          application.jobId, application.providerId, application.externalJobId,
          application.candidateProfileId.GetOr(cfg.profileId), resumeId,
          application.coverLetterId.GetOr("cover_" + job.id + "_" + resumeId), letter.text, application.idempotencyKey);
        if Present(application.draftVariantKey) && application.draftVariantKey.value != HashOf(content) then None
        else Some(ApplicationDraft(application.draftVariantKey.GetOr(HashOf(content)), content, application.createdAt))
  }

  datatype DecideResult = DecideBlocked | CallProvider(draft: ApplicationDraft, submittedAt: int)

  ghost function SubmitPolicyOf(cfg: Config, store: Store, application: Application, job: Job, health: ProviderStatus, now: int): Decision {
    if job.id in store.scores && job.id in store.decisions then
      CheckPolicy(PolicyInput(
        store.mode, health, cfg.autoApplyConsent, store.scores[job.id], store.decisions[job.id], application.idempotencyKey,
        SubmitProofReady(application, ProofOf(store, application)),
        application.status == ApplicationPrepared || application.status == ApplyQueued,
        cfg.irreversibleActionsEnabled, RateAllowed(cfg, store, application, job, now)))
    else Deny
  }

  ghost predicate GuardPasses(cfg: Config, store: Store, application: Application, job: Job, health: ProviderStatus, now: int) {
    var proof := ProofOf(store, application);
    GuardSequencePasses(
      SubmitPolicyOf(cfg, store, application, job, health, now),
      SubmitProofReady(application, proof), SubmitDryRunState(application, proof), SubmitProofReady(application, proof),
      application.idempotencyKey, HasFreshPassedCanary(store.canaries, application.providerId, now), health,
      RateAllowed(cfg, store, application, job, now))
  }

  ghost function Decide(cfg: Config, store: Store, applicationId: string, job: Job, health: ProviderStatus, now: int)
    : (Store, DecideResult)
    requires applicationId in store.applications
  {
    var application := store.applications[applicationId];
    if !GuardPasses(cfg, store, application, job, health, now) then
      var denied := SubmitPolicyOf(cfg, store, application, job, health, now) == Deny;
      (SetStatus(store, applicationId, if denied then ApplyBlockedByPolicy else ManualReviewRequired), DecideBlocked)
    else
      var draft := BuildApprovedDraft(cfg, application, job);
      if draft.None? then (SetStatus(store, applicationId, ManualReviewRequired), DecideBlocked)
      else
        var submittedAt := application.submittedAt.GetOr(now);
        (SetStatusAt(store, applicationId, Applying, Some(submittedAt)), CallProvider(draft.value, submittedAt))
  }

  // Segment 3: from the provider's answer to the end

  datatype SubmitStatus = Submitted | SubmitBlocked | SubmitFailed

  function Finish(store: Store, applicationId: string, submittedAt: int, status: SubmitStatus, proofId: string, proof: ProofPack): Store
    requires applicationId in store.applications
  {
    var recorded := RecordApplicationProof(store, applicationId, proofId, proof);
    match status
    case Submitted => SetStatusAt(recorded, applicationId, Applied, Some(submittedAt))
    case SubmitBlocked => SetStatus(recorded, applicationId, ApplyBlockedByProvider)
    case SubmitFailed => SetStatus(recorded, applicationId, ApplyFailed)
  }

  // The approving handlers

  /** The application an approval request is about, if it asks to send one that is stored. */
  predicate ConcernsApplication(store: Store, request: Approvals.Request) {
    && request.terms.entityType == Approvals.ApplicationEntity
    && request.terms.action == Approvals.SendApplication
    && request.terms.entityId in store.applications
  }

  /** Both handlers skip the limits when the job is not stored. */
  ghost predicate HandlerRateAllowed(cfg: Config, store: Store, application: Application, now: int) {
    application.jobId in store.jobs ==> RateAllowed(cfg, store, application, store.jobs[application.jobId], now)
  }

  /** A handler's effect: the new store, whether it queued the submit (and at which date), and whether it threw. */
  datatype HandlerResult = HandlerResult(store: Store, queuedAt: Option<int>, threw: bool)

  /** POST /approval-requests/:id/resolve; `bodyNow` is the optional clock of the request body. */
  ghost function ResolveViaApi(
    cfg: Config, store: Store, id: string, resolution: Approvals.Resolution, presented: Option<Digest>,
    bodyNow: Option<int>, clock: int): HandlerResult
  {
    var now := bodyNow.GetOr(clock);
    if id !in store.book.requests then HandlerResult(store, None, false)
    else
      var pending := store.book.requests[id];
      var concerns := ConcernsApplication(store, pending);
      if concerns && resolution.Approve? && !ApprovalAccepted(cfg, store, pending, presented, clock) then HandlerResult(store, None, false)
      else
        var (book, resolved) := Approvals.Resolve(store.book, id, resolution, presented, now);
        var after := store.(book := book);
        if resolved && concerns && resolution.Approve?
           && GateAllows(book.requests[id], store.applications[pending.terms.entityId].draftVariantKey.value, Allow, clock,
                         cfg.irreversibleActionsEnabled)
        then HandlerResult(SetStatusAt(after, pending.terms.entityId, ApplyQueued, Some(now)), Some(now), false)
        else HandlerResult(after, None, false)
  }

  /** The 409 checks of the API handler before it resolves an approving call. */
  ghost predicate ApprovalAccepted(cfg: Config, store: Store, request: Approvals.Request, presented: Option<Digest>, clock: int)
    requires request.terms.entityId in store.applications
  {
    var application := store.applications[request.terms.entityId];
    && Present(application.draftVariantKey) && presented == application.draftVariantKey
    && ApprovalPolicy(true, cfg.irreversibleActionsEnabled, HandlerRateAllowed(cfg, store, application, clock)) == Allow
  }

  /** The bot's /approve and /reject on an approval request to send an application. */
  ghost function ResolveViaTelegram(
    cfg: Config, store: Store, id: string, resolution: Approvals.Resolution, hasQueue: bool, clock: int): HandlerResult
  {
    if id !in store.book.requests || !ConcernsApplication(store, store.book.requests[id]) then HandlerResult(store, None, false)
    else
      var request := store.book.requests[id];
      var application := store.applications[request.terms.entityId];
      if !Present(application.draftVariantKey) then HandlerResult(store, None, false)
      else if resolution.Approve?
              && !GateAllows(request.(status := Approvals.Approved), application.draftVariantKey.value,
                             ApprovalPolicy(true, cfg.irreversibleActionsEnabled, HandlerRateAllowed(cfg, store, application, clock)),
                             clock, cfg.irreversibleActionsEnabled)
      then HandlerResult(store, None, false)
      else
        var (book, resolved) := Approvals.Resolve(store.book, id, resolution, application.draftVariantKey, clock);
        var after := store.(book := book);
        // A rejection makes no submit plan, and an approved request is not rejected: the missing plan is read.
        if resolved && resolution.Reject? && book.requests[id].status == Approvals.Approved then HandlerResult(after, None, true)
        else if resolved && resolution.Approve? && book.requests[id].status == Approvals.Approved && hasQueue
        then HandlerResult(SetStatusAt(after, request.terms.entityId, ApplyQueued, Some(clock)), Some(clock), false)
        else HandlerResult(after, None, false)
  }

  function ReviewTerms(cfg: Config, application: Application, clock: int): Approvals.Terms {
    Approvals.Terms(cfg.userId, Approvals.ApplicationEntity, application.id, Approvals.SendApplication, clock + DAY_MS,
                    application.draftVariantKey)
  }

  /** The bot's /approve on a manual review of an application: it requests and approves in one go. */
  ghost function ApproveReviewViaTelegram(
    cfg: Config, store: Store, applicationId: string, freshId: string, hasQueue: bool, clock: int): HandlerResult
  {
    if applicationId !in store.applications then HandlerResult(store, None, false)
    else
      var application := store.applications[applicationId];
      if !Present(application.draftVariantKey) || !hasQueue
         || ApprovalPolicy(true, cfg.irreversibleActionsEnabled, HandlerRateAllowed(cfg, store, application, clock)) != Allow
      then HandlerResult(store, None, false)
      else
        var terms := ReviewTerms(cfg, application, clock);
        var created := Approvals.Create(store.book, freshId, terms, clock);
        var id := Approvals.CreatedId(store.book, freshId, terms);
        var (book, resolved) := Approvals.Resolve(created, id, Approvals.Approve, application.draftVariantKey, clock);
        var after := store.(book := book);
        if resolved && book.requests[id].status == Approvals.Approved
           && GateAllows(book.requests[id], application.draftVariantKey.value, Allow, clock, cfg.irreversibleActionsEnabled)
        then HandlerResult(SetStatusAt(after, applicationId, ApplyQueued, Some(clock)), Some(clock), false)
        else HandlerResult(after, None, false)
  }

  // What the first segment lets through

  /**
   An execution gets to its health check exactly for a stored application and job, a registered
   provider, and an approved, unexpired request to send this application under the hash that both
   the application and the payload carry; otherwise it leaves a stored application failed, or for review.
   */
  lemma AwaitsHealthExactlyWhen(
    cfg: Config, store: Store, applicationId: string, requestId: Option<string>, draftHash: Option<Digest>, now: int)
    ensures var (after, result) := Begin(cfg, store, applicationId, requestId, draftHash, now);
            && (result.AwaitHealth? <==>
                  && applicationId in store.applications
                  && var application := store.applications[applicationId];
                     && application.jobId in store.jobs && application.providerId in cfg.providers
                     && Present(draftHash) && draftHash == application.draftVariantKey
                     && requestId.Some? && requestId.value != "" && requestId.value in store.book.requests
                     && var request := store.book.requests[requestId.value];
                        && request.status == Approvals.Approved && now < request.terms.expiresAt
                        && request.terms.entityType == Approvals.ApplicationEntity && request.terms.entityId == application.id
                        && request.terms.action == Approvals.SendApplication && request.terms.draftHash == draftHash)
            && (result == Threw("application_missing") <==> applicationId !in store.applications)
            && (result == Threw("job_missing") <==>
                  applicationId in store.applications && store.applications[applicationId].jobId !in store.jobs)
            && (result == Threw("provider_missing") <==>
                  && applicationId in store.applications && store.applications[applicationId].jobId in store.jobs
                  && store.applications[applicationId].providerId !in cfg.providers)
            && (result.AwaitHealth? || applicationId !in store.applications ==> after == store)
            && (!result.AwaitHealth? && applicationId in store.applications ==>
                  after == SetStatus(store, applicationId, if result.Threw? then ApplyFailed else ManualReviewRequired))
  {}

  // The limits, counted on the records

  /** Another application that is queued, sent or being sent, dated after the cutoff. */
  predicate IsSentSince(store: Store, id: string, application: Application, cutoff: int) {
    && id in store.applications && id != application.id
    && var other := store.applications[id];
       && other.status in {ApplyQueued, Applying, Applied}
       && cutoff < if other.submittedAt.Some? then other.submittedAt.value else other.createdAt
  }

  predicate IsOfCompany(cfg: Config, store: Store, id: string, company: string)
    requires id in store.applications
  {
    var jobId := store.applications[id].jobId;
    company != "" && company == cfg.text.normalizeLimitKey(if jobId in store.jobs then store.jobs[jobId].companyName else None)
  }

  predicate IsForAlike(cfg: Config, store: Store, id: string, job: Job)
    requires id in store.applications
  {
    && store.applications[id].jobId in store.jobs
    && var other := store.jobs[store.applications[id].jobId];
       && SameTitleAndCompany(cfg.text, other, job)
       && cfg.text.normalizedText(other.seniority) == cfg.text.normalizedText(job.seniority)
  }

  function SentSince(store: Store, application: Application, cutoff: int): set<string> {
    set id | id in store.applications && IsSentSince(store, id, application, cutoff)
  }

  ghost function Counted(cfg: Config, store: Store, application: Application, group: RateLimits.Group, cutoff: int): set<string> {
    RateLimits.Recent(RateLimits.Stamps(cfg.text, store.jobs, store.applications, group, false, Some(application.id)), cutoff)
  }

  lemma CountedIsSent(cfg: Config, store: Store, application: Application, group: RateLimits.Group, cutoff: int, id: string)
    ensures id in Counted(cfg, store, application, group, cutoff) <==>
              id in SentSince(store, application, cutoff) && RateLimits.InGroup(cfg.text, store.jobs, store.applications[id], group)
  {
    RateLimits.StampsAre(cfg.text, store.jobs, store.applications, group, false, Some(application.id), id);
  }

  lemma EverythingCounted(cfg: Config, store: Store, application: Application, cutoff: int)
    ensures Counted(cfg, store, application, RateLimits.Everything, cutoff) == SentSince(store, application, cutoff)
  {
    forall id
      ensures id in Counted(cfg, store, application, RateLimits.Everything, cutoff) <==> id in SentSince(store, application, cutoff)
    {
      CountedIsSent(cfg, store, application, RateLimits.Everything, cutoff, id);
    }
  }

  lemma ProviderCounted(cfg: Config, store: Store, application: Application, cutoff: int)
    ensures Counted(cfg, store, application, RateLimits.OfProvider(application.providerId), cutoff)
         == (set id | id in SentSince(store, application, cutoff) && store.applications[id].providerId == application.providerId)
  {
    var group := RateLimits.OfProvider(application.providerId);
    forall id
      ensures id in Counted(cfg, store, application, group, cutoff) <==>
                id in SentSince(store, application, cutoff) && store.applications[id].providerId == application.providerId
    {
      CountedIsSent(cfg, store, application, group, cutoff, id);
    }
  }

  lemma CompanyCounted(cfg: Config, store: Store, application: Application, job: Job, cutoff: int)
    ensures Counted(cfg, store, application, RateLimits.OfCompany(RateLimits.CompanyOf(cfg.text, job)), cutoff)
         == (set id | id in SentSince(store, application, cutoff) && IsOfCompany(cfg, store, id, cfg.text.normalizeLimitKey(job.companyName)))
  {
    var group := RateLimits.OfCompany(RateLimits.CompanyOf(cfg.text, job));
    forall id
      ensures id in Counted(cfg, store, application, group, cutoff) <==>
                id in SentSince(store, application, cutoff) && IsOfCompany(cfg, store, id, cfg.text.normalizeLimitKey(job.companyName))
    {
      CountedIsSent(cfg, store, application, group, cutoff, id);
    }
  }

  lemma AlikeCounted(cfg: Config, store: Store, application: Application, job: Job, cutoff: int)
    ensures Counted(cfg, store, application, RateLimits.OfCloneGroup(RateLimits.RoleOf(cfg.text, job)), cutoff)
         == (set id | id in SentSince(store, application, cutoff) && IsForAlike(cfg, store, id, job))
  {
    var group := RateLimits.OfCloneGroup(RateLimits.RoleOf(cfg.text, job));
    forall id
      ensures id in Counted(cfg, store, application, group, cutoff) <==>
                id in SentSince(store, application, cutoff) && IsForAlike(cfg, store, id, job)
    {
      CountedIsSent(cfg, store, application, group, cutoff, id);
    }
  }

  /**
   A submit is within the limits exactly when the other applications sent within an hour or day, for its
   provider within an hour, for its company and for jobs alike within a day or week leave room for it.
   */
  lemma RateAllowedExactlyWhen(cfg: Config, store: Store, application: Application, job: Job, now: int)
    ensures var hour, day := SentSince(store, application, now - 60 * 60 * 1000), SentSince(store, application, now - 24 * 60 * 60 * 1000);
            var week := SentSince(store, application, now - 7 * 24 * 60 * 60 * 1000);
            var company := cfg.text.normalizeLimitKey(job.companyName);
            RateAllowed(cfg, store, application, job, now) <==>
              && |hour| < cfg.limits.applicationsPerHour && |day| < cfg.limits.applicationsPerDay
              && |set id | id in hour && store.applications[id].providerId == application.providerId| < cfg.limits.applicationsPerHour
              && |set id | id in day && IsOfCompany(cfg, store, id, company)| < cfg.limits.maxPerCompanyPerDay
              && |set id | id in week && IsOfCompany(cfg, store, id, company)| < cfg.limits.maxPerCompanyPerWeek
              && |set id | id in day && IsForAlike(cfg, store, id, job)| < cfg.limits.maxPerCompanyPerDay
              && |set id | id in week && IsForAlike(cfg, store, id, job)| < cfg.limits.maxPerCompanyPerWeek
  {
    EverythingCounted(cfg, store, application, now - HOUR_MS);
    EverythingCounted(cfg, store, application, now - DAY_MS);
    ProviderCounted(cfg, store, application, now - HOUR_MS);
    CompanyCounted(cfg, store, application, job, now - DAY_MS);
    CompanyCounted(cfg, store, application, job, now - WEEK_MS);
    AlikeCounted(cfg, store, application, job, now - DAY_MS);
    AlikeCounted(cfg, store, application, job, now - WEEK_MS);
    RateLimits.AllowedWhenChecksPass(
      cfg.limits, cfg.text, store.applications, store.jobs, job, application.providerId, false, Some(application.id), now);
  }

  // What a provider call implies about the store it was made from

  /** The application's linked pack is stored and proves a dry run of just this job at just this provider. */
  predicate HasReadyProof(store: Store, application: Application) {
    && application.proofPackId.Some? && application.proofPackId.value != "" && application.proofPackId.value in store.proofs
    && var proof := store.proofs[application.proofPackId.value];
       && proof.provider == application.providerId && proof.entityId == application.jobId
       && proof.finalStatus in {DryRunPassed, SubmitBoundaryReached, Succeeded}
       && (proof.errorCode.None? || proof.errorCode.value == "") && proof.completedAt.Some?
       && proof.preActionScreenshotKey.Some? && proof.preActionScreenshotKey.value != ""
       && proof.domSnapshotBeforeKey.Some? && proof.domSnapshotBeforeKey.value != ""
  }

  /** A canary of the provider passed, at most a day ago. */
  predicate HasDaysCanary(store: Store, providerId: string, now: int) {
    exists k | 0 <= k < |store.canaries| ::
      store.canaries[k].providerId == providerId && store.canaries[k].passed && now <= store.canaries[k].createdAt + 24 * 60 * 60 * 1000
  }

  /** What the policy engine denies outright; other modes and disabled actions only ask for a person. */
  ghost predicate IsDenied(cfg: Config, store: Store, application: Application, job: Job, health: ProviderStatus, now: int) {
    || store.mode in {Paused, ReadOnly, DryRunApply} || !cfg.autoApplyConsent || application.idempotencyKey == ""
    || application.status !in {ApplicationPrepared, ApplyQueued}
    || job.id !in store.scores || !store.scores[job.id] || job.id !in store.decisions || store.decisions[job.id] != New
    || health != Stable || !RateAllowed(cfg, store, application, job, now) || !HasReadyProof(store, application)
  }

  /**
   The provider is called in exactly this situation: the policy engine and the guard
   sequence together. Conversation-only mode is one of the modes that lets a submit through.
   */
  lemma CallsProviderExactlyWhen(
    cfg: Config, store: Store, applicationId: string, job: Job, health: ProviderStatus, now: int)
    requires applicationId in store.applications
    ensures Decide(cfg, store, applicationId, job, health, now).1.CallProvider?
       <==> var application := store.applications[applicationId];
            && store.mode in {ControlledAutoApply, FullAutoApply, ConversationOnly}
            && cfg.irreversibleActionsEnabled && cfg.autoApplyConsent
            && application.status in {ApplicationPrepared, ApplyQueued}
            && job.id in store.scores && store.scores[job.id]
            && job.id in store.decisions && store.decisions[job.id] == New
            && health == Stable && HasDaysCanary(store, application.providerId, now)
            && RateAllowed(cfg, store, application, job, now)
            && HasReadyProof(store, application)
            && application.idempotencyKey != ""
            && BuildApprovedDraft(cfg, application, job).Some?
  {
    var application := store.applications[applicationId];
    ReadyProofIsReady(store, application);
    CanaryIsFresh(store, application.providerId, now);
  }

  lemma ReadyProofIsReady(store: Store, application: Application)
    ensures SubmitProofReady(application, ProofOf(store, application)) <==> HasReadyProof(store, application)
    ensures SubmitDryRunState(application, ProofOf(store, application)) == BoundaryReached <==> HasReadyProof(store, application)
  {}

  lemma CanaryIsFresh(store: Store, providerId: string, now: int)
    ensures HasFreshPassedCanary(store.canaries, providerId, now) <==> HasDaysCanary(store, providerId, now)
  {
    if HasFreshPassedCanary(store.canaries, providerId, now) {
      var run :| run in store.canaries && run.providerId == providerId && run.passed && now - run.createdAt <= DAY_MS;
      var k :| 0 <= k < |store.canaries| && store.canaries[k] == run;
    }
  }

  /**
   Without a call the application is blocked by policy exactly when the engine denies outright, and goes
   to review otherwise; with one it is `applying`, dated by itself or by the clock. Nothing else changes.
   */
  lemma DecisionLeaves(cfg: Config, store: Store, applicationId: string, job: Job, health: ProviderStatus, now: int)
    requires applicationId in store.applications
    ensures var (after, result) := Decide(cfg, store, applicationId, job, health, now);
            var application := store.applications[applicationId];
            if result.CallProvider? then
              var date := if application.submittedAt.Some? then application.submittedAt.value else now;
              && result.submittedAt == date
              && after == store.(applications := store.applications[applicationId := application.(status := Applying, submittedAt := Some(date))])
            else
              after == store.(applications := store.applications[applicationId := application.(
                         status := if IsDenied(cfg, store, application, job, health, now) then ApplyBlockedByPolicy
                                   else ManualReviewRequired)])
  {
    ReadyProofIsReady(store, store.applications[applicationId]);
  }

  /**
   The worker rebuilds a draft exactly when it finds a resume, the letter for it passes, and the content
   is the one hashed, if any; what the record does not name comes from routing, profile and letter.
   */
  lemma DraftIsRebuiltExactlyWhen(cfg: Config, application: Application, job: Job)
    ensures var resumeId := if application.resumeId.Some? then application.resumeId.value
                            else if cfg.selectResume(job).Some? then cfg.selectResume(job).value else "";
            var content := DraftContent(
              application.jobId, application.providerId, application.externalJobId,
              if application.candidateProfileId.Some? then application.candidateProfileId.value else cfg.profileId, resumeId,
              if application.coverLetterId.Some? then application.coverLetterId.value else "cover_" + job.id + "_" + resumeId,
              cfg.generateLetter(job, resumeId).text, application.idempotencyKey);
            var hash := application.draftVariantKey;
            && (BuildApprovedDraft(cfg, application, job).Some? <==>
                  && resumeId != "" && cfg.generateLetter(job, resumeId).passed
                  && (hash in {None, Some(Text("")), Some(HashOf(content))}))
            && (BuildApprovedDraft(cfg, application, job).Some? ==>
                  && BuildApprovedDraft(cfg, application, job).value.content == content
                  && BuildApprovedDraft(cfg, application, job).value.createdAt == application.createdAt
                  && (hash.Some? ==> BuildApprovedDraft(cfg, application, job).value.draftId == hash.value))
  {}

  // What a queued submit implies about the store it was queued from

  /** The request is about a stored application, and asks to send it. */
  predicate IsAboutStored(store: Store, request: Approvals.Request) {
    && request.terms.entityId in store.applications
    && request.terms.entityType == Approvals.ApplicationEntity && request.terms.action == Approvals.SendApplication
  }

  /** The request asks to send this application under its own hash, which the handler finds present. */
  predicate AsksToSend(store: Store, request: Approvals.Request) {
    && IsAboutStored(store, request)
    && Present(store.applications[request.terms.entityId].draftVariantKey)
    && request.terms.draftHash == store.applications[request.terms.entityId].draftVariantKey
  }

  /**
   The API queues a submit exactly when an approving call presents the application's hash for a
   request that is not expired, on either clock, and not rejected: approving an approved request
   queues the application again. The date is the caller's.
   */
  lemma ApiQueuesExactlyWhen(
    cfg: Config, store: Store, id: string, resolution: Approvals.Resolution, presented: Option<Digest>, bodyNow: Option<int>, clock: int)
    ensures var result := ResolveViaApi(cfg, store, id, resolution, presented, bodyNow, clock);
            var now := bodyNow.GetOr(clock);
            && !result.threw
            && (result.queuedAt.Some? <==>
                  && id in store.book.requests && resolution.Approve? && AsksToSend(store, store.book.requests[id])
                  && var request := store.book.requests[id];
                     && presented == request.terms.draftHash
                     && (request.status == Approvals.Pending || request.status == Approvals.Approved)
                     && now < request.terms.expiresAt && clock < request.terms.expiresAt
                     && cfg.irreversibleActionsEnabled
                     && HandlerRateAllowed(cfg, store, store.applications[request.terms.entityId], clock))
            && (result.queuedAt.Some? ==>
                  && result.queuedAt == Some(now)
                  && result.store.applications
                     == SetStatusAt(store, store.book.requests[id].terms.entityId, ApplyQueued, Some(now)).applications)
  {}

  /** The bot knows the hash itself and has one clock; without a queue it approves but queues nothing. */
  lemma TelegramQueuesExactlyWhen(
    cfg: Config, store: Store, id: string, resolution: Approvals.Resolution, hasQueue: bool, clock: int)
    ensures var result := ResolveViaTelegram(cfg, store, id, resolution, hasQueue, clock);
            && (result.queuedAt.Some? <==>
                  && id in store.book.requests && resolution.Approve? && AsksToSend(store, store.book.requests[id])
                  && var request := store.book.requests[id];
                     && (request.status == Approvals.Pending || request.status == Approvals.Approved)
                     && clock < request.terms.expiresAt
                     && cfg.irreversibleActionsEnabled && hasQueue
                     && HandlerRateAllowed(cfg, store, store.applications[request.terms.entityId], clock))
            && (result.queuedAt.Some? ==>
                  && result.queuedAt == Some(clock)
                  && result.store.applications
                     == SetStatusAt(store, store.book.requests[id].terms.entityId, ApplyQueued, Some(clock)).applications)
  {}

  /**
   The bot's handler throws exactly when it is told to reject an approved request that still applies;
   the request stays approved and nothing is written.
   */
  lemma TelegramThrowsExactlyWhen(
    cfg: Config, store: Store, id: string, resolution: Approvals.Resolution, hasQueue: bool, clock: int)
    ensures var result := ResolveViaTelegram(cfg, store, id, resolution, hasQueue, clock);
            && (result.threw <==>
                  && resolution.Reject? && id in store.book.requests && IsAboutStored(store, store.book.requests[id])
                  && var request := store.book.requests[id];
                     var hash := store.applications[request.terms.entityId].draftVariantKey;
                     && request.status == Approvals.Approved && clock < request.terms.expiresAt
                     && Present(hash) && (Present(request.terms.draftHash) ==> request.terms.draftHash == hash))
            && (result.threw ==> result.store == store && result.queuedAt.None?)
  {}

  /** Approving a review queues the application unless a pending request for it, found instead of the new one, has run out. */
  lemma ReviewQueuesExactlyWhen(cfg: Config, store: Store, applicationId: string, freshId: string, hasQueue: bool, clock: int)
    requires freshId !in store.book.requests
    ensures var result := ApproveReviewViaTelegram(cfg, store, applicationId, freshId, hasQueue, clock);
            && !result.threw
            && (result.queuedAt.Some? <==>
                  && applicationId in store.applications && Present(store.applications[applicationId].draftVariantKey)
                  && cfg.irreversibleActionsEnabled && hasQueue
                  && HandlerRateAllowed(cfg, store, store.applications[applicationId], clock)
                  && var terms := ReviewTerms(cfg, store.applications[applicationId], clock);
                     Approvals.HasPending(store.book, terms) ==>
                       clock < store.book.requests[Approvals.CreatedId(store.book, freshId, terms)].terms.expiresAt)
            && (result.queuedAt.Some? ==>
                  && result.queuedAt == Some(clock)
                  && result.store.applications == SetStatusAt(store, applicationId, ApplyQueued, Some(clock)).applications)
  {}

  // What the handlers leave of a request

  /** The request asks for no hash, or for the one presented. */
  predicate MatchesHash(request: Approvals.Request, presented: Option<Digest>) {
    request.terms.draftHash in {None, Some(Text(""))} || request.terms.draftHash == presented
  }

  /** Only this request changed, to this status at this time, and one event says so. */
  predicate OnlyMoved(before: Store, after: Store, id: string, status: Approvals.Status, now: int)
    requires id in before.book.requests
  {
    after == before.(book := Approvals.Book(
      before.book.requests[id := before.book.requests[id].(status := status, resolvedAt := Some(now))],
      before.book.audit + [Approvals.Lifecycle(id, status)]))
  }

  /** Rejecting a pending request through the API, whatever it is about: rejected before its expiry, expired from then on. */
  lemma ApiRejectsPending(cfg: Config, store: Store, id: string, presented: Option<Digest>, bodyNow: Option<int>, clock: int)
    requires id in store.book.requests && store.book.requests[id].status == Approvals.Pending
    requires MatchesHash(store.book.requests[id], presented)
    ensures var now := if bodyNow.Some? then bodyNow.value else clock;
            var result := ResolveViaApi(cfg, store, id, Approvals.Reject, presented, bodyNow, clock);
            && OnlyMoved(store, result.store, id, if now < store.book.requests[id].terms.expiresAt then Approvals.Rejected else Approvals.Expired, now)
            && result.queuedAt.None? && !result.threw
  {}

  /** Any other rejection: an overdue approval expires, a wrong hash is noted, and nothing else happens. */
  lemma ApiRejectsOthers(cfg: Config, store: Store, id: string, presented: Option<Digest>, bodyNow: Option<int>, clock: int)
    requires id in store.book.requests ==>
               store.book.requests[id].status != Approvals.Pending || !MatchesHash(store.book.requests[id], presented)
    ensures var now := if bodyNow.Some? then bodyNow.value else clock;
            var result := ResolveViaApi(cfg, store, id, Approvals.Reject, presented, bodyNow, clock);
            && result.queuedAt.None? && !result.threw
            && if id !in store.book.requests then result.store == store
               else if !MatchesHash(store.book.requests[id], presented) then
                 result.store == store.(book := store.book.(audit := store.book.audit + [Approvals.HashMismatch(id)]))
               else if store.book.requests[id].status == Approvals.Approved && store.book.requests[id].terms.expiresAt <= now then
                 OnlyMoved(store, result.store, id, Approvals.Expired, now)
               else result.store == store
  {}

  /** The approving call meets every check before the request is resolved. */
  ghost predicate IsAccepted(cfg: Config, store: Store, request: Approvals.Request, presented: Option<Digest>, clock: int) {
    && IsAboutStored(store, request) && presented == store.applications[request.terms.entityId].draftVariantKey
    && presented.Some? && presented.value != Text("") && cfg.irreversibleActionsEnabled
    && HandlerRateAllowed(cfg, store, store.applications[request.terms.entityId], clock)
  }

  /** An accepted approval of a pending request approves it before its expiry, whether or not the submit is then queued. */
  lemma ApiApprovesPending(cfg: Config, store: Store, id: string, presented: Option<Digest>, bodyNow: Option<int>, clock: int)
    requires id in store.book.requests && store.book.requests[id].status == Approvals.Pending
    requires IsAccepted(cfg, store, store.book.requests[id], presented, clock) && store.book.requests[id].terms.draftHash == presented
    ensures var now := if bodyNow.Some? then bodyNow.value else clock;
            var request := store.book.requests[id];
            var result := ResolveViaApi(cfg, store, id, Approvals.Approve, presented, bodyNow, clock);
            && OnlyMoved(store, result.store.(applications := store.applications), id,
                         if now < request.terms.expiresAt then Approvals.Approved else Approvals.Expired, now)
            && (result.queuedAt.None? ==> result.store.applications == store.applications)
  {}

  /** An approval of an application's request that fails a check writes nothing. */
  lemma ApiRefusesApproval(cfg: Config, store: Store, id: string, presented: Option<Digest>, bodyNow: Option<int>, clock: int)
    requires id in store.book.requests && IsAboutStored(store, store.book.requests[id])
    requires !IsAccepted(cfg, store, store.book.requests[id], presented, clock)
    ensures ResolveViaApi(cfg, store, id, Approvals.Approve, presented, bodyNow, clock) == HandlerResult(store, None, false)
  {}

  /** The bot presents the application's own hash; it rejects, or lets expire, a pending request for it. */
  lemma BotRejectsPending(cfg: Config, store: Store, id: string, hasQueue: bool, clock: int)
    requires id in store.book.requests && IsAboutStored(store, store.book.requests[id])
    requires store.book.requests[id].status == Approvals.Pending
    requires var hash := store.applications[store.book.requests[id].terms.entityId].draftVariantKey;
             hash.Some? && hash.value != Text("") && MatchesHash(store.book.requests[id], hash)
    ensures var result := ResolveViaTelegram(cfg, store, id, Approvals.Reject, hasQueue, clock);
            && OnlyMoved(store, result.store, id, if clock < store.book.requests[id].terms.expiresAt then Approvals.Rejected else Approvals.Expired, clock)
            && result.queuedAt.None? && !result.threw
  {}

  /** Without a queue the bot approves a pending request and leaves its application alone. */
  lemma BotApprovesWithoutQueue(cfg: Config, store: Store, id: string, clock: int)
    requires id in store.book.requests && AsksToSend(store, store.book.requests[id])
    requires store.book.requests[id].status == Approvals.Pending && clock < store.book.requests[id].terms.expiresAt
    requires cfg.irreversibleActionsEnabled && HandlerRateAllowed(cfg, store, store.applications[store.book.requests[id].terms.entityId], clock)
    ensures OnlyMoved(store, ResolveViaTelegram(cfg, store, id, Approvals.Approve, false, clock).store, id, Approvals.Approved, clock)
    ensures ResolveViaTelegram(cfg, store, id, Approvals.Approve, false, clock).queuedAt.None?
  {}

  /** With one it approves the same and queues the submit. */
  lemma BotApprovesWithQueue(cfg: Config, store: Store, id: string, clock: int)
    requires id in store.book.requests && AsksToSend(store, store.book.requests[id])
    requires store.book.requests[id].status == Approvals.Pending && clock < store.book.requests[id].terms.expiresAt
    requires cfg.irreversibleActionsEnabled && HandlerRateAllowed(cfg, store, store.applications[store.book.requests[id].terms.entityId], clock)
    ensures var application := store.applications[store.book.requests[id].terms.entityId];
            var queued := store.(applications := store.applications[store.book.requests[id].terms.entityId :=
                                   application.(status := ApplyQueued, submittedAt := Some(clock))]);
            OnlyMoved(queued, ResolveViaTelegram(cfg, store, id, Approvals.Approve, true, clock).store, id, Approvals.Approved, clock)
  {}

  /** The bot's other approvals: a gate that is closed before the request is resolved leaves the store as it is. */
  lemma BotRefusesApproval(cfg: Config, store: Store, id: string, hasQueue: bool, clock: int)
    requires id in store.book.requests ==>
               var request := store.book.requests[id];
               || !AsksToSend(store, request) || request.terms.expiresAt <= clock || !cfg.irreversibleActionsEnabled
               || !HandlerRateAllowed(cfg, store, store.applications[request.terms.entityId], clock)
    ensures ResolveViaTelegram(cfg, store, id, Approvals.Approve, hasQueue, clock) == HandlerResult(store, None, false)
  {}

  /** Approving a review that queues and finds no pending request makes one that runs for a day, approved at once. */
  lemma ReviewLeavesApproval(cfg: Config, store: Store, applicationId: string, freshId: string, clock: int)
    requires applicationId in store.applications && freshId !in store.book.requests && cfg.irreversibleActionsEnabled
    requires var hash := store.applications[applicationId].draftVariantKey; hash.Some? && hash.value != Text("")
    requires HandlerRateAllowed(cfg, store, store.applications[applicationId], clock)
    requires forall r :: r in store.book.requests ==>
               store.book.requests[r].status != Approvals.Pending || store.book.requests[r].terms.entityId != store.applications[applicationId].id
    ensures var application := store.applications[applicationId];
            var terms := Approvals.Terms(
              cfg.userId, Approvals.ApplicationEntity, application.id, Approvals.SendApplication, clock + 24 * 60 * 60 * 1000,
              application.draftVariantKey);
            ApproveReviewViaTelegram(cfg, store, applicationId, freshId, true, clock)
            == HandlerResult(
                 store.(applications := store.applications[applicationId := application.(status := ApplyQueued, submittedAt := Some(clock))],
                        book := Approvals.Book(
                          store.book.requests[freshId := Approvals.Request(terms, Approvals.Approved, clock, Some(clock))],
                          store.book.audit + [Approvals.Lifecycle(freshId, Approvals.Pending), Approvals.Lifecycle(freshId, Approvals.Approved)])),
                 Some(clock), false)
  {
    assert !Approvals.HasPending(store.book, ReviewTerms(cfg, store.applications[applicationId], clock));
  }

  /** A review that is not approved, as limits, hash, queue or configuration forbid it, leaves the store as it is. */
  lemma ReviewIsRefused(cfg: Config, store: Store, applicationId: string, freshId: string, hasQueue: bool, clock: int)
    requires applicationId in store.applications ==>
               || store.applications[applicationId].draftVariantKey in {None, Some(Text(""))} || !hasQueue || !cfg.irreversibleActionsEnabled
               || !HandlerRateAllowed(cfg, store, store.applications[applicationId], clock)
    ensures ApproveReviewViaTelegram(cfg, store, applicationId, freshId, hasQueue, clock) == HandlerResult(store, None, false)
  {}

  // What the provider's answer leaves

  /** The pack is stored and linked; the status follows the answer, and only a submitted one is dated again. */
  lemma AnswerLeaves(store: Store, applicationId: string, submittedAt: int, status: SubmitStatus, proofId: string, proof: ProofPack)
    requires applicationId in store.applications
    ensures var after := Finish(store, applicationId, submittedAt, status, proofId, proof);
            var application := after.applications[applicationId];
            && after == store.(proofs := store.proofs[proofId := proof], applications := store.applications[applicationId := application])
            && application.proofPackId == Some(proofId)
            && (application.status == Applied <==> status == Submitted)
            && (application.status == ApplyBlockedByProvider <==> status == SubmitBlocked)
            && (application.status == ApplyFailed <==> status == SubmitFailed)
            && application.submittedAt == (if status == Submitted then Some(submittedAt) else store.applications[applicationId].submittedAt)
            && SameIdentity(store.applications[applicationId], application)
  {}

  /** The parts of a record no step changes. */
  predicate SameIdentity(before: Application, after: Application) {
    after == before.(status := after.status, submittedAt := after.submittedAt, proofPackId := after.proofPackId)
  }
}
