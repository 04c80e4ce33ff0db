/**
 The code that runs the submit protocol on the database: the worker's segments
 (apps/worker-apply/src/runner.ts) and the approving handlers (apps/api/src/server.ts,
 apps/telegram-bot/src/commands.ts), statement by statement, against the protocol's steps.
 */
module SubmitRuntime {
  import opened Common
  import opened Drafts
  import opened Records
  import opened SubmitPolicy
  import opened SubmitWorker
  import opened Database
  import Approvals
  import RateLimits
  import SubmitProtocol

  method CheckRateLimits(db: InMemoryDatabase, cfg: Config, application: Application, job: Job, now: int) returns (allowed: bool)
    ensures allowed == RateAllowed(cfg, db.View(), application, job, now)
  {
    RateLimits.AllowedWhenChecksPass(
      cfg.limits, cfg.text, db.applications, db.jobs, job, application.providerId, false, Some(application.id), now);
    allowed := RateLimits.SevenChecksPass(
      cfg.limits, cfg.text, db.applications, db.jobs, job, application.providerId, false, Some(application.id), now);
  }

  // The pipeline's last segment for a shortlisted, new job (apps/api/src/runtime.ts)

  function ApplicationKey(cfg: Config, providerId: string, job: Job): string {
    "apply:" + cfg.userId + ":" + providerId + ":" + job.externalId
  }

  function StatusAfterPolicy(policy: Decision): ApplicationStatus {
    match policy
    case Deny => ApplyBlockedByPolicy
    case RequiresUserApproval => ManualReviewRequired
    case Allow => ApplicationPrepared
  }

  /** The draft the provider prepared is hashed under the application's own idempotency key. */
  function NewApplication(
    cfg: Config, job: Job, providerId: string, resumeId: string, draft: DraftContent, policy: Decision, proofId: string,
    freshId: string, now: int): Application
  {
    var key := ApplicationKey(cfg, providerId, job);
    Application(
      freshId, job.id, providerId, job.externalId, Some(cfg.profileId), Some(resumeId), Some(draft.coverLetterId), StatusAfterPolicy(policy),
      key, Some(HashOf(draft.(idempotencyKey := key))), Some(proofId), None, now)
  }

  method PrepareApplication(
    db: InMemoryDatabase, cfg: Config, job: Job, providerId: string, resumeId: string, draft: DraftContent, policy: Decision,
    proofId: string, freshId: string, now: int) returns (stored: Application)
    requires freshId !in db.applications
    modifies db
    ensures var created := NewApplication(cfg, job, providerId, resumeId, draft, policy, proofId, freshId, now);
            && stored.idempotencyKey == ApplicationKey(cfg, providerId, job)
            && forall state: SubmitProtocol.State :: state.store == old(db.View()) ==>
                 db.View() == SubmitProtocol.CreateApplicationStep(state, created).store
  {
    stored := db.CreateApplication(NewApplication(cfg, job, providerId, resumeId, draft, policy, proofId, freshId, now));
  }

  /** The protocol allows every application the pipeline creates for a stored job. */
  lemma PreparedApplicationIsEnabled(
    cfg: Config, state: SubmitProtocol.State, job: Job, providerId: string, resumeId: string, draft: DraftContent, policy: Decision,
    proofId: string, freshId: string)
    requires freshId !in state.store.applications && job.id in state.store.jobs
    ensures SubmitProtocol.Enabled(
              state, SubmitProtocol.CreateApplication(
                NewApplication(cfg, job, providerId, resumeId, draft, policy, proofId, freshId, state.clock)))
  {}

  /**
   What the worker may later submit is the draft the provider prepared, or nothing: the worker
   rebuilds it from the record and the stored job, and the two must agree in every field.
   */
  lemma PreparedDraftIsSubmittedOrNothing(
    cfg: Config, job: Job, providerId: string, resumeId: string, draft: DraftContent, policy: Decision, proofId: string,
    freshId: string, now: int, stored: Job)
    ensures var built := BuildApprovedDraft(
              cfg, NewApplication(cfg, job, providerId, resumeId, draft, policy, proofId, freshId, now), stored);
            var letter := cfg.generateLetter(stored, resumeId);
            && (built.Some? <==>
                  && resumeId != "" && letter.passed
                  && draft.jobId == job.id && draft.providerId == providerId && draft.externalJobId == job.externalId
                  && draft.candidateProfileId == cfg.profileId && draft.resumeId == resumeId && draft.coverLetterText == letter.text)
            && (built.Some? ==> built.value.content == draft.(idempotencyKey := ApplicationKey(cfg, providerId, job)))
  {}

  // processApprovedSubmit, cut at its two awaits

  method BeginApprovedSubmit(
    db: InMemoryDatabase, cfg: Config, applicationId: string, requestId: Option<string>, draftHash: Option<Digest>, now: int)
    returns (result: BeginResult)
    modifies db
    ensures (db.View(), result) == Begin(cfg, old(db.View()), applicationId, requestId, draftHash, now)
  {
    if applicationId !in db.applications {
      return Threw("application_missing");
    }
    var application := db.applications[applicationId];
    if application.jobId !in db.jobs {
      var found := db.SetApplicationStatus(applicationId, ApplyFailed, None);
      return Threw("job_missing");
    }
    var job := db.jobs[application.jobId];
    if application.providerId !in cfg.providers {
      var found := db.SetApplicationStatus(applicationId, ApplyFailed, None);
      return Threw("provider_missing");
    }
    if !PayloadValid(db.View(), application, requestId, draftHash, now) {
      var found := db.SetApplicationStatus(applicationId, ManualReviewRequired, None);
      return BeginBlocked;
    }
    result := AwaitHealth(job);
  }

  /** The policy engine and the guard sequence, on what the database holds after the health check. */
  method EvaluateGuard(db: InMemoryDatabase, cfg: Config, application: Application, job: Job, health: ProviderStatus, now: int)
    returns (policy: Decision, passed: bool)
    ensures policy == SubmitPolicyOf(cfg, db.View(), application, job, health, now)
    ensures passed == GuardPasses(cfg, db.View(), application, job, health, now)
  {
    var rateAllowed := CheckRateLimits(db, cfg, application, job, now);
    var proof := ProofOf(db.View(), application);
    var proofReady := SubmitProofReady(application, proof);
    policy := Deny;
    if job.id in db.jobScores && job.id in db.dedupDecisions {
      policy := CheckPolicy(PolicyInput(
        db.systemMode, health, cfg.autoApplyConsent, db.jobScores[job.id], db.dedupDecisions[job.id], application.idempotencyKey, proofReady,
        application.status == ApplicationPrepared || application.status == ApplyQueued, cfg.irreversibleActionsEnabled, rateAllowed));
    }
    passed := GuardSequencePasses(
      policy, proofReady, SubmitDryRunState(application, proof), proofReady, application.idempotencyKey,
      HasFreshPassedCanary(db.canaryRuns, application.providerId, now), health, rateAllowed);
  }

  method DecideApprovedSubmit(db: InMemoryDatabase, cfg: Config, applicationId: string, job: Job, health: ProviderStatus, now: int)
    returns (result: DecideResult)
    requires applicationId in db.applications
    modifies db
    ensures (db.View(), result) == Decide(cfg, old(db.View()), applicationId, job, health, now)
  {
    var application := db.applications[applicationId];
    var policy, passed := EvaluateGuard(db, cfg, application, job, health, now);
    if !passed {
      var found := db.SetApplicationStatus(applicationId, if policy == Deny then ApplyBlockedByPolicy else ManualReviewRequired, None);
      return DecideBlocked;
    }
    var draft := BuildApprovedDraft(cfg, application, job);
    if draft.None? {
      var found := db.SetApplicationStatus(applicationId, ManualReviewRequired, None);
      return DecideBlocked;
    }
    var submittedAt := application.submittedAt.GetOr(now);
    var found := db.SetApplicationStatus(applicationId, Applying, Some(Some(submittedAt)));
    result := CallProvider(draft.value, submittedAt);
  }

  method FinishApprovedSubmit(
    db: InMemoryDatabase, applicationId: string, submittedAt: int, status: SubmitStatus, proofId: string, proof: ProofPack)
    requires applicationId in db.applications
    modifies db
    ensures db.View() == Finish(old(db.View()), applicationId, submittedAt, status, proofId, proof)
  {
    db.RecordProofPack(proofId, proof, Some(applicationId));
    if status == Submitted {
      var found := db.SetApplicationStatus(applicationId, Applied, Some(Some(submittedAt)));
    } else {
      var found := db.SetApplicationStatus(applicationId, if status == SubmitBlocked then ApplyBlockedByProvider else ApplyFailed, None);
    }
  }

  // The approving handlers, up to their enqueue call

  method CheckHandlerLimits(db: InMemoryDatabase, cfg: Config, application: Application, now: int) returns (allowed: bool)
    ensures allowed == HandlerRateAllowed(cfg, db.View(), application, now)
  {
    if application.jobId !in db.jobs {
      return true;
    }
    allowed := CheckRateLimits(db, cfg, application, db.jobs[application.jobId], now);
  }

  /** The date is that of the queued submit, if there is one. */
  method ResolveRequest(
    db: InMemoryDatabase, cfg: Config, id: string, resolution: Approvals.Resolution, presented: Option<Digest>,
    bodyNow: Option<int>, clock: int) returns (queuedAt: Option<int>)
    modifies db
    ensures HandlerResult(db.View(), queuedAt, false) == ResolveViaApi(cfg, old(db.View()), id, resolution, presented, bodyNow, clock)
  {
    var now := bodyNow.GetOr(clock);
    if id !in db.approvalRequests {
      return None;
    }
    var pending := db.approvalRequests[id];
    var concerns := ConcernsApplication(db.View(), pending);
    if resolution.Approve? && concerns {
      var application := db.applications[pending.terms.entityId];
      var rateAllowed := CheckHandlerLimits(db, cfg, application, clock);
      if !Present(application.draftVariantKey) || presented != application.draftVariantKey {
        return None;
      }
      if ApprovalPolicy(true, cfg.irreversibleActionsEnabled, rateAllowed) != Allow {
        return None;
      }
    }
    var resolved := db.ResolveApprovalRequest(id, resolution, presented, now);
    if !resolved || !concerns || resolution.Reject? {
      return None;
    }
    var draftHash := db.applications[pending.terms.entityId].draftVariantKey.value;
    if GateAllows(db.approvalRequests[id], draftHash, Allow, clock, cfg.irreversibleActionsEnabled) {
      var found := db.SetApplicationStatus(pending.terms.entityId, ApplyQueued, Some(Some(now)));
      return Some(now);
    }
    queuedAt := None;
  }

  method ResolveReviewCommand(
    db: InMemoryDatabase, cfg: Config, id: string, resolution: Approvals.Resolution, hasQueue: bool, clock: int)
    returns (queuedAt: Option<int>, threw: bool)
    modifies db
    ensures HandlerResult(db.View(), queuedAt, threw) == ResolveViaTelegram(cfg, old(db.View()), id, resolution, hasQueue, clock)
  {
    if id !in db.approvalRequests || !ConcernsApplication(db.View(), db.approvalRequests[id]) {
      return None, false;
    }
    var request := db.approvalRequests[id];
    var application := db.applications[request.terms.entityId];
    var currentDraftHash := application.draftVariantKey;
    if !Present(currentDraftHash) {
      return None, false;
    }
    if resolution.Approve? {
      var rateAllowed := CheckHandlerLimits(db, cfg, application, clock);
      var policy := ApprovalPolicy(true, cfg.irreversibleActionsEnabled, rateAllowed);
      if policy != Allow {
        return None, false;
      }
      if !GateAllows(request.(status := Approvals.Approved), currentDraftHash.value, policy, clock, cfg.irreversibleActionsEnabled) {
        return None, false;
      }
    }
    var resolved := db.ResolveApprovalRequest(id, resolution, currentDraftHash, clock);
    if !resolved {
      return None, false;
    }
    if db.approvalRequests[id].status == Approvals.Approved {
      if resolution.Reject? {
        // `pendingSubmitPlan` is null: reading the plan throws.
        return None, true;
      }
      if hasQueue {
        var found := db.SetApplicationStatus(request.terms.entityId, ApplyQueued, Some(Some(clock)));
        return Some(clock), false;
      }
    }
    return None, false;
  }

  method ApproveApplicationManualReview(
    db: InMemoryDatabase, cfg: Config, applicationId: string, freshId: string, hasQueue: bool, clock: int) returns (queuedAt: Option<int>)
    requires Approvals.OnePendingPerSlot(db.Book())
    modifies db
    ensures HandlerResult(db.View(), queuedAt, false) == ApproveReviewViaTelegram(cfg, old(db.View()), applicationId, freshId, hasQueue, clock)
  {
    if applicationId !in db.applications {
      return None;
    }
    var application := db.applications[applicationId];
    var currentDraftHash := application.draftVariantKey;
    if !Present(currentDraftHash) {
      return None;
    }
    var rateAllowed := CheckHandlerLimits(db, cfg, application, clock);
    if ApprovalPolicy(true, cfg.irreversibleActionsEnabled, rateAllowed) != Allow || !hasQueue {
      return None;
    }
    var id := db.CreateApprovalRequest(ReviewTerms(cfg, application, clock), freshId, clock);
    var resolved := db.ResolveApprovalRequest(id, Approvals.Approve, currentDraftHash, clock);
    if !resolved || db.approvalRequests[id].status != Approvals.Approved {
      return None;
    }
    if !GateAllows(db.approvalRequests[id], currentDraftHash.value, Allow, clock, cfg.irreversibleActionsEnabled) {
      return None;
    }
    var found := db.SetApplicationStatus(applicationId, ApplyQueued, Some(Some(clock)));
    queuedAt := Some(clock);
  }

  /** What both bot handlers and the API do when the enqueue call they wait for fails. */
  method EnqueueFailed(db: InMemoryDatabase, applicationId: string, clearsDate: bool)
    requires applicationId in db.applications
    modifies db
    ensures db.View() == if clearsDate then SetStatusAt(old(db.View()), applicationId, ManualReviewRequired, None)
                         else SetStatus(old(db.View()), applicationId, ManualReviewRequired)
  {
    var found := db.SetApplicationStatus(applicationId, ManualReviewRequired, if clearsDate then Some(None) else None);
  }
}
