/**
 The checks a submit passes before the provider is called: the policy engine, the
 submit guard sequence, proof readiness and the review-first gate
 (packages/domain/src/services.ts and apps/worker-apply/src/runner.ts).
 */
module SubmitPolicy {
  import opened Common
  import opened Drafts
  import opened Records
  import Approvals

  datatype Decision = Allow | Deny | RequiresUserApproval

  // PolicyEngine.check for send_application

  datatype PolicyInput = PolicyInput(
    mode: AppMode, providerStatus: ProviderStatus, autoApplyConsent: bool, shortlisted: bool, dedup: DedupStatus,
    idempotencyKey: string, proofReady: bool, validationPassed: bool, irreversibleActionsEnabled: bool,
    rateLimitAvailable: bool)

  /** No check of the policy engine fails; every modelled check is a hard denial. */
  predicate NoHardDenial(input: PolicyInput) {
    && input.mode != Paused
    && input.idempotencyKey != ""
    && input.proofReady
    && input.validationPassed
    && input.providerStatus == Stable
    && input.rateLimitAvailable
    && input.autoApplyConsent
    && input.shortlisted
    && input.dedup == New
    && input.mode != ReadOnly && input.mode != DryRunApply
  }

  function CheckPolicy(input: PolicyInput): Decision {
    if !NoHardDenial(input) then Deny
    else if !input.irreversibleActionsEnabled || input.mode == ReviewFirst then RequiresUserApproval
    else Allow
  }

  // SubmitGuardSequence.evaluate; the worker leaves refetch and auth at their default, true

  datatype DryRunState = NotRun | DryRunFailed | BoundaryReached

  predicate GuardSequencePasses(
    policy: Decision, dryRunPassed: bool, dryRunState: DryRunState, proofReady: bool, idempotencyKey: string,
    recentCanaryPassed: bool, providerStatus: ProviderStatus, rateLimitAvailable: bool)
  {
    && rateLimitAvailable
    && policy == Allow
    && dryRunPassed && dryRunState == BoundaryReached
    && proofReady
    && idempotencyKey != ""
    && recentCanaryPassed
    && providerStatus == Stable
  }

  // evaluateSubmitProof

  predicate SuccessfulDryRun(status: FinalStatus) {
    !status.OtherFinalStatus?
  }

  predicate NonEmpty(value: Option<string>) {
    value.Some? && value.value != ""
  }

  predicate SubmitProofReady(application: Application, proof: Option<ProofPack>) {
    && proof.Some?
    && proof.value.provider == application.providerId
    && proof.value.entityId == application.jobId
    && SuccessfulDryRun(proof.value.finalStatus)
    && !NonEmpty(proof.value.errorCode)
    && proof.value.completedAt.Some?
    && NonEmpty(proof.value.preActionScreenshotKey)
    && NonEmpty(proof.value.domSnapshotBeforeKey)
  }

  function SubmitDryRunState(application: Application, proof: Option<ProofPack>): DryRunState {
    if proof.None? then NotRun else if SubmitProofReady(application, proof) then BoundaryReached else DryRunFailed
  }

  predicate HasFreshPassedCanary(canaries: seq<CanaryRun>, providerId: string, now: int) {
    exists run | run in canaries :: run.providerId == providerId && run.passed && now - run.createdAt <= DAY_MS
  }

  // ReviewFirstSubmitGate.evaluate

  predicate GateAllows(
    request: Approvals.Request, currentDraftHash: Digest, policy: Decision, now: int, liveSubmitEnabled: bool)
  {
    && liveSubmitEnabled
    && request.status == Approvals.Approved
    && request.terms.action == Approvals.SendApplication
    && now < request.terms.expiresAt
    && Present(request.terms.draftHash)
    && request.terms.draftHash == Some(currentDraftHash)
    && policy == Allow
  }

  /** buildApprovalSubmitPolicy and buildTelegramSubmitPolicy, for an approving caller. */
  function ApprovalPolicy(approved: bool, irreversibleActionsEnabled: bool, rateLimitAllowed: bool): Decision {
    if approved && irreversibleActionsEnabled && rateLimitAllowed then Allow
    else if approved && !irreversibleActionsEnabled && rateLimitAllowed then RequiresUserApproval
    else Deny
  }
}
