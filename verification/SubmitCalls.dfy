/**
 What every provider call of a run is made with: the proof, canary, scores and decisions
 stored at that moment, field by field. And what a rejection is worth: the submits of a
 request that was rejected in time never get as far as a validation.
 */
module SubmitCalls {
  import opened Common
  import opened Drafts
  import opened Records
  import opened SubmitDedup
  import opened SubmitPolicy
  import opened SubmitWorker
  import opened SubmitProtocol
  import opened SubmitProvenance
  import Approvals

  // Every logged call was made by some step

  lemma {:induction false} LoggedCallWasMade(cfg: Config, states: seq<State>, steps: seq<Step>, n: nat, j: nat) returns (m: nat)
    requires IsRun(cfg, states, steps) && n <= |steps|
    requires j < |states[n].log| && states[n].log[j].SubmitCalled?
    ensures m < n && |states[m].log| == j && LogsCall(states[m], states[m + 1])
    ensures states[m + 1].log[j] == states[n].log[j]
  {
    var before, after := states[n - 1], states[n];
    RunConforms(cfg, states, steps, n - 1);
    LogOnlyGrows(cfg, before, after, steps[n - 1]);
    if j < |before.log| {
      assert before.log[j] == after.log[j];
      m := LoggedCallWasMade(cfg, states, steps, n - 1, j);
    } else {
      m := n - 1;
      assert Classified(before, after, steps[m], after.log[j].applicationId);
      NewCallIsSubmitted(before, after, steps[m], j);
    }
  }

  // Where executions are left

  lemma BeginLeaves(cfg: Config, state: State, execution: nat, applicationId: string, requestId: Option<string>, draftHash: Option<Digest>)
    ensures var result := Begin(cfg, state.store, applicationId, requestId, draftHash, state.clock).1;
            BeginStep(cfg, state, execution, applicationId, requestId, draftHash).executions
            == state.executions[execution := if result.AwaitHealth? then AwaitingHealth(applicationId, result.job, requestId.GetOr("")) else Ended]
  {}

  lemma HealthLeaves(cfg: Config, state: State, execution: nat, health: ProviderStatus)
    requires execution in state.executions && state.executions[execution].AwaitingHealth?
    requires state.executions[execution].applicationId in state.store.applications
    ensures var suspended := state.executions[execution];
            var result := Decide(cfg, state.store, suspended.applicationId, suspended.job, health, state.clock).1;
            HealthReturnsStep(cfg, state, execution, health).executions
            == state.executions[execution := if result.CallProvider? then AwaitingSubmit(suspended.applicationId, result.submittedAt) else Ended]
  {}

  lemma ThrowOrAnswerLeaves(cfg: Config, state: State, step: Step)
    requires Enabled(state, step) && WellFormed(state) && (step.HealthThrows? || step.SubmitReturns? || step.SubmitThrows?)
    ensures Apply(cfg, state, step).executions == state.executions[step.execution := Ended]
  {}

  predicate IsLeft(before: map<nat, Execution>, after: map<nat, Execution>, execution: nat) {
    execution in after && after - {execution} == before - {execution}
  }

  lemma UpdatedIsLeft(before: map<nat, Execution>, execution: nat, moved: Execution)
    ensures IsLeft(before, before[execution := moved], execution)
  {}

  /** A worker step leaves its own execution suspended at the next await, if it came that far, or ended; no other execution moves. */
  lemma StepLeavesExecution(cfg: Config, state: State, step: Step)
    requires Enabled(state, step) && WellFormed(state) && MovesAnExecution(step)
    ensures var after := Apply(cfg, state, step).executions;
            && IsLeft(state.executions, after, step.execution)
            && match step
               case BeginSubmit(e, id, requestId, draftHash) =>
                 after[e].AwaitingHealth? == Begin(cfg, state.store, id, requestId, draftHash, state.clock).1.AwaitHealth? == !after[e].Ended?
               case HealthReturns(e, health) =>
                 var waiting := state.executions[e];
                 after[e].AwaitingSubmit? == Decide(cfg, state.store, waiting.applicationId, waiting.job, health, state.clock).1.CallProvider?
                 == !after[e].Ended?
               case _ => after[step.execution].Ended?
  {
    var e := step.execution;
    if step.BeginSubmit? {
      BeginLeaves(cfg, state, e, step.applicationId, step.requestId, step.draftHash);
    } else if step.HealthReturns? {
      HealthLeaves(cfg, state, e, step.health);
    } else {
      ThrowOrAnswerLeaves(cfg, state, step);
    }
    UpdatedIsLeft(state.executions, e, Apply(cfg, state, step).executions[e]);
  }

  lemma MovedIsNotEnded(state: State, step: Step, e: nat)
    requires Enabled(state, step) && MovesAnExecution(step) && e in state.executions && state.executions[e].Ended?
    ensures step.execution != e
  {}

  lemma OtherExecutionStays(before: map<nat, Execution>, after: map<nat, Execution>, moved: nat, e: nat)
    requires IsLeft(before, after, moved) && e != moved && e in before
    ensures e in after && after[e] == before[e]
  {
    assert e in before - {moved} && (before - {moved})[e] == before[e];
    assert (after - {moved})[e] == after[e];
  }

  lemma StepKeepsEnded(cfg: Config, state: State, step: Step, e: nat)
    requires Enabled(state, step) && WellFormed(state) && e in state.executions && state.executions[e].Ended?
    ensures e in Apply(cfg, state, step).executions && Apply(cfg, state, step).executions[e].Ended?
  {
    if MovesAnExecution(step) {
      MovedIsNotEnded(state, step, e);
      StepLeavesExecution(cfg, state, step);
      OtherExecutionStays(state.executions, Apply(cfg, state, step).executions, step.execution, e);
    } else {
      StepIsFramed(cfg, state, step);
    }
  }

  /** An ended execution stays ended, however the run goes on. */
  lemma {:induction false} EndedStaysEnded(cfg: Config, states: seq<State>, steps: seq<Step>, i: nat, n: nat, e: nat)
    requires IsRun(cfg, states, steps) && i <= n <= |steps|
    requires e in states[i].executions && states[i].executions[e].Ended?
    ensures e in states[n].executions && states[n].executions[e].Ended?
  {
    if i < n {
      EndedStaysEnded(cfg, states, steps, i, n - 1, e);
      RunsAreWellFormed(cfg, states, steps, n - 1);
      StepKeepsEnded(cfg, states[n - 1], steps[n - 1], e);
    }
  }

  // What is logged

  /** A validation that lets the execution on is logged, and so are every call and every answer. */
  lemma WorkerStepIsLogged(cfg: Config, state: State, step: Step)
    requires Enabled(state, step) && WellFormed(state) && MovesAnExecution(step)
    ensures var after := Apply(cfg, state, step);
            && (step.BeginSubmit? && after.executions[step.execution].AwaitingHealth? ==> HasBegun(state, after, step, step.execution))
            && (step.HealthReturns? && after.executions[step.execution].AwaitingSubmit? ==>
                  IsSubmitted(state, after, step, state.executions[step.execution].applicationId))
            && (step.SubmitReturns? ==> IsAnswered(state, after, step, state.executions[step.execution].applicationId))
            && (after.executions[step.execution].Ended? && !step.SubmitReturns? ==> after.log == state.log)
  {
    StepLeavesExecution(cfg, state, step);
    if step.BeginSubmit? {
      BeginAdvances(cfg, state, step.execution, step.applicationId, step.requestId, step.draftHash, step.execution);
    } else if step.HealthReturns? {
      HealthAdvances(cfg, state, step.execution, step.health, step.execution);
    }
  }

  /** A created application is stored and logged unless its key is taken. */
  lemma CreationIsLogged(cfg: Config, state: State, application: Application)
    requires Enabled(state, CreateApplication(application))
    ensures var step := CreateApplication(application);
            if exists other :: other in state.store.applications && state.store.applications[other].idempotencyKey == application.idempotencyKey
            then Apply(cfg, state, step) == state
            else Appears(state, Apply(cfg, state, step), step, application.id)
  {}

  /** A handler that queues a submit logs it and leaves an enqueue call pending; one that does not logs nothing. */
  lemma HandlerIsLogged(state: State, result: HandlerResult, id: string, steps: seq<Approvals.Step>, ticket: nat, clearsDate: bool)
    requires ticket !in state.enqueues
    ensures var after := Handled(state, result, id, steps, ticket, clearsDate);
            && after.store == result.store && after.approvals == state.approvals + steps && after.executions == state.executions
            && if result.queuedAt.Some? then
                 && after.enqueues == state.enqueues[ticket := PendingEnqueue(id, clearsDate)]
                 && |after.log| == |state.log| + 1 && after.log[..|state.log|] == state.log
                 && after.log[|state.log|]
                    == Queued(id, id in state.store.applications && state.store.applications[id].status !in {ApplicationPrepared, ApplyQueued})
               else after.enqueues == state.enqueues && after.log == state.log
  {}

  // Suppressed duplicates

  ghost predicate KeysAreOwn(applications: map<string, Application>) {
    forall left, right :: left in applications && right in applications && applications[left].idempotencyKey == applications[right].idempotencyKey ==>
      left == right
  }

  lemma CreationChecksKey(cfg: Config, before: State, step: Step, id: string)
    requires Enabled(before, step) && Appears(before, Apply(cfg, before, step), step, id)
    ensures forall other :: other in before.store.applications ==>
              before.store.applications[other].idempotencyKey != step.application.idempotencyKey
  {}

  lemma IsKeptOrAppears(before: State, after: State, step: Step, id: string)
    requires Classified(before, after, step, id) && id in after.store.applications
    ensures Appears(before, after, step, id)
            || (id in before.store.applications
                && after.store.applications[id].idempotencyKey == before.store.applications[id].idempotencyKey)
  {}

  /** Each stored application has the key it had, or a new one that no other had. */
  lemma StepKeepsKey(cfg: Config, state: State, step: Step, id: string)
    requires Enabled(state, step) && id in Apply(cfg, state, step).store.applications
    ensures var key := Apply(cfg, state, step).store.applications[id].idempotencyKey;
            || (id in state.store.applications && state.store.applications[id].idempotencyKey == key)
            || (step.CreateApplication? && id == step.application.id
                && forall other :: other in state.store.applications ==> state.store.applications[other].idempotencyKey != key)
  {
    StepIsClassified(cfg, state, step, id);
    IsKeptOrAppears(state, Apply(cfg, state, step), step, id);
    if Appears(state, Apply(cfg, state, step), step, id) {
      CreationChecksKey(cfg, state, step, id);
    }
  }

  lemma StepKeepsKeysOwn(cfg: Config, state: State, step: Step)
    requires Enabled(state, step) && KeysAreOwn(state.store.applications)
    ensures KeysAreOwn(Apply(cfg, state, step).store.applications)
  {
    var kept := Apply(cfg, state, step).store.applications;
    forall left, right | left in kept && right in kept && kept[left].idempotencyKey == kept[right].idempotencyKey
      ensures left == right
    {
      StepKeepsKey(cfg, state, step, left);
      StepKeepsKey(cfg, state, step, right);
    }
  }

  /** In every reachable state no two applications share an idempotency key: one vacancy is applied to under one record. */
  lemma {:induction false} OneApplicationPerKey(cfg: Config, states: seq<State>, steps: seq<Step>, n: nat)
    requires IsRun(cfg, states, steps) && n <= |steps|
    ensures forall left, right ::
              && left in states[n].store.applications && right in states[n].store.applications
              && states[n].store.applications[left].idempotencyKey == states[n].store.applications[right].idempotencyKey
              ==> left == right
  {
    if n > 0 {
      OneApplicationPerKey(cfg, states, steps, n - 1);
      StepKeepsKeysOwn(cfg, states[n - 1], steps[n - 1]);
    }
  }

  // Saved scores

  ghost predicate ScoresAreSaved(cfg: Config, store: Store) {
    forall id :: id in store.jobs ==> id in store.scores && store.scores[id] == cfg.shortlisted(store.jobs[id])
  }

  lemma StepSavesScores(cfg: Config, before: State, after: State, step: Step)
    requires Framed(cfg, before, after, step) && ScoresAreSaved(cfg, before.store)
    ensures ScoresAreSaved(cfg, after.store)
  {}

  lemma {:induction false} RunSavesScores(cfg: Config, states: seq<State>, steps: seq<Step>, n: nat)
    requires IsRun(cfg, states, steps) && n <= |steps|
    ensures ScoresAreSaved(cfg, states[n].store)
  {
    if n > 0 {
      RunSavesScores(cfg, states, steps, n - 1);
      StepIsFramed(cfg, states[n - 1], steps[n - 1]);
      StepSavesScores(cfg, states[n - 1], states[n], steps[n - 1]);
    }
  }

  /** What the store holds when a provider is called for a job. */
  predicate MayBeCalled(cfg: Config, state: State, id: string, job: Job) {
    && id in state.store.applications && job.id in state.store.jobs
    && var application := state.store.applications[id];
       && application.status in {ApplicationPrepared, ApplyQueued} && application.jobId == job.id && application.idempotencyKey != ""
       && HasReadyProof(state.store, application) && HasDaysCanary(state.store, application.providerId, state.clock)
       && state.store.mode in {ControlledAutoApply, FullAutoApply, ConversationOnly}
       && cfg.irreversibleActionsEnabled && cfg.autoApplyConsent
       && cfg.shortlisted(state.store.jobs[job.id]) && job.id in state.store.decisions && state.store.decisions[job.id] == New
  }

  lemma DecidedMayBeCalled(cfg: Config, before: State, after: State, step: Step, id: string)
    requires IsSubmitted(before, after, step, id) && WasDecided(cfg, before, after, step, id)
    requires WellFormed(before) && ScoresAreSaved(cfg, before.store)
    ensures MayBeCalled(cfg, before, id, before.executions[step.execution].job) && step.health == Stable
  {
    CallsProviderExactlyWhen(cfg, before.store, id, before.executions[step.execution].job, step.health, before.clock);
  }

  /**
   In every run, whenever a call is logged: its application is ready and linked to a stored proof of a
   dry run of just its job at just its provider, free of errors and complete; a canary of the provider
   passed within a day; and the stored job is shortlisted and no duplicate.
   */
  lemma CallsAreCovered(cfg: Config, states: seq<State>, steps: seq<Step>, n: nat, j: nat) returns (m: nat)
    requires IsRun(cfg, states, steps) && n <= |steps|
    requires j < |states[n].log| && states[n].log[j].SubmitCalled?
    ensures m < n && |states[m].log| == j && states[m].clock == states[n].log[j].at
    ensures MayBeCalled(cfg, states[m], states[n].log[j].applicationId, states[n].log[j].job)
  {
    m := LoggedCallWasMade(cfg, states, steps, n, j);
    var id := states[n].log[j].applicationId;
    RunConforms(cfg, states, steps, m);
    assert Classified(states[m], states[m + 1], steps[m], id);
    NewCallIsSubmitted(states[m], states[m + 1], steps[m], j);
    RunDecides(cfg, states, steps, m, id);
    RunSavesScores(cfg, states, steps, m);
    DecidedMayBeCalled(cfg, states[m], states[m + 1], steps[m], id);
  }

  // Rejected requests

  predicate HasStatus(state: State, id: string, status: Approvals.Status) {
    id in state.store.book.requests && state.store.book.requests[id].status == status
  }

  /** The step rejects a pending request before its expiry, presenting its hash; the bot presents the application's. */
  predicate RejectsInTime(state: State, step: Step, id: string) {
    && HasStatus(state, id, Approvals.Pending)
    && var request := state.store.book.requests[id];
       || (step.ApiResolve? && step.id == id && step.resolution.Reject? && MatchesHash(request, step.presented)
           && (if step.bodyNow.Some? then step.bodyNow.value else state.clock) < request.terms.expiresAt)
       || (step.TelegramResolve? && step.id == id && step.resolution.Reject? && IsAboutStored(state.store, request)
           && state.store.applications[request.terms.entityId].draftVariantKey !in {None, Some(Text(""))}
           && MatchesHash(request, state.store.applications[request.terms.entityId].draftVariantKey)
           && state.clock < request.terms.expiresAt)
  }

  lemma RejectionRejects(cfg: Config, state: State, step: Step, id: string)
    requires Enabled(state, step) && RejectsInTime(state, step, id)
    ensures HasStatus(Apply(cfg, state, step), id, Approvals.Rejected)
  {
    if step.ApiResolve? {
      ApiRejectsPending(cfg, state.store, id, step.presented, step.bodyNow, state.clock);
      assert Apply(cfg, state, step) == ApiResolveStep(cfg, state, id, step.resolution, step.presented, step.bodyNow, step.ticket);
    } else {
      BotRejectsPending(cfg, state.store, id, step.hasQueue, state.clock);
      assert Apply(cfg, state, step) == TelegramResolveStep(cfg, state, id, step.resolution, step.hasQueue, step.ticket);
    }
  }

  /** A stored request moves only along the edges of the approval book. */
  predicate MovesAt(states: seq<State>, k: nat, id: string)
    requires 0 < k < |states|
  {
    id in states[k - 1].store.book.requests ==>
      && id in states[k].store.book.requests
      && Approvals.Reaches(states[k - 1].store.book.requests[id].status, states[k].store.book.requests[id].status)
  }

  lemma RunMoves(cfg: Config, states: seq<State>, steps: seq<Step>, id: string)
    requires IsRun(cfg, states, steps)
    ensures forall k :: 0 < k < |states| ==> MovesAt(states, k, id)
  {
    forall k | 0 < k < |states|
      ensures MovesAt(states, k, id)
    {
      RunMovesAt(cfg, states, steps, k - 1, id);
    }
  }

  lemma RunMovesAt(cfg: Config, states: seq<State>, steps: seq<Step>, i: nat, id: string)
    requires IsRun(cfg, states, steps) && i < |steps|
    ensures MovesAt(states, i + 1, id)
  {
    ProtocolBookIsRun(cfg, states, steps, i);
    ProtocolBookIsRun(cfg, states, steps, i + 1);
    StepGrows(cfg, states, steps, i);
    BookMoves(states[i], states[i + 1], id);
  }

  lemma BookMoves(before: State, after: State, id: string)
    requires BookIsRun(before) && BookIsRun(after) && before.approvals <= after.approvals
    ensures id in before.store.book.requests ==>
              && id in after.store.book.requests
              && Approvals.Reaches(before.store.book.requests[id].status, after.store.book.requests[id].status)
  {
    if id in before.store.book.requests {
      assert after.approvals[..|before.approvals|] == before.approvals;
      Approvals.StatusesOnlyAdvance(after.approvals, |before.approvals|, id);
    }
  }

  lemma {:induction false} RejectedStays(states: seq<State>, i: nat, j: nat, id: string)
    requires forall k :: 0 < k < |states| ==> MovesAt(states, k, id)
    requires i <= j < |states| && HasStatus(states[i], id, Approvals.Rejected)
    ensures HasStatus(states[j], id, Approvals.Rejected)
  {
    if i < j {
      RejectedStays(states, i, j - 1, id);
      assert MovesAt(states, j, id);
    }
  }

  /** Was approved once: it is approved still, or has expired since. */
  predicate WasApproved(state: State, id: string) {
    HasStatus(state, id, Approvals.Approved) || HasStatus(state, id, Approvals.Expired)
  }

  predicate Validates(event: Event, id: string) {
    event.Validated? && event.requestId == id
  }

  ghost predicate ValidatedWereApproved(state: State, id: string) {
    forall v :: 0 <= v < |state.log| && Validates(state.log[v], id) ==> WasApproved(state, id)
  }

  /** A new validation is that of an execution that has just begun. */
  lemma NewValidation(cfg: Config, before: State, after: State, step: Step, id: string)
    requires Enabled(before, step) && after == Apply(cfg, before, step)
    requires |after.log| == |before.log| + 1 && Validates(after.log[|before.log|], id)
    ensures WasApproved(after, id)
  {
    if step.BeginSubmit? {
      assert after == BeginStep(cfg, before, step.execution, step.applicationId, step.requestId, step.draftHash);
      AwaitsHealthExactlyWhen(cfg, before.store, step.applicationId, step.requestId, step.draftHash, before.clock);
    }
  }

  lemma StepKeepsValidated(before: State, after: State, id: string)
    requires ValidatedWereApproved(before, id) && (WasApproved(before, id) ==> WasApproved(after, id))
    requires after.log == before.log || (|after.log| == |before.log| + 1 && after.log[..|before.log|] == before.log)
    requires |after.log| == |before.log| + 1 && Validates(after.log[|before.log|], id) ==> WasApproved(after, id)
    ensures ValidatedWereApproved(after, id)
  {
    forall v | 0 <= v < |after.log| && Validates(after.log[v], id)
      ensures WasApproved(after, id)
    {
      if v < |before.log| {
        assert after.log[v] == before.log[v];
      }
    }
  }

  lemma LogGrowsByOne(cfg: Config, before: State, after: State, step: Step)
    requires Conforms(cfg, before, after, step)
    ensures after.log == before.log || (|after.log| == |before.log| + 1 && after.log[..|before.log|] == before.log)
  {
    assert Classified(before, after, step, "");
  }

  lemma {:induction false} RunKeepsValidated(cfg: Config, states: seq<State>, steps: seq<Step>, n: nat, id: string)
    requires IsRun(cfg, states, steps) && n <= |steps|
    ensures ValidatedWereApproved(states[n], id)
  {
    if n > 0 {
      var before, after, step := states[n - 1], states[n], steps[n - 1];
      RunKeepsValidated(cfg, states, steps, n - 1, id);
      RunMovesAt(cfg, states, steps, n - 1, id);
      RunConforms(cfg, states, steps, n - 1);
      LogGrowsByOne(cfg, before, after, step);
      if |after.log| == |before.log| + 1 && Validates(after.log[|before.log|], id) {
        NewValidation(cfg, before, after, step, id);
      }
      StepKeepsValidated(before, after, id);
    }
  }

  lemma {:induction false} ValidationsStay(cfg: Config, states: seq<State>, steps: seq<Step>, n: nat, v: nat)
    requires IsRun(cfg, states, steps) && n <= |steps| && v < |states[n].log|
    ensures v < |states[|steps|].log| && states[|steps|].log[v] == states[n].log[v]
    decreases |steps| - n
  {
    if n < |steps| {
      RunConforms(cfg, states, steps, n);
      LogOnlyGrows(cfg, states[n], states[n + 1], steps[n]);
      ValidationsStay(cfg, states, steps, n + 1, v);
    }
  }

  /**
   If the API or the bot rejects a pending request in time anywhere in a run, the request stays
   rejected and no execution of the whole run validates it, before or after.
   */
  lemma RejectedIsNeverValidated(cfg: Config, states: seq<State>, steps: seq<Step>, i: nat, n: nat, id: string)
    requires IsRun(cfg, states, steps) && i < |steps| && n <= |steps| && RejectsInTime(states[i], steps[i], id)
    ensures i < n ==> HasStatus(states[n], id, Approvals.Rejected)
    ensures forall v :: 0 <= v < |states[n].log| ==> !Validates(states[n].log[v], id)
  {
    RejectionRejects(cfg, states[i], steps[i], id);
    RunMoves(cfg, states, steps, id);
    RejectedStays(states, i + 1, |steps|, id);
    if i < n {
      RejectedStays(states, i + 1, n, id);
    }
    RunKeepsValidated(cfg, states, steps, |steps|, id);
    forall v | 0 <= v < |states[n].log|
      ensures !Validates(states[n].log[v], id)
    {
      ValidationsStay(cfg, states, steps, n, v);
    }
  }

  /** So no provider call of the run rests on it: the validation behind the call names another request. */
  lemma NoCallRestsOnRejected(cfg: Config, states: seq<State>, steps: seq<Step>, i: nat, n: nat, id: string, j: nat) returns (v: int)
    requires IsRun(cfg, states, steps) && i < |steps| && n <= |steps| && RejectsInTime(states[i], steps[i], id)
    requires j < |states[n].log| && states[n].log[j].SubmitCalled?
    ensures 0 <= v < j && states[n].log[v].Validated? && states[n].log[v].execution == states[n].log[j].execution
    ensures states[n].log[v].applicationId == states[n].log[j].applicationId && states[n].log[v].requestId != id
  {
    OnlyApprovedDraftsAreSubmitted(cfg, states, steps, n, j);
    var call := states[n].log[j];
    v :| v < j && Vouched(states[n], v, call.execution, call.applicationId, HashOf(call.draft.content));
    RejectedIsNeverValidated(cfg, states, steps, i, n, id);
    assert !Validates(states[n].log[v], id);
  }

  // A failed enqueue

  lemma QueuedThroughApi(cfg: Config, state: State, step: Step)
    requires Enabled(state, step) && step.ApiResolve? && step.ticket in Apply(cfg, state, step).enqueues
    ensures var pending := Apply(cfg, state, step).enqueues[step.ticket];
            var applications := Apply(cfg, state, step).store.applications;
            !pending.clearsDate && pending.applicationId in applications && applications[pending.applicationId].submittedAt.Some?
  {
    ApiQueuesExactlyWhen(cfg, state.store, step.id, step.resolution, step.presented, step.bodyNow, state.clock);
    assert Apply(cfg, state, step) == ApiResolveStep(cfg, state, step.id, step.resolution, step.presented, step.bodyNow, step.ticket);
  }

  lemma QueuedThroughBot(cfg: Config, state: State, step: Step)
    requires Enabled(state, step) && (step.TelegramResolve? || step.TelegramApproveReview?)
    requires step.ticket in Apply(cfg, state, step).enqueues
    ensures var pending := Apply(cfg, state, step).enqueues[step.ticket];
            pending.clearsDate && pending.applicationId in Apply(cfg, state, step).store.applications
  {
    if step.TelegramResolve? {
      TelegramQueuesExactlyWhen(cfg, state.store, step.id, step.resolution, step.hasQueue, state.clock);
      assert Apply(cfg, state, step) == TelegramResolveStep(cfg, state, step.id, step.resolution, step.hasQueue, step.ticket);
    } else {
      ReviewQueuesExactlyWhen(cfg, state.store, step.applicationId, step.freshId, step.hasQueue, state.clock);
      assert Apply(cfg, state, step)
          == TelegramApproveReviewStep(cfg, state, step.applicationId, step.freshId, step.hasQueue, step.ticket);
    }
  }

  /**
   When the enqueue a handler waits for fails at once, its application goes to review: it keeps the
   date the API gave it, and loses the one the bot gave it. When it succeeds nothing changes.
   */
  lemma FailedEnqueueLeaves(cfg: Config, state: State, step: Step, failed: bool)
    requires Enabled(state, step) && IsHandler(step) && step.ticket in Apply(cfg, state, step).enqueues
    ensures var queued := Apply(cfg, state, step);
            var id := queued.enqueues[step.ticket].applicationId;
            && id in queued.store.applications
            && var application := queued.store.applications[id];
               Apply(cfg, queued, EnqueueSettles(step.ticket, failed))
               == if !failed then queued.(enqueues := queued.enqueues - {step.ticket})
                  else queued.(
                    enqueues := queued.enqueues - {step.ticket},
                    store := queued.store.(applications := queued.store.applications[id := application.(
                               status := ManualReviewRequired,
                               submittedAt := if step.ApiResolve? then application.submittedAt else None)]))
  {
    if step.ApiResolve? {
      QueuedThroughApi(cfg, state, step);
    } else {
      QueuedThroughBot(cfg, state, step);
    }
  }
}
