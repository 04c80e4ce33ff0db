/**
 Only what was approved is submitted: every draft handed to a provider has, field for
 field, the content hashed when its application was created, and a request for exactly
 that hash was approved and unexpired when the execution validated its payload.
 */
module SubmitProvenance {
  import opened Common
  import opened Drafts
  import opened Records
  import opened SubmitWorker
  import opened SubmitProtocol
  import Approvals

  // The approval book of the protocol is a run of the approval book

  ghost predicate BookIsRun(state: State) {
    Approvals.Admissible(state.approvals) && Approvals.After(state.approvals) == state.store.book
  }

  lemma AppendApproval(steps: seq<Approvals.Step>, step: Approvals.Step)
    requires Approvals.Admissible(steps) && Approvals.Enabled(Approvals.After(steps), step)
    ensures Approvals.Admissible(steps + [step])
    ensures Approvals.After(steps + [step]) == Approvals.Apply(Approvals.After(steps), step)
  {}

  ghost predicate BookFollows(before: State, after: State) {
    before.approvals <= after.approvals && (BookIsRun(before) ==> BookIsRun(after))
  }

  lemma OneApprovalFollows(before: State, after: State, step: Approvals.Step)
    requires Approvals.Enabled(before.store.book, step)
    requires after.approvals == before.approvals + [step] && after.store.book == Approvals.Apply(before.store.book, step)
    ensures BookFollows(before, after)
  {}

  lemma ApiResolveFollows(
    cfg: Config, state: State, id: string, resolution: Approvals.Resolution, presented: Option<Digest>, bodyNow: Option<int>, ticket: nat)
    ensures BookFollows(state, ApiResolveStep(cfg, state, id, resolution, presented, bodyNow, ticket))
  {
    var after := ApiResolveStep(cfg, state, id, resolution, presented, bodyNow, ticket);
    if after.store.book != state.store.book {
      OneApprovalFollows(state, after, Approvals.ResolveStep(id, resolution, presented, bodyNow.GetOr(state.clock)));
    } else {
      assert after.approvals == state.approvals;
    }
  }

  lemma TelegramResolveFollows(
    cfg: Config, state: State, id: string, resolution: Approvals.Resolution, hasQueue: bool, ticket: nat)
    ensures BookFollows(state, TelegramResolveStep(cfg, state, id, resolution, hasQueue, ticket))
  {
    var after := TelegramResolveStep(cfg, state, id, resolution, hasQueue, ticket);
    if after.store.book != state.store.book {
      var application := state.store.applications[state.store.book.requests[id].terms.entityId];
      OneApprovalFollows(state, after, Approvals.ResolveStep(id, resolution, application.draftVariantKey, state.clock));
    } else {
      assert after.approvals == state.approvals;
    }
  }

  /** If the bot's review approval touches the book, it does so by these two steps. */
  lemma TelegramReviewTakesTwoSteps(cfg: Config, state: State, applicationId: string, freshId: string, hasQueue: bool, ticket: nat)
    returns (create: Approvals.Step, approve: Approvals.Step)
    requires freshId !in state.store.book.requests
    requires TelegramApproveReviewStep(cfg, state, applicationId, freshId, hasQueue, ticket).store.book != state.store.book
    ensures create.CreateStep? && approve.ResolveStep?
    ensures Approvals.Enabled(state.store.book, create)
    ensures var after := TelegramApproveReviewStep(cfg, state, applicationId, freshId, hasQueue, ticket);
            && after.approvals == state.approvals + [create, approve]
            && after.store.book == Approvals.Apply(Approvals.Apply(state.store.book, create), approve)
  {
    var application := state.store.applications[applicationId];
    var terms := ReviewTerms(cfg, application, state.clock);
    create := Approvals.CreateStep(freshId, terms, state.clock);
    approve := Approvals.ResolveStep(
      Approvals.CreatedId(state.store.book, freshId, terms), Approvals.Approve, application.draftVariantKey, state.clock);
  }

  lemma TwoApprovalsFollow(before: State, after: State, create: Approvals.Step, approve: Approvals.Step)
    requires Approvals.Enabled(before.store.book, create) && approve.ResolveStep?
    requires after.approvals == before.approvals + [create, approve]
    requires after.store.book == Approvals.Apply(Approvals.Apply(before.store.book, create), approve)
    ensures BookFollows(before, after)
  {
    if BookIsRun(before) {
      AppendApproval(before.approvals, create);
      AppendApproval(before.approvals + [create], approve);
      assert after.approvals == before.approvals + [create] + [approve];
    }
  }

  lemma TelegramReviewFollows(cfg: Config, state: State, applicationId: string, freshId: string, hasQueue: bool, ticket: nat)
    requires freshId !in state.store.book.requests
    ensures BookFollows(state, TelegramApproveReviewStep(cfg, state, applicationId, freshId, hasQueue, ticket))
  {
    var after := TelegramApproveReviewStep(cfg, state, applicationId, freshId, hasQueue, ticket);
    if after.store.book != state.store.book {
      var create, approve := TelegramReviewTakesTwoSteps(cfg, state, applicationId, freshId, hasQueue, ticket);
      TwoApprovalsFollow(state, after, create, approve);
    } else {
      assert after.approvals == state.approvals;
    }
  }

  lemma QuietStepFollows(cfg: Config, state: State, step: Step)
    requires Enabled(state, step) && IsQuiet(step)
    ensures BookFollows(state, ApplyQuiet(cfg, state, step))
  {}

  lemma WorkerStepsFollow(cfg: Config, state: State, step: Step)
    requires Enabled(state, step) && (step.BeginSubmit? || step.HealthReturns?)
    ensures Apply(cfg, state, step).approvals == state.approvals && Apply(cfg, state, step).store.book == state.store.book
  {
    match step
    case BeginSubmit(execution, applicationId, requestId, draftHash) =>
      assert Apply(cfg, state, step) == BeginStep(cfg, state, execution, applicationId, requestId, draftHash);
    case HealthReturns(execution, health) =>
      assert Apply(cfg, state, step) == HealthReturnsStep(cfg, state, execution, health);
  }

  lemma HandlerStepsFollow(cfg: Config, state: State, step: Step)
    requires Enabled(state, step) && IsHandler(step)
    ensures BookFollows(state, Apply(cfg, state, step))
  {
    match step
    case ApiResolve(id, resolution, presented, bodyNow, ticket) =>
      ApiResolveFollows(cfg, state, id, resolution, presented, bodyNow, ticket);
    case TelegramResolve(id, resolution, hasQueue, ticket) => TelegramResolveFollows(cfg, state, id, resolution, hasQueue, ticket);
    case TelegramApproveReview(applicationId, freshId, hasQueue, ticket) =>
      TelegramReviewFollows(cfg, state, applicationId, freshId, hasQueue, ticket);
  }

  lemma StepFollows(cfg: Config, state: State, step: Step)
    requires Enabled(state, step)
    ensures BookFollows(state, Apply(cfg, state, step))
  {
    if IsHandler(step) {
      HandlerStepsFollow(cfg, state, step);
    } else if step.BeginSubmit? || step.HealthReturns? {
      WorkerStepsFollow(cfg, state, step);
    } else if IsQuiet(step) {
      QuietStepFollows(cfg, state, step);
    } else {
      assert Apply(cfg, state, step).approvals == state.approvals;
      assert Apply(cfg, state, step).store.book == state.store.book;
    }
  }

  /** So every theorem about approval books holds of the protocol's book. */
  lemma {:induction false} ProtocolBookIsRun(cfg: Config, states: seq<State>, steps: seq<Step>, n: nat)
    requires IsRun(cfg, states, steps) && n <= |steps|
    ensures BookIsRun(states[n])
  {
    if n > 0 {
      ProtocolBookIsRun(cfg, states, steps, n - 1);
      StepFollows(cfg, states[n - 1], steps[n - 1]);
    } else {
      assert states[0].approvals == [];
    }
  }

  // Justification of a provider call

  /** The request behind a validation: approved before it by presenting the hash it asks for. */
  ghost predicate ApprovedFor(state: State, validation: Event, digest: Digest) {
    && validation.Validated? && validation.requestId in state.store.book.requests
    && var terms := state.store.book.requests[validation.requestId].terms;
       && terms.entityType == Approvals.ApplicationEntity && terms.entityId == validation.applicationId
       && terms.action == Approvals.SendApplication && terms.draftHash == Some(digest)
       && validation.at < terms.expiresAt
       && validation.approvals <= |state.approvals|
       && exists k :: 0 <= k < validation.approvals && Approvals.ApprovedBy(state.approvals[k], validation.requestId, terms)
                      && state.approvals[k].presented == Some(digest)
  }

  ghost predicate CreatedBefore(log: seq<Event>, v: int, id: string, digest: Digest) {
    exists c :: 0 <= c < v && c < |log| && log[c].Created? && log[c].applicationId == id && log[c].draftHash == Some(digest)
  }

  /** The `v`-th event is the validation of an execution, vouched for by an approval and a creation. */
  ghost predicate Vouched(state: State, v: int, e: nat, id: string, digest: Digest) {
    && 0 <= v < |state.log|
    && state.log[v].Validated? && state.log[v].execution == e && state.log[v].applicationId == id
    && ApprovedFor(state, state.log[v], digest)
    && CreatedBefore(state.log, v, id, digest)
  }

  /** A provider call is justified by a vouched validation of the same execution for the same content. */
  ghost predicate Justified(state: State, j: int) {
    && 0 <= j < |state.log| && state.log[j].SubmitCalled?
    && state.log[j].draft.draftId == HashOf(state.log[j].draft.content)
    && exists v :: v < j && Vouched(state, v, state.log[j].execution, state.log[j].applicationId, HashOf(state.log[j].draft.content))
  }

  ghost predicate CreationsAreLogged(state: State) {
    forall id :: id in state.store.applications && Present(state.store.applications[id].draftVariantKey) ==>
      CreatedBefore(state.log, |state.log|, id, state.store.applications[id].draftVariantKey.value)
  }

  ghost predicate ExecutionsAreVouched(state: State) {
    forall e :: e in state.executions && state.executions[e].AwaitingHealth? ==> ExecutionIsVouched(state, e)
  }

  ghost predicate ExecutionIsVouched(state: State, e: nat)
    requires e in state.executions && state.executions[e].AwaitingHealth?
  {
    var id := state.executions[e].applicationId;
    && id in state.store.applications && Present(state.store.applications[id].draftVariantKey)
    && exists v :: Vouched(state, v, e, id, state.store.applications[id].draftVariantKey.value)
  }

  ghost predicate CallsAreJustified(state: State) {
    forall j :: 0 <= j < |state.log| && state.log[j].SubmitCalled? ==> Justified(state, j)
  }

  // What later steps cannot take away

  /** Logs grow, approvals grow, and the terms of a request stay. */
  ghost predicate Grows(before: State, after: State) {
    && before.log <= after.log && before.approvals <= after.approvals
    && forall r :: r in before.store.book.requests ==>
         r in after.store.book.requests && after.store.book.requests[r].terms == before.store.book.requests[r].terms
  }

  lemma StepGrows(cfg: Config, states: seq<State>, steps: seq<Step>, i: nat)
    requires IsRun(cfg, states, steps) && i < |steps|
    ensures Grows(states[i], states[i + 1])
  {
    ProtocolBookIsRun(cfg, states, steps, i);
    ProtocolBookIsRun(cfg, states, steps, i + 1);
    StepFollows(cfg, states[i], steps[i]);
    RunConforms(cfg, states, steps, i);
    LogOnlyGrows(cfg, states[i], states[i + 1], steps[i]);
    BookOnlyGrows(states[i], states[i + 1]);
  }

  lemma BookOnlyGrows(before: State, after: State)
    requires BookIsRun(before) && BookIsRun(after) && before.approvals <= after.approvals
    ensures forall r :: r in before.store.book.requests ==>
              r in after.store.book.requests && after.store.book.requests[r].terms == before.store.book.requests[r].terms
  {
    assert after.approvals[..|before.approvals|] == before.approvals;
    forall r | r in before.store.book.requests
      ensures r in after.store.book.requests && after.store.book.requests[r].terms == before.store.book.requests[r].terms
    {
      Approvals.StatusesOnlyAdvance(after.approvals, |before.approvals|, r);
    }
  }

  lemma LogOnlyGrows(cfg: Config, before: State, after: State, step: Step)
    requires Conforms(cfg, before, after, step)
    ensures before.log <= after.log
  {
    assert Classified(before, after, step, "");
  }

  lemma VouchedStays(before: State, after: State, v: int, e: nat, id: string, digest: Digest)
    requires Grows(before, after) && Vouched(before, v, e, id, digest)
    ensures Vouched(after, v, e, id, digest)
  {}

  lemma JustifiedStays(before: State, after: State, j: int)
    requires Grows(before, after) && Justified(before, j)
    ensures Justified(after, j)
  {
    assert after.log[j] == before.log[j];
    var v :| v < j && Vouched(before, v, before.log[j].execution, before.log[j].applicationId, HashOf(before.log[j].draft.content));
    VouchedStays(before, after, v, before.log[j].execution, before.log[j].applicationId, HashOf(before.log[j].draft.content));
  }

  // Every step keeps the justifications

  lemma StepLogsCreation(cfg: Config, before: State, after: State, step: Step, id: string)
    requires Conforms(cfg, before, after, step) && Grows(before, after) && CreationsAreLogged(before)
    requires id in after.store.applications && Present(after.store.applications[id].draftVariantKey)
    ensures CreatedBefore(after.log, |after.log|, id, after.store.applications[id].draftVariantKey.value)
  {
    assert Classified(before, after, step, id);
    if id in before.store.applications {
      ClassifiedIsKept(before, after, step, id);
      var digest := before.store.applications[id].draftVariantKey.value;
      var c :| 0 <= c < |before.log| && before.log[c].Created? && before.log[c].applicationId == id && before.log[c].draftHash == Some(digest);
      assert after.log[c] == before.log[c];
    } else {
      ClassifiedAppears(before, after, step, id);
      assert after.log[|before.log|].Created?;
    }
  }

  lemma BeginningIsVouched(cfg: Config, before: State, after: State, step: Step, e: nat)
    requires HasBegun(before, after, step, e)
    requires BookIsRun(before) && CreationsAreLogged(before)
    requires forall id :: id in before.store.applications ==> before.store.applications[id].id == id
    ensures ExecutionIsVouched(after, e)
  {
    var id := step.applicationId;
    var request := step.requestId.value;
    var digest := before.store.applications[id].draftVariantKey.value;
    var v := |before.log|;
    assert after.log[v] == Validated(e, id, request, before.clock, |before.approvals|);
    var c :| 0 <= c < |before.log| && before.log[c].Created? && before.log[c].applicationId == id && before.log[c].draftHash == Some(digest);
    assert after.log[c] == before.log[c];
    Approvals.ApprovalNeedsMatchingHash(before.approvals, request);
    assert Vouched(after, v, e, id, digest);
  }

  lemma ExecutionStaysVouched(cfg: Config, before: State, after: State, step: Step, e: nat)
    requires Conforms(cfg, before, after, step) && Grows(before, after)
    requires e in before.executions && before.executions[e].AwaitingHealth? && ExecutionIsVouched(before, e)
    requires e in after.executions && after.executions[e] == before.executions[e]
    ensures ExecutionIsVouched(after, e)
  {
    var id := before.executions[e].applicationId;
    assert Classified(before, after, step, id);
    ClassifiedIsKept(before, after, step, id);
    var digest := before.store.applications[id].draftVariantKey.value;
    var v :| Vouched(before, v, e, id, digest);
    VouchedStays(before, after, v, e, id, digest);
  }

  lemma StepVouches(cfg: Config, before: State, after: State, step: Step)
    requires Conforms(cfg, before, after, step) && Grows(before, after)
    requires BookIsRun(before) && CreationsAreLogged(before) && ExecutionsAreVouched(before)
    ensures ExecutionsAreVouched(after)
  {
    forall e | e in after.executions && after.executions[e].AwaitingHealth?
      ensures ExecutionIsVouched(after, e)
    {
      assert Advanced(before, after, step, e);
      if HasBegun(before, after, step, e) {
        BeginningIsVouched(cfg, before, after, step, e);
      } else {
        ExecutionStaysVouched(cfg, before, after, step, e);
      }
    }
  }

  lemma CallIsJustified(cfg: Config, before: State, after: State, step: Step, id: string)
    requires IsSubmitted(before, after, step, id) && WasDecided(cfg, before, after, step, id)
    requires Grows(before, after) && ExecutionsAreVouched(before)
    ensures Justified(after, |before.log|)
  {
    var digest := before.store.applications[id].draftVariantKey.value;
    assert ExecutionIsVouched(before, step.execution);
    var v :| Vouched(before, v, step.execution, id, digest);
    VouchedStays(before, after, v, step.execution, id, digest);
    assert after.log[|before.log|].SubmitCalled?;
  }

  /** A logged call is the one the step made. */
  lemma NewCallIsSubmitted(before: State, after: State, step: Step, j: int)
    requires |before.log| <= j < |after.log| && after.log[j].SubmitCalled?
    requires Classified(before, after, step, after.log[j].applicationId)
    ensures j == |before.log| && IsSubmitted(before, after, step, after.log[j].applicationId)
  {}

  lemma StepJustifies(cfg: Config, before: State, after: State, step: Step)
    requires Conforms(cfg, before, after, step) && Grows(before, after)
    requires forall id :: IsSubmitted(before, after, step, id) ==> WasDecided(cfg, before, after, step, id)
    requires ExecutionsAreVouched(before) && CallsAreJustified(before)
    ensures CallsAreJustified(after)
  {
    forall j | 0 <= j < |after.log| && after.log[j].SubmitCalled?
      ensures Justified(after, j)
    {
      if j < |before.log| {
        assert after.log[j] == before.log[j];
        JustifiedStays(before, after, j);
      } else {
        NewCallIsSubmitted(before, after, step, j);
        CallIsJustified(cfg, before, after, step, after.log[j].applicationId);
      }
    }
  }

  lemma {:induction false} RunJustifies(cfg: Config, states: seq<State>, steps: seq<Step>, n: nat)
    requires IsRun(cfg, states, steps) && n <= |steps|
    ensures CreationsAreLogged(states[n]) && ExecutionsAreVouched(states[n]) && CallsAreJustified(states[n])
  {
    if n > 0 {
      var before, after, step := states[n - 1], states[n], steps[n - 1];
      RunJustifies(cfg, states, steps, n - 1);
      ProtocolBookIsRun(cfg, states, steps, n - 1);
      RunConforms(cfg, states, steps, n - 1);
      StepGrows(cfg, states, steps, n - 1);
      forall id | id in after.store.applications && Present(after.store.applications[id].draftVariantKey)
        ensures CreatedBefore(after.log, |after.log|, id, after.store.applications[id].draftVariantKey.value)
      {
        StepLogsCreation(cfg, before, after, step, id);
      }
      StepVouches(cfg, before, after, step);
      forall id | IsSubmitted(before, after, step, id)
        ensures WasDecided(cfg, before, after, step, id)
      {
        RunDecides(cfg, states, steps, n - 1, id);
      }
      StepJustifies(cfg, before, after, step);
    }
  }

  /** The theorem: no draft reaches a provider without the approval of exactly its content. */
  lemma OnlyApprovedDraftsAreSubmitted(cfg: Config, states: seq<State>, steps: seq<Step>, n: nat, j: int)
    requires IsRun(cfg, states, steps) && n <= |steps|
    requires 0 <= j < |states[n].log| && states[n].log[j].SubmitCalled?
    ensures Justified(states[n], j)
  {
    RunJustifies(cfg, states, steps, n);
  }
}
