/**
 The proof of a finished submit replaces the dry-run proof, so an answered application
 is never submitted again; without overlapping calls at most one submit is answered.
 */
module SubmitSuccess {
  import opened Common
  import opened Records
  import opened SubmitPolicy
  import opened SubmitWorker
  import opened SubmitProtocol

  /** New proofs have fresh ids, and the proof of a submit does not claim a dry-run success. */
  predicate FreshProofs(state: State, step: Step) {
    && (step.RecordOtherProof? ==> step.proofId !in state.store.proofs)
    && (step.SubmitReturns? ==> step.proofId !in state.store.proofs && !SuccessfulDryRun(step.proof.finalStatus))
  }

  predicate Answered(log: seq<Event>, i: int, id: string) {
    0 <= i < |log| && log[i].SubmitReturned? && log[i].applicationId == id
  }

  predicate Called(log: seq<Event>, i: int, id: string) {
    0 <= i < |log| && log[i].SubmitCalled? && log[i].applicationId == id
  }

  /** The application's proof is one no dry run could have left. */
  predicate HasSubmitProof(store: Store, id: string) {
    && id in store.applications && store.applications[id].proofPackId.Some?
    && store.applications[id].proofPackId.value in store.proofs
    && !SuccessfulDryRun(store.proofs[store.applications[id].proofPackId.value].finalStatus)
  }

  ghost predicate AnswersAreFinal(state: State, id: string) {
    && (forall i :: Answered(state.log, i, id) ==> HasSubmitProof(state.store, id))
    && (forall i, j :: i < j && Answered(state.log, i, id) ==> !Called(state.log, j, id))
  }

  lemma AnswerLeavesSubmitProof(before: State, after: State, step: Step, id: string)
    requires IsAnswered(before, after, step, id) && FreshProofs(before, step)
    ensures HasSubmitProof(after.store, id)
  {}

  lemma SubmitProofStays(before: State, after: State, step: Step, id: string)
    requires Classified(before, after, step, id) && FreshProofs(before, step)
    requires forall other :: other in before.store.proofs ==> other in after.store.proofs && after.store.proofs[other] == before.store.proofs[other]
    requires HasSubmitProof(before.store, id)
    ensures HasSubmitProof(after.store, id)
  {
    if IsAnswered(before, after, step, id) {
      AnswerLeavesSubmitProof(before, after, step, id);
    } else {
      assert after.store.applications[id].proofPackId == before.store.applications[id].proofPackId;
    }
  }

  lemma ProofsStay(cfg: Config, states: seq<State>, steps: seq<Step>, i: nat, id: string)
    requires IsRun(cfg, states, steps) && i < |steps| && FreshProofs(states[i], steps[i])
    requires id in states[i].store.proofs
    ensures id in states[i + 1].store.proofs && states[i + 1].store.proofs[id] == states[i].store.proofs[id]
  {
    RunConforms(cfg, states, steps, i);
    if steps[i].SubmitReturns? {
      assert states[i + 1] == SubmitReturnsStep(states[i], steps[i].execution, steps[i].status, steps[i].proofId, steps[i].proof);
    } else if steps[i].RecordOtherProof? {
      assert states[i + 1] == ApplyQuiet(cfg, states[i], steps[i]);
    }
  }

  lemma UnreadyProofBlocksCall(cfg: Config, before: State, after: State, step: Step, id: string)
    requires IsSubmitted(before, after, step, id) && WasDecided(cfg, before, after, step, id)
    ensures !HasSubmitProof(before.store, id)
  {}

  lemma StepKeepsAnswersFinal(cfg: Config, before: State, after: State, step: Step, id: string)
    requires Classified(before, after, step, id) && Framed(cfg, before, after, step) && FreshProofs(before, step)
    requires forall other :: other in before.store.proofs ==> other in after.store.proofs && after.store.proofs[other] == before.store.proofs[other]
    requires IsSubmitted(before, after, step, id) ==> !HasSubmitProof(before.store, id)
    requires AnswersAreFinal(before, id)
    ensures AnswersAreFinal(after, id)
  {
    if HasSubmitProof(before.store, id) {
      SubmitProofStays(before, after, step, id);
    }
    NewEvent(before, after, step, id);
    if IsAnswered(before, after, step, id) {
      AnswerLeavesSubmitProof(before, after, step, id);
    }
  }

  /** What a step adds to the calls and answers of an application. */
  lemma NewEvent(before: State, after: State, step: Step, id: string)
    requires Classified(before, after, step, id)
    ensures forall i :: Answered(after.log, i, id) ==> Answered(before.log, i, id) || (IsAnswered(before, after, step, id) && i == |before.log|)
    ensures forall i :: Called(after.log, i, id) ==> Called(before.log, i, id) || (IsSubmitted(before, after, step, id) && i == |before.log|)
  {}

  lemma {:induction false} RunKeepsAnswersFinal(cfg: Config, states: seq<State>, steps: seq<Step>, n: nat, id: string)
    requires IsRun(cfg, states, steps) && n <= |steps|
    requires forall i :: 0 <= i < |steps| ==> FreshProofs(states[i], steps[i])
    ensures AnswersAreFinal(states[n], id)
  {
    if n > 0 {
      RunKeepsAnswersFinal(cfg, states, steps, n - 1, id);
      RunConforms(cfg, states, steps, n - 1);
      forall other | other in states[n - 1].store.proofs
        ensures other in states[n].store.proofs && states[n].store.proofs[other] == states[n - 1].store.proofs[other]
      {
        ProofsStay(cfg, states, steps, n - 1, other);
      }
      if IsSubmitted(states[n - 1], states[n], steps[n - 1], id) {
        RunDecides(cfg, states, steps, n - 1, id);
        UnreadyProofBlocksCall(cfg, states[n - 1], states[n], steps[n - 1], id);
      }
      StepKeepsAnswersFinal(cfg, states[n - 1], states[n], steps[n - 1], id);
    }
  }

  /** Once a submit of an application has been answered, no approval gets it submitted again. */
  lemma AnsweredIsNeverResubmitted(cfg: Config, states: seq<State>, steps: seq<Step>, n: nat, id: string, i: int, j: int)
    requires IsRun(cfg, states, steps) && n <= |steps|
    requires forall k :: 0 <= k < |steps| ==> FreshProofs(states[k], steps[k])
    requires i < j && Answered(states[n].log, i, id)
    ensures !Called(states[n].log, j, id)
  {
    RunKeepsAnswersFinal(cfg, states, steps, n, id);
  }

  // Without overlapping calls

  predicate InFlight(state: State, e: nat, id: string) {
    e in state.executions && state.executions[e].AwaitingSubmit? && state.executions[e].applicationId == id
  }

  /** The provider is not called for an application while another call for it is unanswered. */
  ghost predicate NoOverlap(state: State, step: Step) {
    step.HealthReturns? && step.execution in state.executions && state.executions[step.execution].AwaitingHealth? ==>
      forall e :: !InFlight(state, e, state.executions[step.execution].applicationId)
  }

  ghost predicate AtMostOneAnswer(state: State, id: string) {
    && (forall e, f :: InFlight(state, e, id) && InFlight(state, f, id) ==> e == f)
    && (forall e, i :: InFlight(state, e, id) ==> !Answered(state.log, i, id))
    && (forall i, j :: Answered(state.log, i, id) && Answered(state.log, j, id) ==> i == j)
  }

  lemma FlightsAdvance(cfg: Config, before: State, after: State, step: Step, id: string, e: nat)
    requires Conforms(cfg, before, after, step) && InFlight(after, e, id)
    ensures InFlight(before, e, id) || (IsSubmitted(before, after, step, id) && step.execution == e)
  {}

  /** No new answer and no new flight. */
  lemma QuietKeepsOneAnswer(before: State, after: State, id: string)
    requires AtMostOneAnswer(before, id)
    requires forall e :: InFlight(after, e, id) ==> InFlight(before, e, id)
    requires forall i :: Answered(after.log, i, id) ==> Answered(before.log, i, id)
    ensures AtMostOneAnswer(after, id)
  {}

  lemma CallKeepsOneAnswer(before: State, after: State, called: nat, id: string)
    requires AtMostOneAnswer(before, id)
    requires forall e :: !InFlight(before, e, id)
    requires forall i :: !Answered(before.log, i, id)
    requires forall e :: InFlight(after, e, id) ==> InFlight(before, e, id) || e == called
    requires forall i :: Answered(after.log, i, id) ==> Answered(before.log, i, id)
    ensures AtMostOneAnswer(after, id)
  {}

  lemma AnswerKeepsOneAnswer(before: State, after: State, step: Step, id: string)
    requires AtMostOneAnswer(before, id) && IsAnswered(before, after, step, id)
    ensures AtMostOneAnswer(after, id)
  {
    var answered := step.execution;
    assert InFlight(before, answered, id);
    assert forall e :: InFlight(after, e, id) ==> InFlight(before, e, id) && e != answered;
    assert forall i :: Answered(after.log, i, id) ==> Answered(before.log, i, id) || i == |before.log|;
  }

  lemma StepKeepsOneAnswer(cfg: Config, before: State, after: State, step: Step, id: string)
    requires Conforms(cfg, before, after, step) && NoOverlap(before, step)
    requires IsSubmitted(before, after, step, id) ==> !HasSubmitProof(before.store, id)
    requires AnswersAreFinal(before, id) && AtMostOneAnswer(before, id)
    ensures AtMostOneAnswer(after, id)
  {
    assert Classified(before, after, step, id);
    if IsAnswered(before, after, step, id) {
      AnswerKeepsOneAnswer(before, after, step, id);
    } else {
      forall e | InFlight(after, e, id)
        ensures InFlight(before, e, id) || (IsSubmitted(before, after, step, id) && step.execution == e)
      {
        FlightsAdvance(cfg, before, after, step, id, e);
      }
      NoAnswerLogged(before, after, step, id);
      if IsSubmitted(before, after, step, id) {
        CallKeepsOneAnswer(before, after, step.execution, id);
      } else {
        QuietKeepsOneAnswer(before, after, id);
      }
    }
  }

  lemma NoAnswerLogged(before: State, after: State, step: Step, id: string)
    requires Classified(before, after, step, id) && !IsAnswered(before, after, step, id)
    ensures forall i :: Answered(after.log, i, id) ==> Answered(before.log, i, id)
  {}

  lemma {:induction false} RunKeepsOneAnswer(cfg: Config, states: seq<State>, steps: seq<Step>, n: nat, id: string)
    requires IsRun(cfg, states, steps) && n <= |steps|
    requires forall i :: 0 <= i < |steps| ==> FreshProofs(states[i], steps[i]) && NoOverlap(states[i], steps[i])
    ensures AtMostOneAnswer(states[n], id)
  {
    if n > 0 {
      RunKeepsOneAnswer(cfg, states, steps, n - 1, id);
      RunKeepsAnswersFinal(cfg, states, steps, n - 1, id);
      RunConforms(cfg, states, steps, n - 1);
      if IsSubmitted(states[n - 1], states[n], steps[n - 1], id) {
        RunDecides(cfg, states, steps, n - 1, id);
        UnreadyProofBlocksCall(cfg, states[n - 1], states[n], steps[n - 1], id);
      }
      StepKeepsOneAnswer(cfg, states[n - 1], states[n], steps[n - 1], id);
    }
  }

  /** At most one submit of an application is ever answered, hence at most one succeeds. */
  lemma AtMostOneSubmissionSucceeds(cfg: Config, states: seq<State>, steps: seq<Step>, n: nat, id: string, i: int, j: int)
    requires IsRun(cfg, states, steps) && n <= |steps|
    requires forall k :: 0 <= k < |steps| ==> FreshProofs(states[k], steps[k]) && NoOverlap(states[k], steps[k])
    requires Answered(states[n].log, i, id) && Answered(states[n].log, j, id)
    ensures i == j
  {
    RunKeepsOneAnswer(cfg, states, steps, n, id);
  }

  // What the status `applied` stands for

  ghost predicate WasAccepted(log: seq<Event>, id: string) {
    exists i :: 0 <= i < |log| && log[i] == SubmitReturned(id, Submitted)
  }

  ghost predicate AppliedMeansAccepted(state: State, id: string) {
    id in state.store.applications && state.store.applications[id].status == Applied ==> WasAccepted(state.log, id)
  }

  lemma LongerLogKeepsAccepted(log: seq<Event>, longer: seq<Event>, id: string)
    requires log <= longer && WasAccepted(log, id)
    ensures WasAccepted(longer, id)
  {}

  lemma ConformingStepKeepsAccepted(cfg: Config, before: State, after: State, step: Step, id: string)
    requires Conforms(cfg, before, after, step) && AppliedMeansAccepted(before, id)
    ensures AppliedMeansAccepted(after, id)
  {
    assert Classified(before, after, step, id);
    StepKeepsAccepted(before, after, step, id);
  }

  lemma StepKeepsAccepted(before: State, after: State, step: Step, id: string)
    requires Classified(before, after, step, id) && AppliedMeansAccepted(before, id)
    ensures AppliedMeansAccepted(after, id)
  {
    if IsAnswered(before, after, step, id) {
      assert after.log[|before.log|] == SubmitReturned(id, step.status);
    } else if id in after.store.applications && after.store.applications[id].status == Applied {
      LongerLogKeepsAccepted(before.log, after.log, id);
    }
  }

  lemma {:induction false} RunKeepsAccepted(cfg: Config, states: seq<State>, steps: seq<Step>, n: nat, id: string)
    requires IsRun(cfg, states, steps) && n <= |steps|
    ensures AppliedMeansAccepted(states[n], id)
  {
    if n > 0 {
      RunKeepsAccepted(cfg, states, steps, n - 1, id);
      RunConforms(cfg, states, steps, n - 1);
      ConformingStepKeepsAccepted(cfg, states[n - 1], states[n], steps[n - 1], id);
    }
  }

  /** An application is `applied` only after its provider has answered a submit with `submitted`. */
  lemma AppliedOnlyWhenAccepted(cfg: Config, states: seq<State>, steps: seq<Step>, n: nat, id: string)
    requires IsRun(cfg, states, steps) && n <= |steps|
    requires id in states[n].store.applications && states[n].store.applications[id].status == Applied
    ensures WasAccepted(states[n].log, id)
  {
    RunKeepsAccepted(cfg, states, steps, n, id);
  }
}
