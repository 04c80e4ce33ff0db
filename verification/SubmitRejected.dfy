/**
 Rejecting an approved request in the bot: the handler reads the submit plan that only an
 approving call makes, and throws. Nothing is written, so the submit goes on as approved.
 */
module SubmitRejected {
  import opened Common
  import opened Records
  import opened SubmitWorker
  import opened SubmitProtocol
  import opened SubmitRuns
  import opened SubmitStage
  import Approvals

  /** A handler that throws leaves the whole protocol where it was. */
  lemma ThrowingChangesNothing(
    cfg: Config, state: State, id: string, resolution: Approvals.Resolution, hasQueue: bool, ticket: nat)
    requires ResolveViaTelegram(cfg, state.store, id, resolution, hasQueue, state.clock).threw
    ensures TelegramResolveStep(cfg, state, id, resolution, hasQueue, ticket) == state
  {
    TelegramThrowsExactlyWhen(cfg, state.store, id, resolution, hasQueue, state.clock);
  }

  function Rejecting(hasQueue: bool): Step {
    TelegramResolve("ra", Approvals.Reject, hasQueue, 1)
  }

  /** The first request is approved and its application queued; the bot is told to reject it. */
  lemma PlayRejected(hasQueue: bool) returns (run: Run, last: State)
    ensures Plays(Setting(LIMITS), Proper(), run, last) && |run.steps| > 0 && run.steps[|run.steps| - 1] == Rejecting(hasQueue)
    ensures SceneOf(last) == FirstQueued(JobA(), JobB(), CLOCK, CLOCK + DAY_MS)
    ensures ResolveViaTelegram(Setting(LIMITS), last.store, "ra", Approvals.Reject, hasQueue, last.clock).threw
  {
    var cfg := Setting(LIMITS);
    run, last := PlayFirstQueued(LIMITS, JobA(), JobB(), CLOCK, CLOCK + DAY_MS);
    TelegramThrowsExactlyWhen(cfg, last.store, "ra", Approvals.Reject, hasQueue, last.clock);
    ThrowingChangesNothing(cfg, last, "ra", Approvals.Reject, hasQueue, 1);
    run := PlayOn(cfg, Proper(), run, last, Rejecting(hasQueue));
  }

  lemma QueuedCanBeBegun()
    ensures CanBegin(Setting(LIMITS), FirstQueued(JobA(), JobB(), CLOCK, CLOCK + DAY_MS), "ra")
  {}

  lemma PlayRejectedBegun(hasQueue: bool) returns (run: Run, last: State, rejection: nat)
    ensures Plays(Setting(LIMITS), Proper(), run, last) && rejection < |run.steps| && run.steps[rejection] == Rejecting(hasQueue)
    ensures SceneOf(last) == FirstBegun(JobA(), JobB(), CLOCK, CLOCK + DAY_MS, |last.approvals|)
  {
    run, last := PlayRejected(hasQueue);
    rejection := |run.steps| - 1;
    QueuedCanBeBegun();
    run, last := PlayBegin(Setting(LIMITS), Proper(), run, last, "ra", 0);
    BeginningMakesFirstBegun(JobA(), JobB(), CLOCK, CLOCK + DAY_MS, |last.approvals|);
  }

  lemma PlayRejectedReady(hasQueue: bool) returns (run: Run, last: State, rejection: nat)
    ensures Plays(Setting(LIMITS), Proper(), run, last) && rejection < |run.steps| && run.steps[rejection] == Rejecting(hasQueue)
    ensures CanCall(Setting(LIMITS), last, 0) && last.executions[0].applicationId == "A"
    ensures forall e :: e in last.executions ==> !last.executions[e].AwaitingSubmit?
  {
    run, last, rejection := PlayRejectedBegun(hasQueue);
    BegunCanBeCalled(LIMITS, JobA(), JobB(), CLOCK, CLOCK + DAY_MS, |last.approvals|, last);
  }

  /** A run in which the rejection throws, and the rejected application is submitted afterwards. */
  lemma RejectedIsSubmitted(hasQueue: bool) returns (run: Run, rejection: nat)
    ensures IsRun(Setting(LIMITS), run.states, run.steps)
    ensures rejection < |run.steps| - 1 && run.steps[rejection] == Rejecting(hasQueue)
    ensures run.steps[|run.steps| - 1] == HealthReturns(0, Stable)
    ensures var log := run.states[|run.steps|].log;
            |log| > 0 && log[|log| - 1].SubmitCalled? && log[|log| - 1].applicationId == "A"
  {
    var last: State;
    run, last, rejection := PlayRejectedReady(hasQueue);
    var draft: ApplicationDraft;
    run, last, draft := PlayCall(Setting(LIMITS), Proper(), run, last, 0);
  }
}
