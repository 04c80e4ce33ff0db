/**
 Why the theorem about answered submits asks for fresh proofs: if the proof of a submit
 claims a dry-run success, or is overwritten by one that does, approving the application
 again submits it again.
 */
module SubmitReproved {
  import opened Common
  import opened Records
  import opened SubmitWorker
  import opened SubmitProtocol
  import opened SubmitRuns
  import opened SubmitStage
  import opened SubmitSuccess

  /** One half of the assumption on proofs; the other half may fail. */
  function FreshBut(submitted: bool): Discipline {
    (state: State, step: Step) =>
      FreshProofs(state, step) || (if submitted then step.SubmitReturns? else step.RecordOtherProof?)
  }

  /** Answered, but its proof is one a dry run could have left. */
  ghost predicate Reproved(scene: Scene, status: ApplicationStatus, answer: int) {
    && scene.clock == CLOCK && ShowsNew(scene, JobA())
    && "s" in scene.proofs && scene.proofs["s"] == DryRun("a")
    && OnlyTwo(scene, QueuedA(CLOCK).(status := status, proofPackId := Some("s")), Prepared("B", "b", CLOCK))
    && "ra" in scene.requests && scene.requests["ra"] == ApprovedAt(PendingFor("A", "a", CLOCK + DAY_MS, CLOCK), CLOCK)
    && 0 <= answer < |scene.log| && scene.log[answer] == SubmitReturned("A", Submitted)
  }

  lemma PlayClaimed() returns (run: Run, last: State, answer: int)
    ensures Plays(Setting(LIMITS), FreshBut(true), run, last) && Reproved(SceneOf(last), Applied, answer)
    ensures last.executions == map[0 := Ended] && last.enqueues.Keys == {0}
  {
    run, last := PlayJustCalled(LIMITS, JobA(), JobB(), CLOCK, CLOCK + DAY_MS);
    Relax(Setting(LIMITS), Proper(), FreshBut(true), run, last);
    answer := |last.log|;
    run, last := PlayAnswer(Setting(LIMITS), FreshBut(true), run, last, 0, "s", DryRun("a"));
  }

  lemma PlayHonest() returns (run: Run, last: State)
    ensures Plays(Setting(LIMITS), FreshBut(false), run, last)
    ensures |last.log| > 0 && Reproved(SceneOf(last).(proofs := last.store.proofs["s" := DryRun("a")]), Applied, |last.log| - 1)
    ensures last.executions == map[0 := Ended] && last.enqueues.Keys == {0}
  {
    run, last := PlayJustCalled(LIMITS, JobA(), JobB(), CLOCK, CLOCK + DAY_MS);
    Relax(Setting(LIMITS), Proper(), FreshBut(false), run, last);
    run, last := PlayAnswer(Setting(LIMITS), FreshBut(false), run, last, 0, "s", SubmitProof());
  }

  lemma PlayOverwritten() returns (run: Run, last: State, answer: int)
    ensures Plays(Setting(LIMITS), FreshBut(false), run, last) && Reproved(SceneOf(last), Applied, answer)
    ensures last.executions == map[0 := Ended] && last.enqueues.Keys == {0}
  {
    run, last := PlayHonest();
    answer := |last.log| - 1;
    run, last := PlayProof(Setting(LIMITS), FreshBut(false), run, last, "s", DryRun("a"));
  }

  // Approving it again

  lemma ReprovedCanBeApproved(state: State, answer: int)
    requires Reproved(SceneOf(state), Applied, answer)
    ensures CanApprove(Setting(LIMITS), state, "ra", None)
  {
    CanApproveAlone(LIMITS, state, "ra", None);
  }

  lemma PlayQueuedAgain(submitted: bool, start: Run, state: State, answer: int) returns (run: Run, last: State)
    requires Plays(Setting(LIMITS), FreshBut(submitted), start, state) && Reproved(SceneOf(state), Applied, answer)
    requires state.executions == map[0 := Ended] && state.enqueues.Keys == {0}
    ensures Plays(Setting(LIMITS), FreshBut(submitted), run, last) && Reproved(SceneOf(last), ApplyQueued, answer)
    ensures last.executions == map[0 := Ended]
  {
    ReprovedCanBeApproved(state, answer);
    run, last := PlayApprove(Setting(LIMITS), FreshBut(submitted), start, state, "ra", None, 1);
  }

  lemma PlayBegunAgain(submitted: bool, start: Run, state: State, answer: int) returns (run: Run, last: State)
    requires Plays(Setting(LIMITS), FreshBut(submitted), start, state) && Reproved(SceneOf(state), Applied, answer)
    requires state.executions == map[0 := Ended] && state.enqueues.Keys == {0}
    ensures Plays(Setting(LIMITS), FreshBut(submitted), run, last) && Reproved(SceneOf(last), ApplyQueued, answer)
    ensures last.executions == map[0 := Ended, 1 := AwaitingHealth("A", JobA(), "ra")]
  {
    run, last := PlayQueuedAgain(submitted, start, state, answer);
    run, last := PlayBegin(Setting(LIMITS), FreshBut(submitted), run, last, "ra", 1);
  }

  lemma ReprovedCanBeCalled(state: State, answer: int)
    requires Reproved(SceneOf(state), ApplyQueued, answer)
    requires state.executions == map[0 := Ended, 1 := AwaitingHealth("A", JobA(), "ra")]
    ensures CanCall(Setting(LIMITS), state, 1)
  {
    SendableAlone(LIMITS, state, "A", JobA(), 1);
  }

  lemma PlayResubmitted(submitted: bool, start: Run, state: State, answer: int) returns (run: Run, last: State, call: int)
    requires Plays(Setting(LIMITS), FreshBut(submitted), start, state) && Reproved(SceneOf(state), Applied, answer)
    requires state.executions == map[0 := Ended] && state.enqueues.Keys == {0}
    ensures Plays(Setting(LIMITS), FreshBut(submitted), run, last)
    ensures answer < call && Answered(last.log, answer, "A") && Called(last.log, call, "A")
  {
    run, last := PlayBegunAgain(submitted, start, state, answer);
    ReprovedCanBeCalled(last, answer);
    call := |last.log|;
    var draft: ApplicationDraft;
    run, last, draft := PlayCall(Setting(LIMITS), FreshBut(submitted), run, last, 1);
  }

  /** New proofs all have fresh ids, but the submit's own claims a dry-run success. */
  lemma ClaimedDryRunIsResubmitted() returns (run: Run, i: int, j: int)
    ensures IsRun(Setting(LIMITS), run.states, run.steps)
    ensures forall k :: 0 <= k < |run.steps| ==> run.steps[k].SubmitReturns? || FreshProofs(run.states[k], run.steps[k])
    ensures i < j && Answered(run.states[|run.steps|].log, i, "A") && Called(run.states[|run.steps|].log, j, "A")
  {
    var last: State;
    run, last, i := PlayClaimed();
    run, last, j := PlayResubmitted(true, run, last, i);
  }

  /** The submit's proof claims no dry run, but another proof is recorded under its id. */
  lemma OverwrittenProofIsResubmitted() returns (run: Run, i: int, j: int)
    ensures IsRun(Setting(LIMITS), run.states, run.steps)
    ensures forall k :: 0 <= k < |run.steps| ==> run.steps[k].RecordOtherProof? || FreshProofs(run.states[k], run.steps[k])
    ensures i < j && Answered(run.states[|run.steps|].log, i, "A") && Called(run.states[|run.steps|].log, j, "A")
  {
    var last: State;
    run, last, i := PlayOverwritten();
    run, last, j := PlayResubmitted(false, run, last, i);
  }
}
