/**
 Why the rate theorem asks for undisturbed provider calls. A call's application may lose its
 place while the call is unanswered: a failed enqueue or a second task sends it to review, or
 the answer of an earlier call dates it back. Another application takes the place, and then
 the call's own answer fills it again: two applications in an hour that allows one.
 */
module SubmitDisturbed {
  import opened Common
  import opened Records
  import opened Sets
  import opened SubmitWorker
  import opened SubmitProtocol
  import opened SubmitRates
  import opened SubmitRuns
  import opened SubmitStage
  import opened SubmitSuccess
  import RateLimits

  const HOURLY := RateLimits.Rule(1, HOUR_MS, RateLimits.Everything)

  /** The other assumptions of the theorem, and those of the theorems about answers. */
  function Orderly(): Discipline {
    (state: State, step: Step) =>
      && NotDatedBack(state, step) && FreshProofs(state, step)
      && (step.IngestJob? ==> step.job.id !in state.store.jobs)
  }

  lemma PlayCalled() returns (run: Run, last: State)
    ensures Plays(Setting(LIMITS), Orderly(), run, last) && JustCalled(SceneOf(last), JobA(), JobB(), CLOCK, CLOCK + DAY_MS)
  {
    run, last := PlayJustCalled(LIMITS, JobA(), JobB(), CLOCK, CLOCK + DAY_MS);
    Relax(Setting(LIMITS), Proper(), Orderly(), run, last);
  }

  // The first application is sent to review while its call is unanswered

  /** The call is unanswered, but its application is not counted; the other one waits for its approval. */
  ghost predicate LostItsPlace(scene: Scene) {
    && scene.clock == CLOCK && 0 in scene.executions && scene.executions[0] == AwaitingSubmit("A", CLOCK)
    && OnlyTwo(scene, QueuedA(CLOCK).(status := ManualReviewRequired), Prepared("B", "b", CLOCK))
    && "rb" in scene.requests && scene.requests["rb"] == PendingFor("B", "b", CLOCK + DAY_MS, CLOCK)
    && 1 !in scene.enqueues && "s" !in scene.proofs
  }

  lemma PlayEnqueueFails() returns (run: Run, last: State)
    ensures Plays(Setting(LIMITS), Orderly(), run, last) && LostItsPlace(SceneOf(last)) && last.executions.Keys == {0}
  {
    run, last := PlayCalled();
    run, last := PlayFailEnqueue(Setting(LIMITS), Orderly(), run, last, 0);
  }

  lemma PlaySecondTask() returns (run: Run, last: State)
    ensures Plays(Setting(LIMITS), Orderly(), run, last) && LostItsPlace(SceneOf(last)) && last.enqueues.Keys == {0}
  {
    run, last := PlayCalled();
    run, last := PlayBeginInVain(Setting(LIMITS), Orderly(), run, last, "A", 1);
  }

  // Another takes the place, and the answer fills it again

  ghost predicate BothInTheHour(state: State, hi: int) {
    forall id :: id in {"A", "B"} ==>
      && id in state.store.applications && RateLimits.Irreversible(state.store.applications[id].status)
      && state.store.applications[id].submittedAt == Some(hi)
  }

  lemma BothAreTooMany(cfg: Config, state: State, hi: int)
    requires BothInTheHour(state, hi)
    ensures |CountedIn(cfg, state, HOURLY, hi)| > HOURLY.limit
  {
    assert "A" in {"A", "B"} && "B" in {"A", "B"};
    SubsetSize({"A", "B"}, CountedIn(cfg, state, HOURLY, hi));
  }

  lemma PlayRefill(start: Run, state: State) returns (run: Run, last: State)
    requires Plays(Setting(LIMITS), Orderly(), start, state) && LostItsPlace(SceneOf(state))
    ensures Plays(Setting(LIMITS), Orderly(), run, last) && BothInTheHour(last, CLOCK)
    ensures last.executions.Keys == state.executions.Keys && last.enqueues.Keys == state.enqueues.Keys + {1}
  {
    CanApproveAlone(LIMITS, state, "rb", None);
    run, last := PlayApprove(Setting(LIMITS), Orderly(), start, state, "rb", None, 1);
    run, last := PlayAnswer(Setting(LIMITS), Orderly(), run, last, 0, "s", SubmitProof());
  }

  /** A single execution, whose enqueue fails after it has reached the provider. */
  lemma FailedEnqueueBreaksLimit() returns (run: Run)
    ensures IsRun(Setting(LIMITS), run.states, run.steps) && IsRule(LIMITS, HOURLY)
    ensures forall i :: 0 <= i < |run.steps| ==>
              NotDatedBack(run.states[i], run.steps[i]) && KeepsGroup(Setting(LIMITS), run.states[i], run.steps[i], HOURLY.group)
    ensures run.states[|run.steps|].executions.Keys == {0}
    ensures |CountedIn(Setting(LIMITS), run.states[|run.steps|], HOURLY, CLOCK)| > HOURLY.limit
  {
    var last: State;
    run, last := PlayEnqueueFails();
    run, last := PlayRefill(run, last);
    BothAreTooMany(Setting(LIMITS), last, CLOCK);
  }

  /** Both enqueues are still waited for, but a second task for the application carries no approval. */
  lemma SecondTaskBreaksLimit() returns (run: Run)
    ensures IsRun(Setting(LIMITS), run.states, run.steps) && IsRule(LIMITS, HOURLY)
    ensures forall i :: 0 <= i < |run.steps| ==>
              NotDatedBack(run.states[i], run.steps[i]) && KeepsGroup(Setting(LIMITS), run.states[i], run.steps[i], HOURLY.group)
    ensures run.states[|run.steps|].enqueues.Keys == {0, 1}
    ensures |CountedIn(Setting(LIMITS), run.states[|run.steps|], HOURLY, CLOCK)| > HOURLY.limit
  {
    var last: State;
    run, last := PlaySecondTask();
    run, last := PlayRefill(run, last);
    BothAreTooMany(Setting(LIMITS), last, CLOCK);
  }

  // Two calls of one application overlap, and it is counted all the time

  predicate StaysCounted(state: State) {
    forall e :: e in state.executions && state.executions[e].AwaitingSubmit? ==>
      && state.executions[e].applicationId in state.store.applications
      && RateLimits.Irreversible(state.store.applications[state.executions[e].applicationId].status)
  }

  function Counted(): Discipline {
    (state: State, step: Step) =>
      && NotDatedBack(state, step) && FreshProofs(state, step)
      && (step.IngestJob? ==> step.job.id !in state.store.jobs) && StaysCounted(state)
  }

  /** An hour after the first call, still unanswered; `status` and `date` are those of its application. */
  ghost predicate Waiting(scene: Scene, status: ApplicationStatus, date: int) {
    && scene.clock == CLOCK + HOUR_MS && ShowsNew(scene, JobA()) && scene.proofs == map["a" := DryRun("a"), "b" := DryRun("b")]
    && OnlyTwo(scene, QueuedA(CLOCK).(status := status, submittedAt := Some(date)), Prepared("B", "b", CLOCK))
    && "ra" in scene.requests && scene.requests["ra"] == ApprovedAt(PendingFor("A", "a", CLOCK + DAY_MS, CLOCK), CLOCK)
    && "rb" in scene.requests && scene.requests["rb"] == PendingFor("B", "b", CLOCK + DAY_MS, CLOCK)
    && scene.enqueues.Keys <= {0, 1}
  }

  lemma PlayWaiting() returns (run: Run, last: State)
    ensures Plays(Setting(LIMITS), Counted(), run, last) && Waiting(SceneOf(last), Applying, CLOCK)
    ensures last.executions == map[0 := AwaitingSubmit("A", CLOCK)] && 1 !in last.enqueues
  {
    run, last := PlayJustCalled(LIMITS, JobA(), JobB(), CLOCK, CLOCK + DAY_MS);
    Relax(Setting(LIMITS), Proper(), Counted(), run, last);
    assert StaysCounted(last);
    assert last.store.canaries[0] == CanaryRun("p", true, CLOCK);
    run, last := PlayTick(Setting(LIMITS), Counted(), run, last, HOUR_MS);
  }

  lemma WaitingCanBeApproved(state: State)
    requires Waiting(SceneOf(state), Applying, CLOCK)
    ensures CanApprove(Setting(LIMITS), state, "ra", None)
  {
    CanApproveAlone(LIMITS, state, "ra", None);
  }

  lemma ApprovalKeepsWaiting(scene: Scene)
    requires Waiting(scene, Applying, CLOCK)
    ensures Waiting(WithApproval(scene, "ra", CLOCK + HOUR_MS, 1), ApplyQueued, CLOCK + HOUR_MS)
  {}

  lemma PlayQueuedAgain() returns (run: Run, last: State)
    ensures Plays(Setting(LIMITS), Counted(), run, last) && Waiting(SceneOf(last), ApplyQueued, CLOCK + HOUR_MS)
    ensures last.executions == map[0 := AwaitingSubmit("A", CLOCK)]
  {
    run, last := PlayWaiting();
    assert StaysCounted(last);
    WaitingCanBeApproved(last);
    ApprovalKeepsWaiting(SceneOf(last));
    run, last := PlayApprove(Setting(LIMITS), Counted(), run, last, "ra", None, 1);
  }

  lemma PlayBegunAgain() returns (run: Run, last: State)
    ensures Plays(Setting(LIMITS), Counted(), run, last) && Waiting(SceneOf(last), ApplyQueued, CLOCK + HOUR_MS)
    ensures last.executions == map[0 := AwaitingSubmit("A", CLOCK), 1 := AwaitingHealth("A", JobA(), "ra")]
  {
    run, last := PlayQueuedAgain();
    assert StaysCounted(last);
    run, last := PlayBegin(Setting(LIMITS), Counted(), run, last, "ra", 1);
  }

  lemma WaitingCanBeCalled(state: State)
    requires Waiting(SceneOf(state), ApplyQueued, CLOCK + HOUR_MS)
    requires state.executions == map[0 := AwaitingSubmit("A", CLOCK), 1 := AwaitingHealth("A", JobA(), "ra")]
    ensures CanCall(Setting(LIMITS), state, 1)
  {
    SendableAlone(LIMITS, state, "A", JobA(), 1);
  }

  lemma PlayCalledTwice() returns (run: Run, last: State)
    ensures Plays(Setting(LIMITS), Counted(), run, last) && Waiting(SceneOf(last), Applying, CLOCK + HOUR_MS)
    ensures last.executions == map[0 := AwaitingSubmit("A", CLOCK), 1 := AwaitingSubmit("A", CLOCK + HOUR_MS)]
  {
    run, last := PlayBegunAgain();
    assert StaysCounted(last);
    WaitingCanBeCalled(last);
    var draft: ApplicationDraft;
    run, last, draft := PlayCall(Setting(LIMITS), Counted(), run, last, 1);
  }

  /** The first answer dates the application back, an hour before the call that is still unanswered. */
  ghost predicate DatedBack(scene: Scene) {
    && scene.clock == CLOCK + HOUR_MS
    && OnlyTwo(scene, QueuedA(CLOCK).(status := Applied, proofPackId := Some("s")), Prepared("B", "b", CLOCK))
    && "rb" in scene.requests && scene.requests["rb"] == PendingFor("B", "b", CLOCK + DAY_MS, CLOCK)
    && scene.executions == map[0 := Ended, 1 := AwaitingSubmit("A", CLOCK + HOUR_MS)] && 2 !in scene.enqueues
    && scene.proofs.Keys == {"a", "b", "s"} && |scene.log| > 0 && scene.log[|scene.log| - 1] == SubmitReturned("A", Submitted)
  }

  lemma PlayDatedBack() returns (run: Run, last: State)
    ensures Plays(Setting(LIMITS), Counted(), run, last) && DatedBack(SceneOf(last))
  {
    run, last := PlayCalledTwice();
    assert StaysCounted(last);
    assert "s" !in last.store.proofs;
    run, last := PlayAnswer(Setting(LIMITS), Counted(), run, last, 0, "s", SubmitProof());
  }

  lemma OldOtherIsAllowed(state: State)
    requires DatedBack(SceneOf(state))
    ensures CanApprove(Setting(LIMITS), state, "rb", None)
  {
    var store := state.store;
    assert Others(store, "B", state.clock - HOUR_MS) == {};
    SubsetSize(Others(store, "B", state.clock - DAY_MS), {"A"});
    SubsetSize(Others(store, "B", state.clock - WEEK_MS), {"A"});
    if "b" in store.jobs {
      FewOthersAreAllowed(Setting(LIMITS), store, store.applications["B"], store.jobs["b"], state.clock);
    }
  }

  predicate AnsweredTwice(log: seq<Event>, i: int, j: int) {
    0 <= i < j < |log| && log[i] == log[j] == SubmitReturned("A", Submitted)
  }

  lemma PlayTakenPlace() returns (run: Run, last: State, i: int)
    ensures Plays(Setting(LIMITS), Counted(), run, last) && last.executions == map[0 := Ended, 1 := AwaitingSubmit("A", CLOCK + HOUR_MS)]
    ensures OnlyTwo(SceneOf(last), QueuedA(CLOCK).(status := Applied, proofPackId := Some("s")),
                    Prepared("B", "b", CLOCK).(status := ApplyQueued, submittedAt := Some(CLOCK + HOUR_MS)))
    ensures last.store.proofs.Keys == {"a", "b", "s"} && 0 <= i < |last.log| && last.log[i] == SubmitReturned("A", Submitted)
  {
    run, last := PlayDatedBack();
    i := |last.log| - 1;
    assert StaysCounted(last);
    OldOtherIsAllowed(last);
    run, last := PlayApprove(Setting(LIMITS), Counted(), run, last, "rb", None, 2);
  }

  lemma PlayBothAnswers() returns (run: Run, last: State, i: int, j: int)
    ensures Plays(Setting(LIMITS), Counted(), run, last) && BothInTheHour(last, CLOCK + HOUR_MS) && AnsweredTwice(last.log, i, j)
  {
    run, last, i := PlayTakenPlace();
    j := |last.log|;
    assert StaysCounted(last);
    assert "t" !in last.store.proofs;
    run, last := PlayAnswer(Setting(LIMITS), Counted(), run, last, 1, "t", SubmitProof());
  }

  /**
   It is not enough that an application with an unanswered call stays counted: here it does,
   and the answer of its earlier call dates it out of the hour of the later one.
   */
  lemma EarlierAnswerBreaksLimit() returns (run: Run)
    ensures IsRun(Setting(LIMITS), run.states, run.steps) && IsRule(LIMITS, HOURLY)
    ensures forall i :: 0 <= i < |run.steps| ==>
              && NotDatedBack(run.states[i], run.steps[i]) && KeepsGroup(Setting(LIMITS), run.states[i], run.steps[i], HOURLY.group)
              && StaysCounted(run.states[i])
    ensures |CountedIn(Setting(LIMITS), run.states[|run.steps|], HOURLY, CLOCK + HOUR_MS)| > HOURLY.limit
  {
    var last: State;
    var i, j: int;
    run, last, i, j := PlayBothAnswers();
    BothAreTooMany(Setting(LIMITS), last, CLOCK + HOUR_MS);
  }

  /** Without the assumption that calls do not overlap, one application may be submitted successfully twice. */
  lemma OverlapSucceedsTwice() returns (run: Run, i: int, j: int)
    ensures IsRun(Setting(LIMITS), run.states, run.steps)
    ensures forall k :: 0 <= k < |run.steps| ==> FreshProofs(run.states[k], run.steps[k])
    ensures AnsweredTwice(run.states[|run.steps|].log, i, j)
  {
    var last: State;
    run, last, i, j := PlayBothAnswers();
  }
}
