/**
 What re-ingesting a job with other contents can do: it can bring more applications into a
 company's day than the limit allows, and it can lead to provider calls for two jobs that
 share a key. The theorems on limits and duplicates therefore speak of stable jobs.
 */
module SubmitReingested {
  import opened Common
  import opened Records
  import opened Sets
  import opened SubmitWorker
  import opened SubmitProtocol
  import opened SubmitRates
  import opened SubmitRuns
  import opened SubmitStage
  import Approvals
  import RateLimits

  // A job joins a company whose day is full

  /** One application a day for each company. */
  const ONE_A_DAY := RateLimits.Limits(10, 10, 1, 10)

  const DAILY := RateLimits.Rule(1, DAY_MS, RateLimits.OfCompany("X"))

  function JobOfX(): Job { JobOf("a", "a", Some("X")) }

  /** The second job, before and after it is ingested again. */
  function JobOfCompany(company: string): Job { JobOf("b", "b", Some(company)) }

  /** No executions, and the API uses its own clock. */
  function Idle(): Discipline {
    (state: State, step: Step) => state.executions == map[] && NotDatedBack(state, step)
  }

  function QueuedOf(id: string, jobId: string): Application {
    Prepared(id, jobId, CLOCK).(status := ApplyQueued, submittedAt := Some(CLOCK))
  }

  ghost predicate FirstIsQueued(scene: Scene) {
    && scene.clock == CLOCK && scene.executions == map[] && scene.enqueues.Keys == {0}
    && scene.jobs.Keys == {"a", "b"} && scene.jobs["a"] == JobOfX() && scene.jobs["b"] == JobOfCompany("Y")
    && OnlyTwo(scene, QueuedOf("A", "a"), Prepared("B", "b", CLOCK))
    && "rb" in scene.requests && scene.requests["rb"] == PendingFor("B", "b", CLOCK + DAY_MS, CLOCK)
  }

  lemma PlayFirst() returns (run: Run, last: State)
    ensures Plays(Setting(ONE_A_DAY), Idle(), run, last) && FirstIsQueued(SceneOf(last))
  {
    run, last := SetStage(ONE_A_DAY, JobOfX(), JobOfCompany("Y"), CLOCK, CLOCK + DAY_MS);
    Relax(Setting(ONE_A_DAY), Calm(), Idle(), run, last);
    StageCanBeApproved(ONE_A_DAY, JobOfX(), JobOfCompany("Y"), CLOCK, CLOCK + DAY_MS, last);
    run, last := PlayApprove(Setting(ONE_A_DAY), Idle(), run, last, "ra", None, 0);
  }

  /** The first application is neither of the second job's company nor of its role. */
  lemma OtherCompanyIsAllowed(state: State)
    requires FirstIsQueued(SceneOf(state))
    ensures RateAllowed(Setting(ONE_A_DAY), state.store, state.store.applications["B"], state.store.jobs["b"], CLOCK)
  {
    var cfg, store := Setting(ONE_A_DAY), state.store;
    var application, job := store.applications["B"], store.jobs["b"];
    forall rule | RateLimits.IsRuleFor(cfg.limits, cfg.text, job, application.providerId, rule)
      ensures RateLimits.BuildWindowCheck(
                rule.limit, RateLimits.Stamps(cfg.text, store.jobs, store.applications, rule.group, false, Some(application.id)),
                rule.windowMs, CLOCK).allowed
    {
      var stamps := RateLimits.Stamps(cfg.text, store.jobs, store.applications, rule.group, false, Some(application.id));
      SubsetSize(RateLimits.Recent(stamps, CLOCK - rule.windowMs), {"A"});
      if rule.group.OfCompany? || rule.group.OfCloneGroup? {
        assert !RateLimits.InGroup(cfg.text, store.jobs, store.applications["A"], rule.group);
        assert stamps == map[];
        assert RateLimits.Recent(stamps, CLOCK - rule.windowMs) == {};
      }
    }
  }

  ghost predicate BothAreQueued(scene: Scene) {
    && scene.executions == map[] && OnlyTwo(scene, QueuedOf("A", "a"), QueuedOf("B", "b"))
    && scene.jobs.Keys == {"a", "b"} && scene.jobs["a"] == JobOfX() && scene.jobs["b"].id == "b"
  }

  lemma PlaySecond() returns (run: Run, last: State)
    ensures Plays(Setting(ONE_A_DAY), Idle(), run, last) && BothAreQueued(SceneOf(last))
  {
    run, last := PlayFirst();
    OtherCompanyIsAllowed(last);
    run, last := PlayApprove(Setting(ONE_A_DAY), Idle(), run, last, "rb", None, 1);
  }

  lemma BothAreOfX(state: State)
    requires BothAreQueued(SceneOf(state)) && state.store.jobs["b"] == JobOfCompany("X")
    ensures |CountedIn(Setting(ONE_A_DAY), state, DAILY, CLOCK)| > DAILY.limit
  {
    assert IsMember(Setting(ONE_A_DAY), state, "A", DAILY.group) && IsMember(Setting(ONE_A_DAY), state, "B", DAILY.group);
    SubsetSize({"A", "B"}, CountedIn(Setting(ONE_A_DAY), state, DAILY, CLOCK));
  }

  /** A run without executions or dates of the caller's that breaks a company's daily limit. */
  lemma ReingestBreaksLimit() returns (run: Run)
    ensures IsRun(Setting(ONE_A_DAY), run.states, run.steps) && IsRule(ONE_A_DAY, DAILY)
    ensures forall i :: 0 <= i < |run.steps| ==>
              NotDatedBack(run.states[i], run.steps[i]) && Undisturbed(Setting(ONE_A_DAY), run.states[i], run.steps[i])
    ensures |CountedIn(Setting(ONE_A_DAY), run.states[|run.steps|], DAILY, CLOCK)| > DAILY.limit
  {
    var last: State;
    run, last := PlaySecond();
    NamesTellApart(ONE_A_DAY, JobOfX(), JobOfCompany("X"));
    run, last := PlayIngest(Setting(ONE_A_DAY), Idle(), run, last, JobOfCompany("X"));
    BothAreOfX(last);
  }

  // Two jobs swap their keys between two calls

  const TEN_OF_EACH := RateLimits.Limits(10, 10, 10, 10)

  function JobNamed(id: string, name: string): Job { JobOf(id, name, None) }

  /** The first job has been submitted, and now the second one has its keys. */
  ghost predicate Swapped(scene: Scene, status: ApplicationStatus) {
    && scene.clock == CLOCK && ShowsNew(scene, JobNamed("b", "a"))
    && "b" in scene.proofs && scene.proofs["b"] == DryRun("b")
    && OnlyTwo(scene, QueuedA(CLOCK).(status := Applying),
               Prepared("B", "b", CLOCK).(status := status, submittedAt := if status == ApplyQueued then Some(CLOCK) else None))
    && "rb" in scene.requests && scene.requests["rb"].terms == TermsFor("B", "b", CLOCK + DAY_MS)
    && |scene.log| > 4 && scene.log[4].SubmitCalled? && scene.log[4].job == JobNamed("a", "a")
  }

  lemma PlaySwapped() returns (run: Run, last: State)
    ensures Plays(Setting(TEN_OF_EACH), Anything(), run, last) && Swapped(SceneOf(last), ApplicationPrepared)
    ensures last.store.book.requests["rb"].status == Approvals.Pending && last.enqueues.Keys == {0}
    ensures last.executions == map[0 := AwaitingSubmit("A", CLOCK)]
  {
    run, last := PlayJustCalled(TEN_OF_EACH, JobNamed("a", "a"), JobNamed("b", "b"), CLOCK, CLOCK + DAY_MS);
    Relax(Setting(TEN_OF_EACH), Proper(), Anything(), run, last);
    NamesTellApart(TEN_OF_EACH, JobNamed("b", "b"), JobNamed("a", "c"));
    run, last := PlayIngest(Setting(TEN_OF_EACH), Anything(), run, last, JobNamed("a", "c"));
    NamesTellApart(TEN_OF_EACH, JobNamed("a", "c"), JobNamed("b", "a"));
    run, last := PlayIngest(Setting(TEN_OF_EACH), Anything(), run, last, JobNamed("b", "a"));
  }

  lemma OneOtherIsAllowed(store: Store, job: Job, now: int)
    requires store.applications.Keys == {"A", "B"} && store.applications["B"].id == "B"
    ensures RateAllowed(Setting(TEN_OF_EACH), store, store.applications["B"], job, now)
  {
    forall cutoff ensures |Others(store, "B", cutoff)| <= 1 {
      SubsetSize(Others(store, "B", cutoff), {"A"});
    }
    FewOthersAreAllowed(Setting(TEN_OF_EACH), store, store.applications["B"], job, now);
  }

  lemma PlaySwappedBegun() returns (run: Run, last: State)
    ensures Plays(Setting(TEN_OF_EACH), Anything(), run, last) && Swapped(SceneOf(last), ApplyQueued)
    ensures 1 in last.executions && last.executions[1] == AwaitingHealth("B", JobNamed("b", "a"), "rb")
  {
    run, last := PlaySwapped();
    OneOtherIsAllowed(last.store, last.store.jobs["b"], CLOCK);
    run, last := PlayApprove(Setting(TEN_OF_EACH), Anything(), run, last, "rb", None, 1);
    run, last := PlayBegin(Setting(TEN_OF_EACH), Anything(), run, last, "rb", 1);
  }

  /** Without the assumption that re-ingested jobs keep their keys, two calls may go to different jobs that share one. */
  lemma SwappedJobsAreBothCalled() returns (run: Run, i: int, j: int)
    ensures IsRun(Setting(TEN_OF_EACH), run.states, run.steps)
    ensures var log := run.states[|run.steps|].log;
            && 0 <= i < j < |log| && log[i].SubmitCalled? && log[j].SubmitCalled?
            && log[i].job.id != log[j].job.id && SameListing(Setting(TEN_OF_EACH).text, log[i].job, log[j].job)
  {
    var last: State;
    run, last := PlaySwappedBegun();
    OneOtherIsAllowed(last.store, JobNamed("b", "a"), CLOCK);
    SendableIsCalled(TEN_OF_EACH, last, "B", JobNamed("b", "a"), 1);
    i, j := 4, |last.log|;
    var draft: ApplicationDraft;
    run, last, draft := PlayCall(Setting(TEN_OF_EACH), Anything(), run, last, 1);
  }
}
