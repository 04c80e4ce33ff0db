/**
 Why the rate theorem asks that no queued submit is dated back: the API dates it by the
 clock in the request body, but checks the limits against its own. However little one call
 dates its submit back, it can put one application too many into an hour.
 */
module SubmitBackdating {
  import opened Common
  import opened Records
  import opened Sets
  import opened SubmitWorker
  import opened SubmitProtocol
  import opened SubmitRates
  import opened SubmitRuns
  import opened SubmitStage
  import Approvals
  import RateLimits

  /** The hourly limit is the smallest. */
  predicate HourIsTightest(limits: RateLimits.Limits) {
    && 0 < limits.applicationsPerHour < limits.applicationsPerDay
    && limits.applicationsPerHour < limits.maxPerCompanyPerDay && limits.applicationsPerHour < limits.maxPerCompanyPerWeek
  }

  // As many applications as one likes

  function Label(k: nat): string {
    seq(k + 1, _ => 'x')
  }

  function Labels(n: nat): set<string> {
    set k | 0 <= k < n :: Label(k)
  }

  lemma LabelsDiffer(j: nat, k: nat)
    requires j != k
    ensures Label(j) != Label(k)
  {
    assert |Label(j)| == j + 1 && |Label(k)| == k + 1;
  }

  lemma {:induction false} CountLabels(n: nat)
    ensures |Labels(n)| == n
  {
    if n == 0 {
      assert Labels(0) == {};
    } else {
      CountLabels(n - 1);
      forall k | 0 <= k < n - 1 ensures Label(k) != Label(n - 1) {
        LabelsDiffer(k, n - 1);
      }
      assert Labels(n) == Labels(n - 1) + {Label(n - 1)};
    }
  }

  function JobJ(): Job { JobOf("j", "j", None) }

  function QueuedAt(k: nat, date: int): Application {
    Prepared(Label(k), "j", 0).(status := ApplyQueued, submittedAt := Some(date))
  }

  /** The `k`-th application and its request; it has been approved at the epoch if it is one of the first `queued`. */
  predicate InCrowd(scene: Scene, k: nat, queued: nat, expiresAt: int) {
    && Label(k) in scene.applications
    && scene.applications[Label(k)] == (if k < queued then QueuedAt(k, 0) else Prepared(Label(k), "j", 0))
    && Label(k) in scene.requests && scene.requests[Label(k)].terms == TermsFor(Label(k), "j", expiresAt)
    && (queued <= k ==> scene.requests[Label(k)].status == Approvals.Pending)
  }

  /** `n` applications for one job, each with a request, and nothing else. */
  ghost predicate Crowd(scene: Scene, n: nat, queued: nat, expiresAt: int) {
    && scene.executions == map[] && "j" in scene.jobs
    && scene.applications.Keys == Labels(n) && scene.requests.Keys == Labels(n)
    && (forall k :: 0 <= k < n ==> InCrowd(scene, k, queued, expiresAt))
    && forall t :: t in scene.enqueues ==> t < queued
  }

  /** A new job, no executions, and no date before the clock but by exactly `back`. */
  function DatesBackBy(back: int): Discipline {
    (state: State, step: Step) =>
      && state.executions == map[] && (step.IngestJob? ==> step.job.id !in state.store.jobs)
      && (NotDatedBack(state, step) || (step.ApiResolve? && step.bodyNow == Some(state.clock - back)))
  }

  lemma PlayEmptyCrowd(limits: RateLimits.Limits, back: int, expiresAt: int) returns (run: Run, last: State)
    ensures Plays(Setting(limits), DatesBackBy(back), run, last) && Crowd(SceneOf(last), 0, 0, expiresAt) && last.clock == 0
  {
    last := Initial(0, FullAutoApply);
    run, last := PlayIngest(Setting(limits), DatesBackBy(back), Run([last], []), last, JobJ());
    assert Labels(0) == {};
  }

  lemma LabelIsNew(k: nat)
    ensures Label(k) !in Labels(k)
  {
    forall j | 0 <= j < k ensures Label(j) != Label(k) {
      LabelsDiffer(j, k);
    }
  }

  lemma OneMoreLabel(k: nat)
    ensures Labels(k + 1) == Labels(k) + {Label(k)}
  {}

  /** What one more application and request make of a crowd. */
  function OneMore(scene: Scene, k: nat, expiresAt: int): Scene {
    WithRequest(WithApplication(scene, Prepared(Label(k), "j", 0)), Label(k), TermsFor(Label(k), "j", expiresAt))
  }

  lemma OneMoreCrowds(scene: Scene, k: nat, expiresAt: int)
    requires Crowd(scene, k, 0, expiresAt) && scene.clock == 0
    ensures Crowd(OneMore(scene, k, expiresAt), k + 1, 0, expiresAt)
  {
    OneMoreLabel(k);
    LabelIsNew(k);
    forall j | 0 <= j < k
      ensures InCrowd(OneMore(scene, k, expiresAt), j, 0, expiresAt)
    {
      assert InCrowd(scene, j, 0, expiresAt);
      LabelsDiffer(j, k);
    }
  }

  lemma AllOthersDiffer(scene: Scene, k: nat, expiresAt: int)
    requires Crowd(scene, k, 0, expiresAt)
    ensures forall x :: x in scene.applications ==> scene.applications[x].idempotencyKey != Label(k)
    ensures forall x :: x in scene.requests ==> scene.requests[x].terms.entityId != Label(k)
  {
    forall x | x in Labels(k)
      ensures scene.applications[x].idempotencyKey != Label(k) && scene.requests[x].terms.entityId != Label(k)
    {
      var j :| 0 <= j < k && Label(j) == x;
      assert InCrowd(scene, j, 0, expiresAt);
      LabelsDiffer(j, k);
    }
  }

  lemma PlayOneMore(limits: RateLimits.Limits, back: int, start: Run, state: State, k: nat, expiresAt: int) returns (run: Run, last: State)
    requires Plays(Setting(limits), DatesBackBy(back), start, state) && Crowd(SceneOf(state), k, 0, expiresAt) && state.clock == 0
    ensures Plays(Setting(limits), DatesBackBy(back), run, last) && SceneOf(last) == OneMore(SceneOf(state), k, expiresAt)
  {
    LabelIsNew(k);
    AllOthersDiffer(SceneOf(state), k, expiresAt);
    run, last := PlayCreate(Setting(limits), DatesBackBy(back), start, state, Prepared(Label(k), "j", 0));
    run, last := PlayRequest(Setting(limits), DatesBackBy(back), run, last, Label(k), TermsFor(Label(k), "j", expiresAt));
  }

  lemma {:induction false} PlayCrowd(limits: RateLimits.Limits, back: int, n: nat, expiresAt: int) returns (run: Run, last: State)
    ensures Plays(Setting(limits), DatesBackBy(back), run, last) && Crowd(SceneOf(last), n, 0, expiresAt) && last.clock == 0
  {
    if n == 0 {
      run, last := PlayEmptyCrowd(limits, back, expiresAt);
    } else {
      var less: State;
      run, less := PlayCrowd(limits, back, n - 1, expiresAt);
      run, last := PlayOneMore(limits, back, run, less, n - 1, expiresAt);
      OneMoreCrowds(SceneOf(less), n - 1, expiresAt);
    }
  }

  // Filling the hour

  lemma OthersAreQueued(state: State, n: nat, queued: nat, expiresAt: int, id: string, cutoff: int)
    requires Crowd(SceneOf(state), n, queued, expiresAt)
    ensures |Others(state.store, id, cutoff)| <= queued
    ensures 0 <= cutoff ==> Others(state.store, id, cutoff) == {}
  {
    forall x | x in Others(state.store, id, cutoff)
      ensures x in Labels(queued) && cutoff < 0
    {
      var k :| 0 <= k < n && Label(k) == x;
      assert InCrowd(SceneOf(state), k, queued, expiresAt);
    }
    SubsetSize(Others(state.store, id, cutoff), Labels(queued));
    CountLabels(queued);
  }

  lemma NextCanBeApproved(limits: RateLimits.Limits, state: State, n: nat, queued: nat, expiresAt: int, bodyNow: Option<int>)
    requires HourIsTightest(limits) && queued < n && Crowd(SceneOf(state), n, queued, expiresAt)
    requires queued < limits.applicationsPerHour || (queued == limits.applicationsPerHour && HOUR_MS <= state.clock)
    requires bodyNow.GetOr(state.clock) < expiresAt && state.clock < expiresAt
    ensures CanApprove(Setting(limits), state, Label(queued), bodyNow)
  {
    var id := Label(queued);
    assert InCrowd(SceneOf(state), queued, queued, expiresAt);
    OthersAreQueued(state, n, queued, expiresAt, id, state.clock - HOUR_MS);
    OthersAreQueued(state, n, queued, expiresAt, id, state.clock - DAY_MS);
    OthersAreQueued(state, n, queued, expiresAt, id, state.clock - WEEK_MS);
    FewOthersAreAllowed(Setting(limits), state.store, state.store.applications[id], state.store.jobs["j"], state.clock);
  }

  lemma ApprovalCrowds(scene: Scene, n: nat, queued: nat, expiresAt: int)
    requires queued < n && Crowd(scene, n, queued, expiresAt) && InCrowd(scene, queued, queued, expiresAt)
    ensures Crowd(WithApproval(scene, Label(queued), 0, queued), n, queued + 1, expiresAt)
  {
    forall k | 0 <= k < n && k != queued ensures Label(k) != Label(queued) {
      LabelsDiffer(k, queued);
    }
    assert Label(queued) in Labels(n) && InCrowd(scene, queued, queued, expiresAt);
    var next, more := WithApproval(scene, Label(queued), 0, queued), queued + 1;
    forall k | 0 <= k < n
      ensures InCrowd(next, k, more, expiresAt)
    {
      assert InCrowd(scene, k, queued, expiresAt);
    }
  }

  lemma PlayNext(limits: RateLimits.Limits, back: int, start: Run, state: State, n: nat, queued: nat, expiresAt: int)
    returns (run: Run, last: State)
    requires HourIsTightest(limits) && queued < n && queued < limits.applicationsPerHour && 0 < expiresAt
    requires Plays(Setting(limits), DatesBackBy(back), start, state) && Crowd(SceneOf(state), n, queued, expiresAt) && state.clock == 0
    ensures Plays(Setting(limits), DatesBackBy(back), run, last)
    ensures Crowd(SceneOf(last), n, queued + 1, expiresAt) && last.clock == 0
  {
    NextCanBeApproved(limits, state, n, queued, expiresAt, None);
    assert InCrowd(SceneOf(state), queued, queued, expiresAt);
    run, last := PlayApprove(Setting(limits), DatesBackBy(back), start, state, Label(queued), None, queued);
    ApprovalCrowds(SceneOf(state), n, queued, expiresAt);
  }

  lemma {:induction false} PlayFullHour(limits: RateLimits.Limits, back: int, n: nat, queued: nat, expiresAt: int)
    returns (run: Run, last: State)
    requires HourIsTightest(limits) && queued < n && queued <= limits.applicationsPerHour && 0 < expiresAt
    ensures Plays(Setting(limits), DatesBackBy(back), run, last) && Crowd(SceneOf(last), n, queued, expiresAt) && last.clock == 0
    decreases queued
  {
    if queued == 0 {
      run, last := PlayCrowd(limits, back, n, expiresAt);
    } else {
      var less: State;
      run, less := PlayFullHour(limits, back, n, queued - 1, expiresAt);
      run, last := PlayNext(limits, back, run, less, n, queued - 1, expiresAt);
    }
  }

  // One more, dated back

  /** When the hour has passed, and at least `back` with it. */
  function Later(back: nat): int {
    if back <= HOUR_MS then HOUR_MS else back
  }

  lemma CrowdWaits(scene: Scene, n: nat, queued: nat, expiresAt: int, clock: int)
    requires Crowd(scene, n, queued, expiresAt)
    ensures Crowd(scene.(clock := clock), n, queued, expiresAt)
  {
    forall k | 0 <= k < n
      ensures InCrowd(scene.(clock := clock), k, queued, expiresAt)
    {
      assert InCrowd(scene, k, queued, expiresAt);
    }
  }

  lemma PlayLater(limits: RateLimits.Limits, back: nat, expiresAt: int) returns (run: Run, last: State)
    requires HourIsTightest(limits) && 0 < expiresAt
    ensures Plays(Setting(limits), DatesBackBy(back), run, last) && last.clock == Later(back)
    ensures Crowd(SceneOf(last), limits.applicationsPerHour + 1, limits.applicationsPerHour, expiresAt)
  {
    var full: State;
    run, full := PlayFullHour(limits, back, limits.applicationsPerHour + 1, limits.applicationsPerHour, expiresAt);
    run, last := PlayTick(Setting(limits), DatesBackBy(back), run, full, Later(back));
    CrowdWaits(SceneOf(full), limits.applicationsPerHour + 1, limits.applicationsPerHour, expiresAt, Later(back));
  }

  /** The last application is dated `date`, all others at the epoch. */
  ghost predicate OneTooMany(state: State, n: nat, date: int) {
    forall k :: 0 <= k <= n ==>
      && Label(k) in state.store.applications && state.store.applications[Label(k)].status == ApplyQueued
      && state.store.applications[Label(k)].submittedAt == Some(if k < n then 0 else date)
  }

  lemma LastOneQueued(before: State, after: State, n: nat, expiresAt: int, date: int)
    requires Crowd(SceneOf(before), n + 1, n, expiresAt)
    requires after.store.applications
          == before.store.applications[Label(n) := before.store.applications[Label(n)].(status := ApplyQueued, submittedAt := Some(date))]
    ensures OneTooMany(after, n, date)
  {
    forall k | 0 <= k <= n
      ensures && Label(k) in after.store.applications && after.store.applications[Label(k)].status == ApplyQueued
              && after.store.applications[Label(k)].submittedAt == Some(if k < n then 0 else date)
    {
      assert InCrowd(SceneOf(before), k, n, expiresAt);
      if k < n { LabelsDiffer(k, n); }
    }
  }

  lemma PlayOneTooMany(limits: RateLimits.Limits, back: nat) returns (run: Run, last: State)
    requires HourIsTightest(limits) && 0 < back
    ensures Plays(Setting(limits), DatesBackBy(back), run, last)
    ensures OneTooMany(last, limits.applicationsPerHour, Later(back) - back)
  {
    var n, expiresAt := limits.applicationsPerHour, HOUR_MS + back + 1;
    var full: State;
    run, full := PlayLater(limits, back, expiresAt);
    assert InCrowd(SceneOf(full), n, n, expiresAt);
    NextCanBeApproved(limits, full, n + 1, n, expiresAt, Some(Later(back) - back));
    run, last := PlayApprove(Setting(limits), DatesBackBy(back), run, full, Label(n), Some(Later(back) - back), n);
    LastOneQueued(full, last, n, expiresAt, Later(back) - back);
  }

  lemma IdleIsUndisturbed(cfg: Config, state: State, step: Step)
    requires Enabled(state, step) && state.executions == map[]
    ensures Undisturbed(cfg, state, step)
  {}

  /**
   For every hourly limit below the others and every amount of time: a run that keeps every
   assumption of the rate theorem but for one approving call, dated back by just that amount.
   */
  lemma AnyBackdatingBreaksLimit(limits: RateLimits.Limits, back: nat) returns (run: Run, rule: RateLimits.Rule)
    requires HourIsTightest(limits) && 0 < back
    ensures IsRun(Setting(limits), run.states, run.steps) && IsRule(limits, rule)
    ensures forall i :: 0 <= i < |run.steps| ==>
              && KeepsGroup(Setting(limits), run.states[i], run.steps[i], rule.group)
              && Undisturbed(Setting(limits), run.states[i], run.steps[i])
              && (NotDatedBack(run.states[i], run.steps[i])
                  || (run.steps[i].ApiResolve? && run.steps[i].bodyNow == Some(run.states[i].clock - back)))
    ensures |CountedIn(Setting(limits), run.states[|run.steps|], rule, Later(back) - back)| > rule.limit
  {
    rule := RateLimits.Rule(limits.applicationsPerHour, HOUR_MS, RateLimits.Everything);
    var last: State;
    run, last := PlayOneTooMany(limits, back);
    forall i | 0 <= i < |run.steps|
      ensures Undisturbed(Setting(limits), run.states[i], run.steps[i])
    {
      IdleIsUndisturbed(Setting(limits), run.states[i], run.steps[i]);
    }
    SubsetSize(Labels(limits.applicationsPerHour + 1), CountedIn(Setting(limits), last, rule, Later(back) - back));
    CountLabels(limits.applicationsPerHour + 1);
  }
}
