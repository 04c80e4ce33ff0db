/**
 The approval is checked before the health check and not again: when the provider is
 called, the approval may have expired. A call beats the expiry of its approval exactly
 when the clock has not advanced too far since the execution validated its payload.
 */
module SubmitExpiry {
  import opened Common
  import opened Records
  import opened SubmitDedup
  import opened SubmitPolicy
  import opened SubmitWorker
  import opened SubmitProtocol
  import opened SubmitProvenance
  import opened SubmitRuns
  import opened SubmitStage
  import Approvals

  // The second segment does not look at the approvals

  lemma GuardIgnoresBook(
    cfg: Config, store: Store, book: Approvals.Book, application: Application, job: Job, health: ProviderStatus, now: int)
    ensures var other := store.(book := book);
            && SubmitPolicyOf(cfg, other, application, job, health, now) == SubmitPolicyOf(cfg, store, application, job, health, now)
            && (GuardPasses(cfg, other, application, job, health, now) <==> GuardPasses(cfg, store, application, job, health, now))
  {
    assert RateAllowed(cfg, store.(book := book), application, job, now) == RateAllowed(cfg, store, application, job, now);
  }

  /** Whatever has become of every request, the worker decides the same and leaves the same. */
  lemma DecideIgnoresBook(
    cfg: Config, store: Store, book: Approvals.Book, applicationId: string, job: Job, health: ProviderStatus, now: int)
    requires applicationId in store.applications
    ensures var (after, result) := Decide(cfg, store, applicationId, job, health, now);
            Decide(cfg, store.(book := book), applicationId, job, health, now) == (after.(book := book), result)
  {
    GuardIgnoresBook(cfg, store, book, store.applications[applicationId], job, health, now);
  }

  // Where an execution comes from

  function Elapsed(steps: seq<Step>, from: nat, to: nat): nat
    requires from <= to <= |steps|
  {
    if from == to then 0 else Elapsed(steps, from, to - 1) + if steps[to - 1].Tick? then steps[to - 1].elapsed else 0
  }

  lemma StepAdvancesClock(cfg: Config, state: State, step: Step)
    requires Enabled(state, step)
    ensures Apply(cfg, state, step).clock == state.clock + if step.Tick? then step.elapsed else 0
  {
    StepIsFramed(cfg, state, step);
  }

  lemma RunStepAdvancesClock(cfg: Config, states: seq<State>, steps: seq<Step>, i: nat)
    requires IsRun(cfg, states, steps) && i < |steps|
    ensures states[i + 1].clock == states[i].clock + if steps[i].Tick? then steps[i].elapsed else 0
  {
    StepAdvancesClock(cfg, states[i], steps[i]);
  }

  lemma {:induction false} ClockAdvances(cfg: Config, states: seq<State>, steps: seq<Step>, from: nat, to: nat)
    requires IsRun(cfg, states, steps) && from <= to <= |steps|
    ensures states[to].clock == states[from].clock + Elapsed(steps, from, to)
  {
    if from < to {
      ClockAdvances(cfg, states, steps, from, to - 1);
      RunStepAdvancesClock(cfg, states, steps, to - 1);
    }
  }

  lemma RunAdvances(cfg: Config, states: seq<State>, steps: seq<Step>, i: nat, e: nat)
    requires IsRun(cfg, states, steps) && i < |steps| && e in states[i + 1].executions
    ensures Advanced(states[i], states[i + 1], steps[i], e)
  {
    ExecutionsAdvance(cfg, states[i], steps[i], e);
  }

  /** A suspended execution began at some step, and has kept what it read there. */
  lemma {:induction false} SuspendedHasBegun(cfg: Config, states: seq<State>, steps: seq<Step>, n: nat, e: nat) returns (b: nat)
    requires IsRun(cfg, states, steps) && n <= |steps|
    requires e in states[n].executions && states[n].executions[e].AwaitingHealth?
    ensures b < n && HasBegun(states[b], states[b + 1], steps[b], e)
    ensures states[n].executions[e] == states[b + 1].executions[e]
  {
    RunAdvances(cfg, states, steps, n - 1, e);
    if HasBegun(states[n - 1], states[n], steps[n - 1], e) {
      b := n - 1;
    } else {
      b := SuspendedHasBegun(cfg, states, steps, n - 1, e);
    }
  }

  lemma StepKeepsExecutions(cfg: Config, state: State, step: Step, e: nat)
    requires Enabled(state, step) && e in state.executions
    ensures e in Apply(cfg, state, step).executions
  {
    if step.BeginSubmit? {
      assert Apply(cfg, state, step) == BeginStep(cfg, state, step.execution, step.applicationId, step.requestId, step.draftHash);
    } else if step.HealthReturns? {
      assert Apply(cfg, state, step) == HealthReturnsStep(cfg, state, step.execution, step.health);
    } else {
      StepIsFramed(cfg, state, step);
    }
  }

  /** No execution is forgotten on the way to the `k`-th state. */
  predicate ForgetsNothingAt(states: seq<State>, k: nat)
    requires 0 < k < |states|
  {
    states[k - 1].executions.Keys <= states[k].executions.Keys
  }

  lemma RunForgetsNothing(cfg: Config, states: seq<State>, steps: seq<Step>)
    requires IsRun(cfg, states, steps)
    ensures forall k :: 0 < k < |states| ==> ForgetsNothingAt(states, k)
  {
    forall k | 0 < k < |states|
      ensures ForgetsNothingAt(states, k)
    {
      RunStepForgetsNothing(cfg, states, steps, k);
    }
  }

  lemma RunStepForgetsNothing(cfg: Config, states: seq<State>, steps: seq<Step>, k: nat)
    requires IsRun(cfg, states, steps) && 0 < k < |states|
    ensures ForgetsNothingAt(states, k)
  {
    var before, step := states[k - 1], steps[k - 1];
    assert Enabled(before, step) && states[k] == Apply(cfg, before, step);
    forall e | e in before.executions
      ensures e in states[k].executions
    {
      StepKeepsExecutions(cfg, before, step, e);
    }
  }

  lemma {:induction false} ExecutionsStay(states: seq<State>, i: nat, j: nat, e: nat)
    requires forall k :: 0 < k < |states| ==> ForgetsNothingAt(states, k)
    requires i <= j < |states| && e in states[i].executions
    ensures e in states[j].executions
  {
    if i < j {
      ExecutionsStay(states, i, j - 1, e);
      assert ForgetsNothingAt(states, j);
    }
  }

  /** An execution begins once. */
  lemma BeginsOnce(cfg: Config, states: seq<State>, steps: seq<Step>, b: nat, c: nat, e: nat)
    requires IsRun(cfg, states, steps) && b < |steps| && c < |steps|
    requires HasBegun(states[b], states[b + 1], steps[b], e) && HasBegun(states[c], states[c + 1], steps[c], e)
    ensures b == c
  {
    RunForgetsNothing(cfg, states, steps);
    if b < c {
      ExecutionsStay(states, b + 1, c, e);
    } else if c < b {
      ExecutionsStay(states, c + 1, b, e);
    }
  }

  predicate HasTerms(state: State, id: string, terms: Approvals.Terms) {
    id in state.store.book.requests && state.store.book.requests[id].terms == terms
  }

  predicate KeepsTermsAt(states: seq<State>, k: nat, id: string, terms: Approvals.Terms)
    requires 0 < k < |states|
  {
    HasTerms(states[k - 1], id, terms) ==> HasTerms(states[k], id, terms)
  }

  lemma RunKeepsTerms(cfg: Config, states: seq<State>, steps: seq<Step>, id: string, terms: Approvals.Terms)
    requires IsRun(cfg, states, steps)
    ensures forall k :: 0 < k < |states| ==> KeepsTermsAt(states, k, id, terms)
  {
    forall k | 0 < k < |states|
      ensures KeepsTermsAt(states, k, id, terms)
    {
      StepGrows(cfg, states, steps, k - 1);
    }
  }

  lemma {:induction false} TermsStay(states: seq<State>, i: nat, j: nat, id: string, terms: Approvals.Terms)
    requires forall k :: 0 < k < |states| ==> KeepsTermsAt(states, k, id, terms)
    requires i <= j < |states| && HasTerms(states[i], id, terms)
    ensures HasTerms(states[j], id, terms)
  {
    if i < j {
      TermsStay(states, i, j - 1, id, terms);
      assert KeepsTermsAt(states, j, id, terms);
    }
  }

  // When a call beats the expiry of its approval

  /**
   For every run: the execution behind a logged call began at just one earlier step, with a request
   that was unexpired then. The call is made before that request's expiry exactly when the clock
   has advanced since by less than the request had left, and it is late by less than that advance.
   */
  lemma CallBeatsExpiryExactlyWhen(cfg: Config, states: seq<State>, steps: seq<Step>, b: nat, m: nat)
    requires IsRun(cfg, states, steps) && b < |steps| && m < |steps|
    requires LogsCall(states[m], states[m + 1])
    requires HasBegun(states[b], states[b + 1], steps[b], states[m + 1].log[|states[m].log|].execution)
    ensures b < m && steps[b].requestId.Some? && steps[b].requestId.value in states[m].store.book.requests
    ensures var call := states[m + 1].log[|states[m].log|];
            var terms := states[m].store.book.requests[steps[b].requestId.value].terms;
            && steps[b].applicationId == call.applicationId == terms.entityId
            && (call.at < terms.expiresAt <==> Elapsed(steps, b, m) < terms.expiresAt - states[b].clock)
            && call.at < terms.expiresAt + Elapsed(steps, b, m)
  {
    var call := states[m + 1].log[|states[m].log|];
    RunConforms(cfg, states, steps, m);
    NewCallIsSubmitted(states[m], states[m + 1], steps[m], |states[m].log|);
    var c := SuspendedHasBegun(cfg, states, steps, m, call.execution);
    BeginsOnce(cfg, states, steps, b, c, call.execution);
    ClockAdvances(cfg, states, steps, b, m);
    var request := steps[b].requestId.value;
    var terms := states[b].store.book.requests[request].terms;
    RunKeepsTerms(cfg, states, steps, request, terms);
    TermsStay(states, b, m, request, terms);
    RunsAreWellFormed(cfg, states, steps, b);
  }

  /** There is such an earlier step for every logged call. */
  lemma CallHasBegun(cfg: Config, states: seq<State>, steps: seq<Step>, m: nat) returns (b: nat)
    requires IsRun(cfg, states, steps) && m < |steps| && LogsCall(states[m], states[m + 1])
    ensures b < m && HasBegun(states[b], states[b + 1], steps[b], states[m + 1].log[|states[m].log|].execution)
  {
    RunConforms(cfg, states, steps, m);
    NewCallIsSubmitted(states[m], states[m + 1], steps[m], |states[m].log|);
    b := SuspendedHasBegun(cfg, states, steps, m, states[m + 1].log[|states[m].log|].execution);
  }

  // Runs with late calls

  /** What may happen to the approvals while the health check is awaited. */
  datatype Aside = Nothing | Sweep | Rejection

  /** The execution still awaits its health check, `wait` after its request was approved for `lifetime`. */
  ghost predicate StillWaiting(scene: Scene, lifetime: int, wait: int, status: Approvals.Status) {
    && scene.clock == wait && scene.executions == map[0 := AwaitingHealth("A", JobA(), "ra")]
    && OnlyTwo(scene, QueuedA(CLOCK), Prepared("B", "b", CLOCK))
    && "a" in scene.jobs && scene.jobs["a"] == JobA() && "a" in scene.scores && scene.scores["a"]
    && "a" in scene.decisions && scene.decisions["a"] == New && scene.mode == FullAutoApply
    && "a" in scene.proofs && scene.proofs["a"] == DryRun("a")
    && scene.requests.Keys == {"ra", "rb"}
    && scene.requests["ra"].terms == TermsFor("A", "a", lifetime) && scene.requests["ra"].status == status
  }

  lemma BegunIsStillWaiting(lifetime: nat, wait: nat, approvals: nat)
    ensures var scene := FirstBegun(JobA(), JobB(), CLOCK, lifetime, approvals).(clock := CLOCK + wait);
            StillWaiting(scene, lifetime, wait, Approvals.Approved) && scene.requests["rb"] == PendingFor("B", "b", lifetime, CLOCK)
  {}

  lemma PlayWait(lifetime: nat, wait: nat) returns (run: Run, last: State)
    requires 0 < lifetime <= wait
    ensures Plays(Setting(LIMITS), Anything(), run, last) && StillWaiting(SceneOf(last), lifetime, wait, Approvals.Approved)
    ensures last.store.book.requests["rb"] == PendingFor("B", "b", lifetime, CLOCK)
  {
    run, last := PlayFirstBegun(LIMITS, JobA(), JobB(), CLOCK, lifetime);
    Relax(Setting(LIMITS), Proper(), Anything(), run, last);
    BegunIsStillWaiting(lifetime, wait, |last.approvals|);
    run, last := PlayTick(Setting(LIMITS), Anything(), run, last, wait);
  }

  /** A sweep at the clock: the other request expires, the approved one is not pending and stays approved. */
  lemma PlaySweep(start: Run, state: State, lifetime: nat, wait: nat) returns (run: Run, last: State)
    requires Plays(Setting(LIMITS), Anything(), start, state) && StillWaiting(SceneOf(state), lifetime, wait, Approvals.Approved)
    requires lifetime <= wait && state.store.book.requests["rb"] == PendingFor("B", "b", lifetime, CLOCK)
    ensures Plays(Setting(LIMITS), Anything(), run, last) && StillWaiting(SceneOf(last), lifetime, wait, Approvals.Approved)
    ensures run.steps == start.steps + [ExpireApprovals(wait, ["rb"])]
    ensures last.store.book.requests["rb"].status == Approvals.Expired
  {
    var swept := ExpireApprovals(wait, ["rb"]);
    assert Approvals.OverdueOrder(state.store.book, wait, ["rb"]);
    run := PlayOn(Setting(LIMITS), Anything(), start, state, swept);
    last := Apply(Setting(LIMITS), state, swept);
    var expired := Approvals.SetStatus(state.store.book, "rb", Approvals.Expired, wait);
    assert Approvals.ExpireInOrder(expired, wait, []) == expired;
    assert ["rb"][1..] == [];
  }

  /** Somebody rejects the approved request; it is overdue, so it expires. */
  lemma PlayRejection(start: Run, state: State, lifetime: nat, wait: nat) returns (run: Run, last: State)
    requires Plays(Setting(LIMITS), Anything(), start, state) && StillWaiting(SceneOf(state), lifetime, wait, Approvals.Approved)
    requires lifetime <= wait
    ensures Plays(Setting(LIMITS), Anything(), run, last) && StillWaiting(SceneOf(last), lifetime, wait, Approvals.Expired)
    ensures run.steps == start.steps + [ResolveElsewhere("ra", Approvals.Reject, Some(HashFor("A", "a")), wait)]
  {
    var rejected := ResolveElsewhere("ra", Approvals.Reject, Some(HashFor("A", "a")), wait);
    run := PlayOn(Setting(LIMITS), Anything(), start, state, rejected);
    last := Apply(Setting(LIMITS), state, rejected);
  }

  function StatusAfter(aside: Aside): Approvals.Status {
    if aside.Rejection? then Approvals.Expired else Approvals.Approved
  }

  lemma PlayAside(lifetime: nat, wait: nat, aside: Aside) returns (run: Run, last: State)
    requires 0 < lifetime <= wait
    ensures Plays(Setting(LIMITS), Anything(), run, last) && StillWaiting(SceneOf(last), lifetime, wait, StatusAfter(aside))
    ensures aside.Sweep? ==> last.store.book.requests["rb"].status == Approvals.Expired
  {
    run, last := PlayWait(lifetime, wait);
    match aside
    case Nothing =>
    case Sweep => run, last := PlaySweep(run, last, lifetime, wait);
    case Rejection => run, last := PlayRejection(run, last, lifetime, wait);
  }

  lemma WaitingCanBeCalled(state: State, lifetime: int, wait: int, status: Approvals.Status)
    requires StillWaiting(SceneOf(state), lifetime, wait, status)
    requires HasFreshPassedCanary(state.store.canaries, "p", wait)
    ensures CanCall(Setting(LIMITS), state, 0)
  {
    SendableAlone(LIMITS, state, "A", JobA(), 0);
  }

  /**
   For every lifetime of an approval and every longer wait, a run that calls the provider after
   the expiry: undisturbed, past a sweep that expires every overdue pending request, and even
   after the approval itself has been marked expired.
   */
  lemma ExpiredApprovalIsSubmitted(lifetime: nat, wait: nat, aside: Aside) returns (run: Run)
    requires 0 < lifetime <= wait
    ensures IsRun(Setting(LIMITS), run.states, run.steps)
    ensures var last := run.states[|run.steps|];
            && |last.log| > 0 && last.log[|last.log| - 1].SubmitCalled?
            && last.log[|last.log| - 1].applicationId == "A" && last.log[|last.log| - 1].at == wait
            && last.store.book.requests.Keys == {"ra", "rb"}
            && last.store.book.requests["ra"].terms == TermsFor("A", "a", lifetime)
            && last.store.book.requests["ra"].status == StatusAfter(aside)
            && (aside.Sweep? ==> last.store.book.requests["rb"].status == Approvals.Expired)
  {
    var waiting, ready, last: State;
    run, waiting := PlayAside(lifetime, wait, aside);
    var canary := CanaryRun("p", true, wait);
    run, ready := PlayCanary(Setting(LIMITS), Anything(), run, waiting, canary);
    assert ready.store.canaries[|ready.store.canaries| - 1] == canary;
    WaitingCanBeCalled(ready, lifetime, wait, StatusAfter(aside));
    var draft: ApplicationDraft;
    run, last, draft := PlayCall(Setting(LIMITS), Anything(), run, ready, 0);
  }
}
