/**
 No submit without a new approval: however executions, retries, provider failures and
 approving calls interleave, between two provider calls for one application somebody
 queued it again, and the calls never outnumber the times it became ready.
 */
module SubmitOnce {
  import opened SubmitWorker
  import opened SubmitProtocol

  predicate CallsFor(log: seq<Event>, i: int, id: string) {
    0 <= i < |log| && log[i].SubmitCalled? && log[i].applicationId == id
  }

  ghost predicate QueuedBetween(log: seq<Event>, i: int, j: int, id: string) {
    exists k :: i < k < j && 0 <= k < |log| && log[k].Queued? && log[k].applicationId == id
  }

  predicate IsReady(state: State, id: string) {
    id in state.store.applications && Ready(state.store.applications[id].status)
  }

  /** A call is followed by a queueing before the next call, and before the application is ready again. */
  ghost predicate CallsAreSeparated(state: State, id: string) {
    && (forall i, j :: i < j && CallsFor(state.log, i, id) && CallsFor(state.log, j, id) ==> QueuedBetween(state.log, i, j, id))
    && (IsReady(state, id) ==> forall i :: CallsFor(state.log, i, id) ==> QueuedBetween(state.log, i, |state.log|, id))
    && (id !in state.store.applications ==> forall i :: !CallsFor(state.log, i, id))
  }

  lemma LongerLogKeepsBetween(log: seq<Event>, longer: seq<Event>, i: int, j: int, id: string)
    requires log <= longer && j <= |log| && QueuedBetween(log, i, j, id)
    ensures QueuedBetween(longer, i, j, id)
  {}

  lemma QuietKeepsCalls(before: State, after: State, id: string)
    requires Quiet(before, after, id) && CallsAreSeparated(before, id)
    requires IsReady(after, id) ==> IsReady(before, id)
    requires id !in after.store.applications ==> id !in before.store.applications
    ensures CallsAreSeparated(after, id)
  {
    assert before.log <= after.log;
    assert forall i :: CallsFor(after.log, i, id) ==> CallsFor(before.log, i, id);
    forall i, j | i < j && CallsFor(after.log, i, id) && CallsFor(after.log, j, id)
      ensures QueuedBetween(after.log, i, j, id)
    {
      LongerLogKeepsBetween(before.log, after.log, i, j, id);
    }
    if IsReady(after, id) {
      forall i | CallsFor(after.log, i, id)
        ensures QueuedBetween(after.log, i, |after.log|, id)
      {
        LongerLogKeepsBetween(before.log, after.log, i, |before.log|, id);
      }
    }
  }

  lemma QueueingKeepsCalls(before: State, after: State, event: Event, id: string)
    requires after.log == before.log + [event] && event.Queued? && event.applicationId == id
    requires id in after.store.applications && CallsAreSeparated(before, id)
    ensures CallsAreSeparated(after, id)
  {
    assert after.log[|before.log|] == event;
    forall i, j | i < j && CallsFor(after.log, i, id) && CallsFor(after.log, j, id)
      ensures QueuedBetween(after.log, i, j, id)
    {
      assert CallsFor(before.log, i, id) && CallsFor(before.log, j, id);
      LongerLogKeepsBetween(before.log, after.log, i, j, id);
    }
  }

  /** A created, called or answered application: the event is no queueing, and only a ready one is called. */
  lemma EventKeepsCalls(before: State, after: State, event: Event, id: string)
    requires after.log == before.log + [event] && !event.Queued?
    requires id in after.store.applications && CallsAreSeparated(before, id)
    requires event.SubmitCalled? ==> event.applicationId == id && IsReady(before, id)
    requires IsReady(after, id) ==> id !in before.store.applications && !event.SubmitCalled?
    ensures CallsAreSeparated(after, id)
  {
    forall i, j | i < j && CallsFor(after.log, i, id) && CallsFor(after.log, j, id)
      ensures QueuedBetween(after.log, i, j, id)
    {
      assert CallsFor(before.log, i, id);
      LongerLogKeepsBetween(before.log, after.log, i, j, id);
    }
    assert IsReady(after, id) ==> forall i :: CallsFor(after.log, i, id) ==> CallsFor(before.log, i, id);
  }

  lemma StepSeparatesCalls(before: State, after: State, step: Step, id: string)
    requires Classified(before, after, step, id) && CallsAreSeparated(before, id)
    ensures CallsAreSeparated(after, id)
  {
    if Untouched(before, after, id) || IsStopped(before, after, step, id) {
      QuietKeepsCalls(before, after, id);
    } else if IsQueued(before, after, step, id) {
      QueueingKeepsCalls(before, after, after.log[|before.log|], id);
    } else {
      EventKeepsCalls(before, after, after.log[|before.log|], id);
    }
  }

  lemma {:induction false} RunSeparatesCalls(cfg: Config, states: seq<State>, steps: seq<Step>, n: nat, id: string)
    requires IsRun(cfg, states, steps) && n <= |steps|
    ensures CallsAreSeparated(states[n], id)
  {
    if n > 0 {
      RunSeparatesCalls(cfg, states, steps, n - 1, id);
      RunConforms(cfg, states, steps, n - 1);
      assert Classified(states[n - 1], states[n], steps[n - 1], id);
      StepSeparatesCalls(states[n - 1], states[n], steps[n - 1], id);
    }
  }

  /** Between any two provider calls for one application, an approving call queued it again. */
  lemma NoResubmitWithoutNewApproval(cfg: Config, states: seq<State>, steps: seq<Step>, n: nat, id: string, i: int, j: int)
    requires IsRun(cfg, states, steps) && n <= |steps|
    requires i < j && CallsFor(states[n].log, i, id) && CallsFor(states[n].log, j, id)
    ensures QueuedBetween(states[n].log, i, j, id)
  {
    RunSeparatesCalls(cfg, states, steps, n, id);
  }

  // Counting

  predicate IsCall(event: Event, id: string) {
    event.SubmitCalled? && event.applicationId == id
  }

  /** The application became ready: created so, or queued when it was not. */
  predicate IsEntry(event: Event, id: string) {
    || (event.Created? && event.applicationId == id && event.ready)
    || (event.Queued? && event.applicationId == id && event.entered)
  }

  function Calls(log: seq<Event>, id: string): nat {
    if log == [] then 0 else Calls(log[..|log| - 1], id) + if IsCall(log[|log| - 1], id) then 1 else 0
  }

  function Entries(log: seq<Event>, id: string): nat {
    if log == [] then 0 else Entries(log[..|log| - 1], id) + if IsEntry(log[|log| - 1], id) then 1 else 0
  }

  lemma CountAppend(log: seq<Event>, event: Event, id: string)
    ensures Calls(log + [event], id) == Calls(log, id) + if IsCall(event, id) then 1 else 0
    ensures Entries(log + [event], id) == Entries(log, id) + if IsEntry(event, id) then 1 else 0
  {}

  /** Every entry not yet spent on a call is visible: the application is ready, or the chance was lost. */
  predicate CallsAreCovered(state: State, id: string) {
    Calls(state.log, id) + (if IsReady(state, id) then 1 else 0) <= Entries(state.log, id)
  }

  lemma EventKeepsCover(before: State, after: State, event: Event, id: string)
    requires after.log == before.log + [event] && CallsAreCovered(before, id)
    requires IsCall(event, id) ==> IsReady(before, id) && !IsReady(after, id)
    requires IsReady(after, id) && !IsReady(before, id) ==> IsEntry(event, id)
    ensures CallsAreCovered(after, id)
  {}

  lemma StepCoversCalls(before: State, after: State, step: Step, id: string)
    requires Classified(before, after, step, id) && CallsAreCovered(before, id)
    ensures CallsAreCovered(after, id)
  {
    if Untouched(before, after, id) || IsStopped(before, after, step, id) {
      QuietKeepsCounts(before, after, id);
    } else {
      EventKeepsCover(before, after, after.log[|before.log|], id);
    }
  }

  lemma QuietKeepsCounts(before: State, after: State, id: string)
    requires Quiet(before, after, id)
    ensures Calls(after.log, id) == Calls(before.log, id) && Entries(after.log, id) == Entries(before.log, id)
  {}

  /** The provider is never called more often than the application entered `application_prepared` or `apply_queued`. */
  lemma {:induction false} CallsNeverExceedEntries(cfg: Config, states: seq<State>, steps: seq<Step>, n: nat, id: string)
    requires IsRun(cfg, states, steps) && n <= |steps|
    ensures Calls(states[n].log, id) + (if IsReady(states[n], id) then 1 else 0) <= Entries(states[n].log, id)
  {
    if n > 0 {
      CallsNeverExceedEntries(cfg, states, steps, n - 1, id);
      assert CallsAreCovered(states[n - 1], id);
      RunConforms(cfg, states, steps, n - 1);
      StepCoversCalls(states[n - 1], states[n], steps[n - 1], id);
    }
  }
}
