/**
 Rate limits over whole runs: if no queued submit is dated back, no re-ingested job joins
 the limit's group and every unanswered provider call keeps its application counted, then
 every window of the limit, wherever it is placed, holds at most the configured number of
 queued, applying or applied applications.
 */
module SubmitRates {
  import opened Common
  import opened Records
  import opened Sets
  import opened SubmitPolicy
  import opened SubmitWorker
  import opened SubmitProtocol
  import opened RateLimits
  import opened SubmitSuccess

  // The rules

  /** Every limit the profile sets for some group. */
  predicate IsRule(limits: Limits, rule: Rule) {
    match rule.group
    case Everything =>
      || (rule.limit == limits.applicationsPerHour && rule.windowMs == HOUR_MS)
      || (rule.limit == limits.applicationsPerDay && rule.windowMs == DAY_MS)
    case OfProvider(_) => rule.limit == limits.applicationsPerHour && rule.windowMs == HOUR_MS
    case _ =>
      || (rule.limit == limits.maxPerCompanyPerDay && rule.windowMs == DAY_MS)
      || (rule.limit == limits.maxPerCompanyPerWeek && rule.windowMs == WEEK_MS)
  }

  predicate IsMember(cfg: Config, state: State, id: string, group: Group) {
    id in state.store.applications && InGroup(cfg.text, state.store.jobs, state.store.applications[id], group)
  }

  /** Whether applications for this job count for the group; providers are the application's own. */
  predicate JobCounts(cfg: Config, job: Job, group: Group) {
    match group
    case OfCompany(company) => company != "" && CompanyOf(cfg.text, job) == company
    case OfCloneGroup(role) => RoleOf(cfg.text, job) == role
    case _ => true
  }

  /** The worker holds a job object; the stored job may have left the group since, not joined it. */
  predicate HeldCounts(cfg: Config, store: Store, held: Job, group: Group) {
    held.id in store.jobs && (JobCounts(cfg, store.jobs[held.id], group) ==> JobCounts(cfg, held, group))
  }

  lemma MembersAreChecked(cfg: Config, state: State, id: string, job: Job, rule: Rule)
    requires IsRule(cfg.limits, rule) && IsMember(cfg, state, id, rule.group)
    requires state.store.applications[id].jobId == job.id && HeldCounts(cfg, state.store, job, rule.group)
    ensures IsRuleFor(cfg.limits, cfg.text, job, state.store.applications[id].providerId, rule)
  {}

  // The assumptions on a run

  /** The date a handler gives a queued submit is not before the clock. */
  predicate NotDatedBack(state: State, step: Step) {
    step.ApiResolve? ==> state.clock <= step.bodyNow.GetOr(state.clock)
  }

  /** No stored job joins the group by being ingested again. */
  predicate KeepsGroup(cfg: Config, state: State, step: Step, group: Group) {
    step.IngestJob? && step.job.id in state.store.jobs && JobCounts(cfg, step.job, group) ==>
      JobCounts(cfg, state.store.jobs[step.job.id], group)
  }

  /** An unanswered call has its application counted, at the call's date or later. */
  predicate FlightIsSound(state: State, e: nat, id: string)
    requires InFlight(state, e, id)
  {
    && id in state.store.applications
    && RateLimits.Irreversible(state.store.applications[id].status)
    && state.executions[e].submittedAt <= Timestamp(state.store.applications[id])
  }

  ghost predicate LeavesCallsCounted(before: State, after: State) {
    forall e, id :: InFlight(before, e, id) && InFlight(after, e, id) ==> FlightIsSound(after, e, id)
  }

  /** While a call is unanswered, no step takes its application out of the count or dates it before the call. */
  ghost predicate Undisturbed(cfg: Config, state: State, step: Step)
    requires Enabled(state, step)
  {
    LeavesCallsCounted(state, Apply(cfg, state, step))
  }

  ghost predicate Disciplined(cfg: Config, state: State, step: Step, group: Group)
    requires Enabled(state, step)
  {
    NotDatedBack(state, step) && KeepsGroup(cfg, state, step, group) && Undisturbed(cfg, state, step)
  }

  // Which steps disturb a call

  // What a queued or called application implies about the store it was checked against

  /** A queued application passed the limits at the clock, and is not dated before it. */
  ghost predicate QueuedWithinLimits(cfg: Config, before: State, after: State, id: string) {
    && id in before.store.applications && id in after.store.applications
    && HandlerRateAllowed(cfg, before.store, before.store.applications[id], before.clock)
    && after.store.applications[id].submittedAt.Some? && before.clock <= after.store.applications[id].submittedAt.value
    && after.executions == before.executions && after.store.jobs == before.store.jobs
  }

  lemma RunQueuesWithinLimits(cfg: Config, states: seq<State>, steps: seq<Step>, i: nat, id: string)
    requires IsRun(cfg, states, steps) && i < |steps| && NotDatedBack(states[i], steps[i])
    requires IsQueued(states[i], states[i + 1], steps[i], id)
    ensures QueuedWithinLimits(cfg, states[i], states[i + 1], id)
  {
    var before, after, step := states[i], states[i + 1], steps[i];
    assert after.log[|before.log|] == Queued(id, !Ready(before.store.applications[id].status));
    RunConforms(cfg, states, steps, i);
    if step.ApiResolve? {
      assert after == ApiResolveStep(cfg, before, step.id, step.resolution, step.presented, step.bodyNow, step.ticket);
      ApiQueuesExactlyWhen(cfg, before.store, step.id, step.resolution, step.presented, step.bodyNow, before.clock);
    } else if step.TelegramResolve? {
      assert after == TelegramResolveStep(cfg, before, step.id, step.resolution, step.hasQueue, step.ticket);
      TelegramQueuesExactlyWhen(cfg, before.store, step.id, step.resolution, step.hasQueue, before.clock);
    } else {
      assert after == TelegramApproveReviewStep(cfg, before, step.applicationId, step.freshId, step.hasQueue, step.ticket);
      ReviewQueuesExactlyWhen(cfg, before.store, step.applicationId, step.freshId, step.hasQueue, before.clock);
    }
  }

  // Occupancy

  /** The application is counted in the window, or an unanswered call may date it back into it. */
  ghost predicate Dated(state: State, id: string, lo: int, hi: int) {
    && id in state.store.applications
    && ( || (RateLimits.Irreversible(state.store.applications[id].status) && lo < Timestamp(state.store.applications[id]) <= hi)
         || exists e :: InFlight(state, e, id) && lo < state.executions[e].submittedAt <= hi)
  }

  /** Who occupies the window of the rule that ends at `hi`. */
  ghost function Occupants(cfg: Config, state: State, rule: Rule, hi: int): set<string> {
    set id | id in state.store.applications && IsMember(cfg, state, id, rule.group) && Dated(state, id, hi - rule.windowMs, hi)
  }

  ghost predicate WithinLimit(cfg: Config, state: State, rule: Rule) {
    forall hi :: |Occupants(cfg, state, rule, hi)| <= rule.limit
  }

  /** A queued application is dated, a call in flight keeps its application counted, and held jobs count where stored ones do. */
  ghost predicate DatesAreSound(cfg: Config, state: State, group: Group) {
    && (forall id :: id in state.store.applications ==> DateIsSound(state, id))
    && (forall e, id :: InFlight(state, e, id) ==> FlightIsSound(state, e, id))
    && (forall e :: e in state.executions && state.executions[e].AwaitingHealth? ==>
          HeldCounts(cfg, state.store, state.executions[e].job, group))
  }

  predicate DateIsSound(state: State, id: string)
    requires id in state.store.applications
  {
    var application := state.store.applications[id];
    && (application.status == ApplyQueued ==> application.submittedAt.Some?)
    && (application.status == ApplicationPrepared ==> application.submittedAt.None?)
  }

  // Every step keeps the dates sound

  lemma AnswerKeepsDate(before: State, after: State, step: Step, id: string)
    requires IsAnswered(before, after, step, id)
    ensures DateIsSound(after, id)
  {}

  lemma NewDateIsSound(before: State, after: State, step: Step, id: string)
    requires Appears(before, after, step, id) && Enabled(before, step)
    ensures DateIsSound(after, id)
  {}

  lemma OldDateStaysSound(before: State, after: State, step: Step, id: string)
    requires Classified(before, after, step, id) && id in before.store.applications && DateIsSound(before, id)
    requires IsAnswered(before, after, step, id) ==> DateIsSound(after, id)
    ensures id in after.store.applications && DateIsSound(after, id)
  {}

  lemma DateStaysSound(cfg: Config, before: State, after: State, step: Step, id: string)
    requires Conforms(cfg, before, after, step) && (step.CreateApplication? ==> Enabled(before, step))
    requires id in after.store.applications && (id in before.store.applications ==> DateIsSound(before, id))
    ensures DateIsSound(after, id)
  {
    assert Classified(before, after, step, id);
    if id in before.store.applications {
      if IsAnswered(before, after, step, id) {
        AnswerKeepsDate(before, after, step, id);
      }
      OldDateStaysSound(before, after, step, id);
    } else {
      ClassifiedAppears(before, after, step, id);
      NewDateIsSound(before, after, step, id);
    }
  }

  lemma NewFlightIsSound(before: State, after: State, step: Step, id: string)
    requires IsSubmitted(before, after, step, id)
    ensures InFlight(after, step.execution, id) && FlightIsSound(after, step.execution, id)
  {}

  /** A call in flight was just made, or was in flight before and is undisturbed. */
  lemma FlightStaysSound(cfg: Config, before: State, after: State, step: Step, e: nat, id: string)
    requires Conforms(cfg, before, after, step) && LeavesCallsCounted(before, after)
    requires InFlight(after, e, id)
    ensures FlightIsSound(after, e, id)
  {
    FlightsAdvance(cfg, before, after, step, id, e);
    if !InFlight(before, e, id) {
      NewFlightIsSound(before, after, step, id);
    }
  }

  lemma HeldJobStaysCounted(cfg: Config, before: State, after: State, step: Step, e: nat, group: Group)
    requires Framed(cfg, before, after, step) && KeepsGroup(cfg, before, step, group)
    requires e in after.executions && after.executions[e].AwaitingHealth? && Advanced(before, after, step, e)
    requires e in before.executions && before.executions[e].AwaitingHealth? ==> HeldCounts(cfg, before.store, before.executions[e].job, group)
    requires forall id :: id in before.store.jobs ==> before.store.jobs[id].id == id
    ensures HeldCounts(cfg, after.store, after.executions[e].job, group)
  {}

  lemma StepKeepsDatesSound(cfg: Config, before: State, after: State, step: Step, group: Group)
    requires Conforms(cfg, before, after, step) && DatesAreSound(cfg, before, group)
    requires KeepsGroup(cfg, before, step, group) && LeavesCallsCounted(before, after)
    requires step.CreateApplication? ==> Enabled(before, step)
    ensures DatesAreSound(cfg, after, group)
  {
    forall id | id in after.store.applications
      ensures DateIsSound(after, id)
    {
      DateStaysSound(cfg, before, after, step, id);
    }
    forall e, id | InFlight(after, e, id)
      ensures FlightIsSound(after, e, id)
    {
      FlightStaysSound(cfg, before, after, step, e, id);
    }
    forall e | e in after.executions && after.executions[e].AwaitingHealth?
      ensures HeldCounts(cfg, after.store, after.executions[e].job, group)
    {
      assert Advanced(before, after, step, e);
      HeldJobStaysCounted(cfg, before, after, step, e, group);
    }
  }

  /** A stop, a queueing at an earlier date, or the answer of another call that is no success or dated earlier. */
  ghost predicate Disturbs(before: State, after: State, step: Step, e: nat, id: string)
    requires InFlight(before, e, id)
  {
    || IsStopped(before, after, step, id)
    || (IsQueued(before, after, step, id) && after.store.applications[id].submittedAt.value < before.executions[e].submittedAt)
    || (IsAnswered(before, after, step, id)
        && (step.status == Submitted ==> before.executions[step.execution].submittedAt < before.executions[e].submittedAt))
  }

  /** A sound flight, and a date for what is ready and counted. */
  predicate IsCounted(state: State, e: nat, id: string)
    requires InFlight(state, e, id)
  {
    FlightIsSound(state, e, id) && (Ready(state.store.applications[id].status) ==> state.store.applications[id].submittedAt.Some?)
  }

  lemma FlightSurvivesExactlyWhen(before: State, after: State, step: Step, e: nat, id: string)
    requires InFlight(before, e, id) && InFlight(after, e, id) && after.executions[e] == before.executions[e]
    requires Classified(before, after, step, id) && IsCounted(before, e, id)
    ensures FlightIsSound(after, e, id) <==> !Disturbs(before, after, step, e, id)
  {
    if IsAnswered(before, after, step, id) {
      AnswerDisturbsExactlyWhen(before, after, step, e, id);
    }
  }

  lemma AnswerDisturbsExactlyWhen(before: State, after: State, step: Step, e: nat, id: string)
    requires InFlight(before, e, id) && InFlight(after, e, id) && after.executions[e] == before.executions[e]
    requires IsAnswered(before, after, step, id)
    ensures FlightIsSound(after, e, id)
       <==> step.status == Submitted && before.executions[e].submittedAt <= before.executions[step.execution].submittedAt
  {}

  lemma FlightStaysPut(before: State, after: State, step: Step, e: nat, id: string)
    requires InFlight(before, e, id) && InFlight(after, e, id) && Advanced(before, after, step, e)
    ensures after.executions[e] == before.executions[e]
  {}

  lemma ConformingStepDoesOneThing(cfg: Config, before: State, after: State, step: Step, e: nat, id: string)
    requires Conforms(cfg, before, after, step) && e in after.executions
    ensures Classified(before, after, step, id) && Advanced(before, after, step, e)
  {}

  /** A step leaves every unanswered call undisturbed exactly when it does none of these to its application. */
  lemma UndisturbedExactlyWhen(cfg: Config, before: State, after: State, step: Step)
    requires Conforms(cfg, before, after, step)
    requires forall e, id :: InFlight(before, e, id) ==> IsCounted(before, e, id)
    ensures LeavesCallsCounted(before, after)
       <==> forall e, id :: InFlight(before, e, id) && InFlight(after, e, id) ==> !Disturbs(before, after, step, e, id)
  {
    forall e, id | InFlight(before, e, id) && InFlight(after, e, id)
      ensures FlightIsSound(after, e, id) <==> !Disturbs(before, after, step, e, id)
    {
      ConformingStepDoesOneThing(cfg, before, after, step, e, id);
      FlightStaysPut(before, after, step, e, id);
      FlightSurvivesExactlyWhen(before, after, step, e, id);
    }
  }

  // Every step keeps every window within its limit

  /** No stored application joins the group. */
  lemma MembershipStays(cfg: Config, before: State, after: State, step: Step, id: string, group: Group)
    requires Conforms(cfg, before, after, step) && KeepsGroup(cfg, before, step, group)
    requires id in before.store.applications && IsMember(cfg, after, id, group)
    ensures IsMember(cfg, before, id, group)
  {
    assert Classified(before, after, step, id);
    ClassifiedIsKept(before, after, step, id);
  }

  /** The application gets a new counted date: it is queued, or called straight from preparation. */
  predicate Enters(before: State, after: State, step: Step, id: string) {
    || IsQueued(before, after, step, id)
    || (IsSubmitted(before, after, step, id) && before.store.applications[id].submittedAt.None?)
  }

  lemma FlightDateStays(cfg: Config, before: State, after: State, step: Step, e: nat, id: string)
    requires Conforms(cfg, before, after, step) && (id in before.store.applications ==> DateIsSound(before, id))
    requires InFlight(after, e, id) && !Enters(before, after, step, id)
    ensures (InFlight(before, e, id) && before.executions[e].submittedAt == after.executions[e].submittedAt)
         || (&& id in before.store.applications && RateLimits.Irreversible(before.store.applications[id].status)
             && Timestamp(before.store.applications[id]) == after.executions[e].submittedAt)
  {}

  lemma CallFollowsDate(before: State, after: State, step: Step, id: string, lo: int, hi: int)
    requires IsSubmitted(before, after, step, id) && DateIsSound(before, id) && before.store.applications[id].submittedAt.Some?
    requires lo < Timestamp(after.store.applications[id]) <= hi
    ensures Dated(before, id, lo, hi)
  {}

  lemma AnswerFollowsDate(before: State, after: State, step: Step, id: string, lo: int, hi: int)
    requires IsAnswered(before, after, step, id) && RateLimits.Irreversible(after.store.applications[id].status)
    requires lo < Timestamp(after.store.applications[id]) <= hi
    ensures Dated(before, id, lo, hi)
  {}

  lemma StatusDateStays(before: State, after: State, step: Step, id: string, lo: int, hi: int)
    requires Classified(before, after, step, id) && !Enters(before, after, step, id)
    requires id in before.store.applications ==> DateIsSound(before, id)
    requires id in after.store.applications && RateLimits.Irreversible(after.store.applications[id].status)
    requires lo < Timestamp(after.store.applications[id]) <= hi
    ensures Dated(before, id, lo, hi)
  {
    if IsAnswered(before, after, step, id) {
      AnswerFollowsDate(before, after, step, id, lo, hi);
    } else if IsSubmitted(before, after, step, id) {
      CallFollowsDate(before, after, step, id, lo, hi);
    }
  }

  /** Unless an application enters, it is dated after the step only where it was dated before. */
  lemma DatedStays(cfg: Config, before: State, after: State, step: Step, id: string, lo: int, hi: int)
    requires Conforms(cfg, before, after, step) && (id in before.store.applications ==> DateIsSound(before, id))
    requires Dated(after, id, lo, hi) && !Enters(before, after, step, id)
    ensures Dated(before, id, lo, hi)
  {
    if RateLimits.Irreversible(after.store.applications[id].status) && lo < Timestamp(after.store.applications[id]) <= hi {
      assert Classified(before, after, step, id);
      StatusDateStays(before, after, step, id, lo, hi);
    } else {
      var e :| InFlight(after, e, id) && lo < after.executions[e].submittedAt <= hi;
      FlightDateStays(cfg, before, after, step, e, id);
    }
  }

  /** An entering application is not dated before the clock, or is dated where a call in flight dated it before. */
  lemma EnteringIsNotDatedBack(cfg: Config, before: State, after: State, step: Step, id: string, lo: int, hi: int)
    requires IsQueued(before, after, step, id) ==> QueuedWithinLimits(cfg, before, after, id)
    requires Dated(after, id, lo, hi) && Enters(before, after, step, id)
    ensures before.clock <= hi || Dated(before, id, lo, hi)
  {}

  /** At most one application enters in a step: the last event names it. */
  lemma OneEnters(before: State, after: State, step: Step, id: string, other: string)
    requires Enters(before, after, step, id) && Enters(before, after, step, other)
    ensures id == other
  {
    assert after.log[|before.log|].applicationId == id && after.log[|before.log|].applicationId == other;
  }

  // The check an entering application passed

  function CountedOthers(cfg: Config, state: State, rule: Rule, id: string): set<string> {
    Recent(Stamps(cfg.text, state.store.jobs, state.store.applications, rule.group, false, Some(id)), state.clock - rule.windowMs)
  }

  lemma AllowedLeavesRoom(cfg: Config, state: State, id: string, job: Job, rule: Rule)
    requires IsRule(cfg.limits, rule) && IsMember(cfg, state, id, rule.group)
    requires var application := state.store.applications[id];
             && application.id == id && application.jobId == job.id && HeldCounts(cfg, state.store, job, rule.group)
             && RateAllowed(cfg, state.store, application, job, state.clock)
    ensures |CountedOthers(cfg, state, rule, id)| < rule.limit
  {
    MembersAreChecked(cfg, state, id, job, rule);
  }

  lemma EnteringLeavesRoom(cfg: Config, before: State, after: State, step: Step, id: string, rule: Rule)
    requires WellFormed(before) && DatesAreSound(cfg, before, rule.group) && IsRule(cfg.limits, rule) && IsMember(cfg, before, id, rule.group)
    requires Enters(before, after, step, id)
    requires IsQueued(before, after, step, id) ==> QueuedWithinLimits(cfg, before, after, id)
    requires IsSubmitted(before, after, step, id) ==> WasDecided(cfg, before, after, step, id)
    ensures |CountedOthers(cfg, before, rule, id)| < rule.limit
  {
    if IsQueued(before, after, step, id) {
      AllowedLeavesRoom(cfg, before, id, before.store.jobs[before.store.applications[id].jobId], rule);
    } else {
      var job := before.executions[step.execution].job;
      DecidedIsAllowed(cfg, before, id, job, step.health);
      AllowedLeavesRoom(cfg, before, id, job, rule);
    }
  }

  lemma DecidedIsAllowed(cfg: Config, state: State, id: string, job: Job, health: ProviderStatus)
    requires id in state.store.applications && Decide(cfg, state.store, id, job, health, state.clock).1.CallProvider?
    ensures RateAllowed(cfg, state.store, state.store.applications[id], job, state.clock)
  {}

  lemma OccupantIsCounted(cfg: Config, before: State, rule: Rule, id: string, other: string, hi: int)
    requires DatesAreSound(cfg, before, rule.group) && other != id && before.clock <= hi
    requires other in Occupants(cfg, before, rule, hi)
    ensures other in CountedOthers(cfg, before, rule, id)
  {}

  /** The occupants after a step are those before it, and perhaps an application that entered, not dated before the clock. */
  lemma OccupantsAfter(cfg: Config, before: State, after: State, step: Step, rule: Rule, hi: int, id: string)
    requires Conforms(cfg, before, after, step) && DatesAreSound(cfg, before, rule.group) && KeepsGroup(cfg, before, step, rule.group)
    requires IsQueued(before, after, step, id) ==> QueuedWithinLimits(cfg, before, after, id)
    requires id in Occupants(cfg, after, rule, hi)
    ensures || id in Occupants(cfg, before, rule, hi)
            || (Enters(before, after, step, id) && IsMember(cfg, before, id, rule.group) && before.clock <= hi)
  {
    if Enters(before, after, step, id) {
      EnteringIsNotDatedBack(cfg, before, after, step, id, hi - rule.windowMs, hi);
    } else {
      DatedStays(cfg, before, after, step, id, hi - rule.windowMs, hi);
    }
    MembershipStays(cfg, before, after, step, id, rule.group);
  }

  /** Whatever is queued or called was checked against the state the step started from. */
  ghost predicate EntriesAreChecked(cfg: Config, before: State, after: State, step: Step) {
    && (forall id :: IsQueued(before, after, step, id) ==> QueuedWithinLimits(cfg, before, after, id))
    && (forall id :: IsSubmitted(before, after, step, id) ==> WasDecided(cfg, before, after, step, id))
  }

  lemma StepKeepsWindow(cfg: Config, before: State, after: State, step: Step, rule: Rule, hi: int)
    requires Conforms(cfg, before, after, step) && DatesAreSound(cfg, before, rule.group) && KeepsGroup(cfg, before, step, rule.group)
    requires IsRule(cfg.limits, rule) && WithinLimit(cfg, before, rule)
    requires EntriesAreChecked(cfg, before, after, step)
    ensures |Occupants(cfg, after, rule, hi)| <= rule.limit
  {
    var was, now := Occupants(cfg, before, rule, hi), Occupants(cfg, after, rule, hi);
    forall id | id in now
      ensures id in was || (Enters(before, after, step, id) && IsMember(cfg, before, id, rule.group) && before.clock <= hi)
    {
      OccupantsAfter(cfg, before, after, step, rule, hi, id);
    }
    if now <= was {
      SubsetSize(now, was);
    } else {
      var id :| id in now && id !in was;
      EnteringLeavesRoom(cfg, before, after, step, id, rule);
      forall other | other in now && other != id
        ensures other in was
      {
        if other !in was {
          OneEnters(before, after, step, id, other);
        }
      }
      OneMoreFits(cfg, before, rule, id, hi, was, now);
    }
  }

  lemma OneMoreFits(cfg: Config, before: State, rule: Rule, id: string, hi: int, was: set<string>, now: set<string>)
    requires DatesAreSound(cfg, before, rule.group) && before.clock <= hi
    requires was == Occupants(cfg, before, rule, hi) && |CountedOthers(cfg, before, rule, id)| < rule.limit
    requires forall other :: other in now && other != id ==> other in was
    ensures |now| <= rule.limit
  {
    var counted := CountedOthers(cfg, before, rule, id);
    forall other | other in now && other != id
      ensures other in counted
    {
      OccupantIsCounted(cfg, before, rule, id, other, hi);
    }
    SubsetSize(now, counted + {id});
  }

  lemma InitialKeepsLimits(cfg: Config, state: State, rule: Rule)
    requires state == Initial(state.clock, state.store.mode) && 0 <= rule.limit
    ensures DatesAreSound(cfg, state, rule.group) && WithinLimit(cfg, state, rule)
  {}

  lemma {:induction false} RunKeepsLimits(cfg: Config, states: seq<State>, steps: seq<Step>, n: nat, rule: Rule)
    requires IsRun(cfg, states, steps) && n <= |steps|
    requires forall i :: 0 <= i < |steps| ==> Disciplined(cfg, states[i], steps[i], rule.group)
    requires IsRule(cfg.limits, rule) && 0 <= rule.limit
    ensures DatesAreSound(cfg, states[n], rule.group) && WithinLimit(cfg, states[n], rule)
  {
    if n == 0 {
      InitialKeepsLimits(cfg, states[0], rule);
    } else {
      var before, after, step := states[n - 1], states[n], steps[n - 1];
      RunKeepsLimits(cfg, states, steps, n - 1, rule);
      RunConforms(cfg, states, steps, n - 1);
      RunChecksEntries(cfg, states, steps, n - 1, before, after, step);
      StepKeepsLimits(cfg, before, after, step, rule);
    }
  }

  lemma RunChecksEntries(
    cfg: Config, states: seq<State>, steps: seq<Step>, i: nat, before: State, after: State, step: Step)
    requires IsRun(cfg, states, steps) && i < |steps| && NotDatedBack(states[i], steps[i])
    requires before == states[i] && after == states[i + 1] && step == steps[i]
    ensures EntriesAreChecked(cfg, before, after, step)
  {
    forall id | IsQueued(before, after, step, id)
      ensures QueuedWithinLimits(cfg, before, after, id)
    {
      RunQueuesWithinLimits(cfg, states, steps, i, id);
    }
    forall id | IsSubmitted(before, after, step, id)
      ensures WasDecided(cfg, before, after, step, id)
    {
      RunDecides(cfg, states, steps, i, id);
    }
  }

  lemma StepKeepsLimits(cfg: Config, before: State, after: State, step: Step, rule: Rule)
    requires Conforms(cfg, before, after, step) && DatesAreSound(cfg, before, rule.group)
    requires KeepsGroup(cfg, before, step, rule.group) && LeavesCallsCounted(before, after)
    requires step.CreateApplication? ==> Enabled(before, step)
    requires IsRule(cfg.limits, rule) && WithinLimit(cfg, before, rule)
    requires EntriesAreChecked(cfg, before, after, step)
    ensures DatesAreSound(cfg, after, rule.group) && WithinLimit(cfg, after, rule)
  {
    StepKeepsDatesSound(cfg, before, after, step, rule.group);
    forall hi ensures |Occupants(cfg, after, rule, hi)| <= rule.limit {
      StepKeepsWindow(cfg, before, after, step, rule, hi);
    }
  }

  /** The applications a window check counts, dated by their latest `submittedAt`. */
  function CountedIn(cfg: Config, state: State, rule: Rule, hi: int): set<string> {
    set id | && id in state.store.applications && IsMember(cfg, state, id, rule.group)
             && RateLimits.Irreversible(state.store.applications[id].status)
             && hi - rule.windowMs < Timestamp(state.store.applications[id]) <= hi
  }

  /** The theorem: no hour, day or week of the limit, wherever it ends, ever holds more than it allows. */
  lemma NoWindowExceedsItsLimit(cfg: Config, states: seq<State>, steps: seq<Step>, n: nat, rule: Rule, hi: int)
    requires IsRun(cfg, states, steps) && n <= |steps|
    requires forall i :: 0 <= i < |steps| ==> Disciplined(cfg, states[i], steps[i], rule.group)
    requires IsRule(cfg.limits, rule) && 0 <= rule.limit
    ensures |CountedIn(cfg, states[n], rule, hi)| <= rule.limit
  {
    RunKeepsLimits(cfg, states, steps, n, rule);
    SubsetSize(CountedIn(cfg, states[n], rule, hi), Occupants(cfg, states[n], rule, hi));
  }

  // The same in plain numbers

  /** Queued, applying or applied, and dated in the `windowMs` that end at `hi`. */
  predicate CountsIn(application: Application, windowMs: int, hi: int) {
    && application.status in {ApplyQueued, Applying, Applied}
    && var date := if application.submittedAt.Some? then application.submittedAt.value else application.createdAt;
       hi - windowMs < date <= hi
  }

  /** An hour and a day hold their limits, and an hour that of each provider. */
  lemma HoursAndDaysAreBounded(cfg: Config, states: seq<State>, steps: seq<Step>, n: nat, hi: int, providerId: string)
    requires IsRun(cfg, states, steps) && n <= |steps|
    requires forall i :: 0 <= i < |steps| ==> Disciplined(cfg, states[i], steps[i], Everything)
    requires 0 <= cfg.limits.applicationsPerHour && 0 <= cfg.limits.applicationsPerDay
    ensures var applications := states[n].store.applications;
            && |set id | id in applications && CountsIn(applications[id], 60 * 60 * 1000, hi)| <= cfg.limits.applicationsPerHour
            && |set id | id in applications && CountsIn(applications[id], 24 * 60 * 60 * 1000, hi)| <= cfg.limits.applicationsPerDay
            && |set id | id in applications && CountsIn(applications[id], 60 * 60 * 1000, hi) && applications[id].providerId == providerId|
               <= cfg.limits.applicationsPerHour
  {
    var applications := states[n].store.applications;
    var hourly, daily := Rule(cfg.limits.applicationsPerHour, HOUR_MS, Everything), Rule(cfg.limits.applicationsPerDay, DAY_MS, Everything);
    NoWindowExceedsItsLimit(cfg, states, steps, n, hourly, hi);
    NoWindowExceedsItsLimit(cfg, states, steps, n, daily, hi);
    assert CountedIn(cfg, states[n], hourly, hi) == set id | id in applications && CountsIn(applications[id], 60 * 60 * 1000, hi);
    assert CountedIn(cfg, states[n], daily, hi) == set id | id in applications && CountsIn(applications[id], 24 * 60 * 60 * 1000, hi);
    var ofProvider := set id | id in applications && CountsIn(applications[id], 60 * 60 * 1000, hi) && applications[id].providerId == providerId;
    SubsetSize(ofProvider, CountedIn(cfg, states[n], hourly, hi));
  }

  /** The application's stored job is of the company, once its name is normalized. */
  predicate IsFor(cfg: Config, store: Store, application: Application, company: string) {
    && application.jobId in store.jobs && cfg.text.normalizeLimitKey(store.jobs[application.jobId].companyName) == company
  }

  /** Its stored job has this normalized company, title and seniority. */
  predicate IsLike(cfg: Config, store: Store, application: Application, role: (string, string, string)) {
    && application.jobId in store.jobs
    && var job := store.jobs[application.jobId];
       (cfg.text.normalizedText(job.companyName), cfg.text.normalizedText(Some(job.title)), cfg.text.normalizedText(job.seniority)) == role
  }

  lemma CompanyCounts(cfg: Config, state: State, rule: Rule, company: string, hi: int)
    requires WellFormed(state) && company != "" && rule.group == OfCompany(company)
    ensures CountedIn(cfg, state, rule, hi)
         == set id | && id in state.store.applications && CountsIn(state.store.applications[id], rule.windowMs, hi)
                     && IsFor(cfg, state.store, state.store.applications[id], company)
  {}

  lemma RoleCounts(cfg: Config, state: State, rule: Rule, role: (string, string, string), hi: int)
    requires rule.group == OfCloneGroup(role)
    ensures CountedIn(cfg, state, rule, hi)
         == set id | && id in state.store.applications && CountsIn(state.store.applications[id], rule.windowMs, hi)
                     && IsLike(cfg, state.store, state.store.applications[id], role)
  {}

  /** No company's day or week holds more than its limits. */
  lemma CompaniesAreBounded(cfg: Config, states: seq<State>, steps: seq<Step>, n: nat, hi: int, company: string)
    requires IsRun(cfg, states, steps) && n <= |steps| && company != ""
    requires forall i :: 0 <= i < |steps| ==> Disciplined(cfg, states[i], steps[i], OfCompany(company))
    requires 0 <= cfg.limits.maxPerCompanyPerDay && 0 <= cfg.limits.maxPerCompanyPerWeek
    ensures var store := states[n].store;
            && |set id | id in store.applications && CountsIn(store.applications[id], 24 * 60 * 60 * 1000, hi) && IsFor(cfg, store, store.applications[id], company)|
               <= cfg.limits.maxPerCompanyPerDay
            && |set id | id in store.applications && CountsIn(store.applications[id], 7 * 24 * 60 * 60 * 1000, hi) && IsFor(cfg, store, store.applications[id], company)|
               <= cfg.limits.maxPerCompanyPerWeek
  {
    var daily := Rule(cfg.limits.maxPerCompanyPerDay, DAY_MS, OfCompany(company));
    var weekly := Rule(cfg.limits.maxPerCompanyPerWeek, WEEK_MS, OfCompany(company));
    RunsAreWellFormed(cfg, states, steps, n);
    NoWindowExceedsItsLimit(cfg, states, steps, n, daily, hi);
    NoWindowExceedsItsLimit(cfg, states, steps, n, weekly, hi);
    CompanyCounts(cfg, states[n], daily, company, hi);
    CompanyCounts(cfg, states[n], weekly, company, hi);
  }

  /** Nor does the day or week of jobs alike in company, title and seniority. */
  lemma RolesAreBounded(cfg: Config, states: seq<State>, steps: seq<Step>, n: nat, hi: int, role: (string, string, string))
    requires IsRun(cfg, states, steps) && n <= |steps|
    requires forall i :: 0 <= i < |steps| ==> Disciplined(cfg, states[i], steps[i], OfCloneGroup(role))
    requires 0 <= cfg.limits.maxPerCompanyPerDay && 0 <= cfg.limits.maxPerCompanyPerWeek
    ensures var store := states[n].store;
            && |set id | id in store.applications && CountsIn(store.applications[id], 24 * 60 * 60 * 1000, hi) && IsLike(cfg, store, store.applications[id], role)|
               <= cfg.limits.maxPerCompanyPerDay
            && |set id | id in store.applications && CountsIn(store.applications[id], 7 * 24 * 60 * 60 * 1000, hi) && IsLike(cfg, store, store.applications[id], role)|
               <= cfg.limits.maxPerCompanyPerWeek
  {
    var daily := Rule(cfg.limits.maxPerCompanyPerDay, DAY_MS, OfCloneGroup(role));
    var weekly := Rule(cfg.limits.maxPerCompanyPerWeek, WEEK_MS, OfCloneGroup(role));
    NoWindowExceedsItsLimit(cfg, states, steps, n, daily, hi);
    NoWindowExceedsItsLimit(cfg, states, steps, n, weekly, hi);
    RoleCounts(cfg, states[n], daily, role, hi);
    RoleCounts(cfg, states[n], weekly, role, hi);
  }
}
