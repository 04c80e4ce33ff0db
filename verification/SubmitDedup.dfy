/**
 Duplicates: jobs whose saved decision is "new" never share a dedup key, and no two
 provider calls of a run go to different jobs that share one.
 */
module SubmitDedup {
  import opened Common
  import opened Records
  import opened SubmitWorker
  import opened SubmitProtocol

  /** The jobs are one listing or one vacancy, on their own fields. */
  predicate Clash(cfg: Config, left: Job, right: Job) {
    SameListing(cfg.text, left, right) || SameVacancy(cfg.text, left, right)
  }

  ghost predicate NewJobsDiffer(cfg: Config, store: Store) {
    && store.decisions.Keys == store.jobs.Keys
    && forall a, b :: a in store.jobs && b in store.jobs && a != b && store.decisions[a] == New && store.decisions[b] == New ==>
         !Clash(cfg, store.jobs[a], store.jobs[b])
  }

  ghost predicate OtherListing(cfg: Config, store: Store, job: Job, id: string) {
    id in store.jobs && id != job.id && SameListing(cfg.text, store.jobs[id], job)
  }

  ghost predicate OtherVacancy(cfg: Config, store: Store, job: Job, id: string) {
    id in store.jobs && id != job.id && SameVacancy(cfg.text, store.jobs[id], job)
  }

  /** What the saved decision on an ingested job says about the other stored jobs. */
  lemma IngestDecides(cfg: Config, store: Store, job: Job)
    ensures var decisions := Ingest(cfg, store, job).decisions;
            && job.id in decisions
            && (decisions[job.id] == Duplicate <==> exists id :: OtherListing(cfg, store, job, id))
            && (decisions[job.id] == PossibleDuplicate <==>
                  (exists id :: OtherVacancy(cfg, store, job, id)) && forall id :: !OtherListing(cfg, store, job, id))
            && (decisions[job.id] == New <==> forall id :: !OtherListing(cfg, store, job, id) && !OtherVacancy(cfg, store, job, id))
            && decisions == store.decisions[job.id := decisions[job.id]]
  {
    var others := OtherKeys(cfg, store, job.id);
    forall id | id in store.jobs && id != job.id
      ensures BuildDedupKey(cfg.text, store.jobs[id]) in others
      ensures OtherListing(cfg, store, job, id) <==> SameListing(cfg.text, store.jobs[id], job)
      ensures OtherVacancy(cfg, store, job, id) <==> SameVacancy(cfg.text, store.jobs[id], job)
    {
      KeysAgreeExactlyWhen(cfg.text, store.jobs[id], job);
    }
  }

  lemma ClashIsSymmetric(cfg: Config, left: Job, right: Job)
    ensures Clash(cfg, left, right) <==> Clash(cfg, right, left)
  {}

  lemma IngestedIsNewExactlyWhen(cfg: Config, store: Store, job: Job)
    ensures Ingest(cfg, store, job).decisions[job.id] == New
       <==> forall id :: id in store.jobs && id != job.id ==> !Clash(cfg, store.jobs[id], job)
  {
    IngestDecides(cfg, store, job);
    assert forall id :: id in store.jobs && id != job.id ==>
             (Clash(cfg, store.jobs[id], job) <==> OtherListing(cfg, store, job, id) || OtherVacancy(cfg, store, job, id));
  }

  lemma IngestKeepsNewJobsApart(cfg: Config, store: Store, job: Job)
    requires NewJobsDiffer(cfg, store)
    ensures NewJobsDiffer(cfg, Ingest(cfg, store, job))
  {
    IngestedIsNewExactlyWhen(cfg, store, job);
    forall id | id in store.jobs {
      ClashIsSymmetric(cfg, store.jobs[id], job);
    }
  }

  lemma StepKeepsNewJobsApart(cfg: Config, before: State, after: State, step: Step)
    requires Framed(cfg, before, after, step) && NewJobsDiffer(cfg, before.store)
    ensures NewJobsDiffer(cfg, after.store)
  {
    if step.IngestJob? {
      IngestKeepsNewJobsApart(cfg, before.store, step.job);
    }
  }

  /** In every reachable store, whatever is re-ingested with whatever contents. */
  lemma {:induction false} NewJobsNeverShareKeys(cfg: Config, states: seq<State>, steps: seq<Step>, n: nat)
    requires IsRun(cfg, states, steps) && n <= |steps|
    ensures NewJobsDiffer(cfg, states[n].store)
  {
    if n > 0 {
      NewJobsNeverShareKeys(cfg, states, steps, n - 1);
      StepIsFramed(cfg, states[n - 1], steps[n - 1]);
      StepKeepsNewJobsApart(cfg, states[n - 1], states[n], steps[n - 1]);
    }
  }

  // Runs in which a re-ingested job keeps its keys

  /** All the fields that make two jobs clash agree. */
  predicate SameKeys(cfg: Config, left: Job, right: Job) {
    && left.sourceProvider + ":" + left.externalId == right.sourceProvider + ":" + right.externalId
    && cfg.text.canonicalizeUrl(left.canonicalUrl) == cfg.text.canonicalizeUrl(right.canonicalUrl)
    && SameTitleAndCompany(cfg.text, left, right)
    && cfg.text.normalizedText(Some(left.description)) == cfg.text.normalizedText(Some(right.description))
    && cfg.text.normalizedText(left.seniority) == cfg.text.normalizedText(right.seniority)
  }

  predicate KeepsKeys(cfg: Config, state: State, step: Step) {
    step.IngestJob? && step.job.id in state.store.jobs ==> SameKeys(cfg, step.job, state.store.jobs[step.job.id])
  }

  /** A job some execution or call holds is stored with the same keys. */
  ghost predicate IsStored(cfg: Config, store: Store, job: Job) {
    job.id in store.jobs && SameKeys(cfg, job, store.jobs[job.id])
  }

  /** No other stored job that shares a key with this one counts as new. */
  ghost predicate Claims(cfg: Config, store: Store, job: Job) {
    && IsStored(cfg, store, job)
    && forall id :: id in store.jobs && id in store.decisions && id != job.id && Clash(cfg, store.jobs[id], job) ==>
         store.decisions[id] != New
  }

  ghost predicate CallsClaim(cfg: Config, state: State) {
    && (forall e :: e in state.executions && state.executions[e].AwaitingHealth? ==> IsStored(cfg, state.store, state.executions[e].job))
    && (forall i :: 0 <= i < |state.log| && state.log[i].SubmitCalled? ==> Claims(cfg, state.store, state.log[i].job))
  }

  ghost predicate CallsDiffer(cfg: Config, log: seq<Event>) {
    forall i, j :: 0 <= i < j < |log| && log[i].SubmitCalled? && log[j].SubmitCalled? && log[i].job.id != log[j].job.id ==>
      !Clash(cfg, log[i].job, log[j].job)
  }

  lemma IngestKeepsClaim(cfg: Config, store: Store, ingested: Job, job: Job)
    requires Claims(cfg, store, job)
    requires ingested.id in store.jobs ==> SameKeys(cfg, ingested, store.jobs[ingested.id])
    ensures Claims(cfg, Ingest(cfg, store, ingested), job)
  {}

  lemma IngestKeepsCalls(cfg: Config, before: State, after: State, step: Step)
    requires step.IngestJob? && KeepsKeys(cfg, before, step) && Framed(cfg, before, after, step)
    requires CallsClaim(cfg, before)
    ensures CallsClaim(cfg, after)
  {
    forall i | 0 <= i < |after.log| && after.log[i].SubmitCalled?
      ensures Claims(cfg, after.store, after.log[i].job)
    {
      IngestKeepsClaim(cfg, before.store, step.job, before.log[i].job);
    }
  }

  /** A call is made only for a job that is new, so it claims its keys and clashes with no earlier call. */
  lemma CallClaims(cfg: Config, before: State, after: State, step: Step, id: string)
    requires IsSubmitted(before, after, step, id) && WasDecided(cfg, before, after, step, id) && Framed(cfg, before, after, step)
    requires NewJobsDiffer(cfg, before.store) && CallsClaim(cfg, before)
    ensures var job := before.executions[step.execution].job;
            && Claims(cfg, after.store, job)
            && forall i :: 0 <= i < |before.log| && before.log[i].SubmitCalled? && before.log[i].job.id != job.id ==>
                 !Clash(cfg, before.log[i].job, job)
  {
    var job := before.executions[step.execution].job;
    assert before.store.decisions[job.id] == New;
  }

  lemma ExecutionsStayStored(cfg: Config, before: State, after: State, step: Step)
    requires !step.IngestJob? && Conforms(cfg, before, after, step) && CallsClaim(cfg, before)
    ensures forall e :: e in after.executions && after.executions[e].AwaitingHealth? ==> IsStored(cfg, after.store, after.executions[e].job)
  {
    forall e | e in after.executions && after.executions[e].AwaitingHealth?
      ensures IsStored(cfg, after.store, after.executions[e].job)
    {
      assert Advanced(before, after, step, e);
    }
  }

  /** The event a step appended, if any, announces a provider call. */
  predicate LogsCall(before: State, after: State) {
    |after.log| > |before.log| && after.log[|before.log|].SubmitCalled?
  }

  /** A step that neither ingests nor calls leaves the calls alone. */
  lemma OtherStepsKeepCalls(cfg: Config, before: State, after: State, step: Step)
    requires !step.IngestJob? && Conforms(cfg, before, after, step) && !LogsCall(before, after)
    requires CallsClaim(cfg, before) && CallsDiffer(cfg, before.log)
    ensures CallsClaim(cfg, after) && CallsDiffer(cfg, after.log)
  {
    ExecutionsStayStored(cfg, before, after, step);
    NoNewCall(cfg, before, after, step);
  }

  lemma NoNewCall(cfg: Config, before: State, after: State, step: Step)
    requires Conforms(cfg, before, after, step) && !LogsCall(before, after)
    ensures forall i :: 0 <= i < |after.log| && after.log[i].SubmitCalled? ==> i < |before.log| && after.log[i] == before.log[i]
  {
    assert Classified(before, after, step, "");
  }

  lemma CallKeepsCalls(cfg: Config, before: State, after: State, step: Step, id: string)
    requires Conforms(cfg, before, after, step)
    requires IsSubmitted(before, after, step, id) && WasDecided(cfg, before, after, step, id)
    requires NewJobsDiffer(cfg, before.store) && CallsClaim(cfg, before) && CallsDiffer(cfg, before.log)
    ensures CallsClaim(cfg, after) && CallsDiffer(cfg, after.log)
  {
    ExecutionsStayStored(cfg, before, after, step);
    CallClaims(cfg, before, after, step, id);
    ExtendCalls(cfg, before, after, after.log[|before.log|]);
  }

  lemma ExtendCalls(cfg: Config, before: State, after: State, call: Event)
    requires after.log == before.log + [call] && call.SubmitCalled?
    requires after.store.jobs == before.store.jobs && after.store.decisions == before.store.decisions
    requires Claims(cfg, after.store, call.job) && CallsDiffer(cfg, before.log) && CallsClaim(cfg, before)
    requires forall i :: 0 <= i < |before.log| && before.log[i].SubmitCalled? && before.log[i].job.id != call.job.id ==>
               !Clash(cfg, before.log[i].job, call.job)
    ensures CallsDiffer(cfg, after.log)
    ensures forall i :: 0 <= i < |after.log| && after.log[i].SubmitCalled? ==> Claims(cfg, after.store, after.log[i].job)
  {}

  lemma {:induction false} RunClaims(cfg: Config, states: seq<State>, steps: seq<Step>, n: nat)
    requires IsRun(cfg, states, steps) && n <= |steps|
    requires forall i :: 0 <= i < |steps| ==> KeepsKeys(cfg, states[i], steps[i])
    ensures CallsClaim(cfg, states[n]) && CallsDiffer(cfg, states[n].log)
  {
    if n > 0 {
      RunClaims(cfg, states, steps, n - 1);
      NewJobsNeverShareKeys(cfg, states, steps, n - 1);
      RunConforms(cfg, states, steps, n - 1);
      if steps[n - 1].IngestJob? {
        IngestKeepsCalls(cfg, states[n - 1], states[n], steps[n - 1]);
      } else if LogsCall(states[n - 1], states[n]) {
        var id := states[n].log[|states[n - 1].log|].applicationId;
        assert Classified(states[n - 1], states[n], steps[n - 1], id);
        LoggedCallIsSubmitted(states[n - 1], states[n], steps[n - 1]);
        RunDecides(cfg, states, steps, n - 1, id);
        CallKeepsCalls(cfg, states[n - 1], states[n], steps[n - 1], id);
      } else {
        OtherStepsKeepCalls(cfg, states[n - 1], states[n], steps[n - 1]);
      }
    }
  }

  lemma LoggedCallIsSubmitted(before: State, after: State, step: Step)
    requires LogsCall(before, after) && Classified(before, after, step, after.log[|before.log|].applicationId)
    ensures IsSubmitted(before, after, step, after.log[|before.log|].applicationId)
  {}

  /** In a whole run, calls for different jobs share no provider, URL, content or company-role key. */
  lemma NoTwoCallsShareAKey(cfg: Config, states: seq<State>, steps: seq<Step>, n: nat, i: int, j: int)
    requires IsRun(cfg, states, steps) && n <= |steps|
    requires forall k :: 0 <= k < |steps| ==> KeepsKeys(cfg, states[k], steps[k])
    requires 0 <= i < j < |states[n].log| && states[n].log[i].SubmitCalled? && states[n].log[j].SubmitCalled?
    requires states[n].log[i].job.id != states[n].log[j].job.id
    ensures !SameListing(cfg.text, states[n].log[i].job, states[n].log[j].job)
    ensures !SameVacancy(cfg.text, states[n].log[i].job, states[n].log[j].job)
  {
    RunClaims(cfg, states, steps, n);
  }
}
