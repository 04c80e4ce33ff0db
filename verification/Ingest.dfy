/**
 The ingest worker (apps/worker-ingest/src/runner.ts): its loops over providers and the
 jobs they find, with the counters of the search runs, while nothing else writes jobs.
 */
module Ingest {
  import opened Records
  import opened SubmitWorker
  import opened Database
  import SubmitDedup

  /** What fetching and normalizing one reference gives. */
  datatype Fetched = Fetched(job: Job) | FetchFailed(error: string)

  /** A provider that is blocked or deprecated, one whose discovery throws, or the references it finds. */
  datatype Discovery = Unavailable(status: string, message: string) | DiscoveryFailed(error: string) | Found(refs: seq<Fetched>)

  datatype SearchRun = SearchRun(
    providerId: string, rawCount: nat, normalizedCount: nat, rejectedCount: nat, shortlistedCount: nat,
    stopCondition: string, errors: seq<string>)

  function JobsOf(refs: seq<Fetched>): seq<Job> {
    if refs == [] then []
    else JobsOf(refs[..|refs| - 1]) + if refs[|refs| - 1].Fetched? then [refs[|refs| - 1].job] else []
  }

  function ErrorsOf(refs: seq<Fetched>): seq<string> {
    if refs == [] then []
    else ErrorsOf(refs[..|refs| - 1]) + if refs[|refs| - 1].FetchFailed? then [refs[|refs| - 1].error] else []
  }

  function AllJobs(providers: seq<(string, Discovery)>): seq<Job> {
    if providers == [] then []
    else
      var last := providers[|providers| - 1].1;
      AllJobs(providers[..|providers| - 1]) + if last.Found? then JobsOf(last.refs) else []
  }

  /** What ingesting one job does to the store, as a parameter of the loops. */
  type IngestStep = (Store, Job) -> Store

  function IngestAll(step: IngestStep, store: Store, jobs: seq<Job>): Store {
    if jobs == [] then store else step(IngestAll(step, store, jobs[..|jobs| - 1]), jobs[|jobs| - 1])
  }

  function IngestOf(cfg: Config): IngestStep {
    (store, job) => SubmitWorker.Ingest(cfg, store, job)
  }

  ghost predicate IsIngestOf(step: IngestStep, cfg: Config) {
    forall store, job {:trigger SubmitWorker.Ingest(cfg, store, job)} :: step(store, job) == SubmitWorker.Ingest(cfg, store, job)
  }

  lemma {:induction false} IngestInTwoParts(step: IngestStep, store: Store, first: seq<Job>, second: seq<Job>)
    ensures IngestAll(step, IngestAll(step, store, first), second) == IngestAll(step, store, first + second)
  {
    if second == [] {
      assert first + second == first;
    } else {
      IngestInTwoParts(step, store, first, second[..|second| - 1]);
      assert (first + second)[..|first + second| - 1] == first + second[..|second| - 1];
    }
  }

  lemma OneJobMore(step: IngestStep, store: Store, jobs: seq<Job>, job: Job)
    ensures IngestAll(step, store, jobs + [job]) == step(IngestAll(step, store, jobs), job)
  {
    assert (jobs + [job])[..|jobs|] == jobs;
  }

  function Shortlisted(cfg: Config, jobs: seq<Job>): nat {
    if jobs == [] then 0 else Shortlisted(cfg, jobs[..|jobs| - 1]) + if cfg.shortlisted(jobs[|jobs| - 1]) then 1 else 0
  }

  /** The jobs that pass the score, each time they were fetched. */
  ghost function Passing(cfg: Config, jobs: seq<Job>): set<int> {
    set i | 0 <= i < |jobs| && cfg.shortlisted(jobs[i])
  }

  lemma {:induction false} ShortlistedCounts(cfg: Config, jobs: seq<Job>)
    ensures Shortlisted(cfg, jobs) == |Passing(cfg, jobs)|
  {
    if jobs == [] {
      assert Passing(cfg, jobs) == {};
    } else {
      var front, n := jobs[..|jobs| - 1], |jobs| - 1;
      ShortlistedCounts(cfg, front);
      if cfg.shortlisted(jobs[n]) {
        assert n !in Passing(cfg, front) && Passing(cfg, jobs) == Passing(cfg, front) + {n};
      } else {
        assert Passing(cfg, jobs) == Passing(cfg, front);
      }
    }
  }

  lemma OneMoreShortlisted(cfg: Config, jobs: seq<Job>, job: Job)
    ensures Shortlisted(cfg, jobs + [job]) == Shortlisted(cfg, jobs) + if cfg.shortlisted(job) then 1 else 0
  {
    assert (jobs + [job])[..|jobs|] == jobs;
  }

  lemma OneRefMore(refs: seq<Fetched>, k: nat)
    requires k < |refs|
    ensures JobsOf(refs[..k + 1]) == if refs[k].Fetched? then JobsOf(refs[..k]) + [refs[k].job] else JobsOf(refs[..k])
    ensures ErrorsOf(refs[..k + 1]) == if refs[k].FetchFailed? then ErrorsOf(refs[..k]) + [refs[k].error] else ErrorsOf(refs[..k])
  {
    assert refs[..k + 1][..k] == refs[..k];
  }

  lemma OneProviderMore(providers: seq<(string, Discovery)>, k: nat)
    requires k < |providers|
    ensures AllJobs(providers[..k + 1])
         == if providers[k].1.Found? then AllJobs(providers[..k]) + JobsOf(providers[k].1.refs) else AllJobs(providers[..k])
  {
    assert providers[..k + 1][..k] == providers[..k];
  }

  /** The counters of a search run account for every reference. */
  ghost predicate CountsAddUp(cfg: Config, discovery: Discovery, run: SearchRun) {
    match discovery
    case Found(refs) =>
      && run.rawCount == |refs| == run.normalizedCount + |run.errors|
      && run.normalizedCount == |JobsOf(refs)| == run.shortlistedCount + run.rejectedCount
      && run.shortlistedCount == Shortlisted(cfg, JobsOf(refs))
      && run.errors == ErrorsOf(refs)
      && run.stopCondition == if run.errors == [] then "completed" else "completed_with_errors"
    case Unavailable(status, message) => run == SearchRun(run.providerId, 0, 0, 0, 0, "provider_" + status, [message])
    case DiscoveryFailed(error) => run == SearchRun(run.providerId, 0, 0, 0, 0, "completed_with_errors", [error])
  }

  method IngestNext(db: InMemoryDatabase, cfg: Config, job: Job, ghost step: IngestStep)
    requires IsIngestOf(step, cfg)
    modifies db
    ensures db.View() == step(old(db.View()), job)
  {
    db.IngestJob(cfg, job);
    assert step(old(db.View()), job) == SubmitWorker.Ingest(cfg, old(db.View()), job);
  }

  method IngestRefs(db: InMemoryDatabase, cfg: Config, providerId: string, refs: seq<Fetched>, ghost step: IngestStep)
    returns (run: SearchRun)
    requires IsIngestOf(step, cfg)
    modifies db
    ensures db.View() == IngestAll(step, old(db.View()), JobsOf(refs))
    ensures run.providerId == providerId && CountsAddUp(cfg, Found(refs), run)
  {
    var normalized, rejected, shortlisted := 0, 0, 0;
    var errors: seq<string> := [];
    for k := 0 to |refs|
      invariant db.View() == IngestAll(step, old(db.View()), JobsOf(refs[..k]))
      invariant normalized == |JobsOf(refs[..k])| == shortlisted + rejected && k == normalized + |errors|
      invariant errors == ErrorsOf(refs[..k]) && shortlisted == Shortlisted(cfg, JobsOf(refs[..k]))
    {
      OneRefMore(refs, k);
      match refs[k] {
        case FetchFailed(error) =>
          errors := errors + [error];
        case Fetched(job) =>
          OneMoreShortlisted(cfg, JobsOf(refs[..k]), job);
          OneJobMore(step, old(db.View()), JobsOf(refs[..k]), job);
          IngestNext(db, cfg, job, step);
          normalized := normalized + 1;
          if cfg.shortlisted(job) {
            shortlisted := shortlisted + 1;
          } else {
            rejected := rejected + 1;
          }
      }
    }
    assert refs[..|refs|] == refs;
    run := SearchRun(providerId, |refs|, normalized, rejected, shortlisted,
                     if errors == [] then "completed" else "completed_with_errors", errors);
  }

  /** One search run a provider; every fetched job is ingested once, in order. */
  method IngestProviders(db: InMemoryDatabase, cfg: Config, providers: seq<(string, Discovery)>, ghost step: IngestStep)
    returns (processed: nat, runs: seq<SearchRun>)
    requires IsIngestOf(step, cfg)
    modifies db
    ensures db.View() == IngestAll(step, old(db.View()), AllJobs(providers))
    ensures processed == |AllJobs(providers)|
    ensures |runs| == |providers|
    ensures forall i :: 0 <= i < |providers| ==> runs[i].providerId == providers[i].0 && CountsAddUp(cfg, providers[i].1, runs[i])
  {
    processed, runs := 0, [];
    for k := 0 to |providers|
      invariant db.View() == IngestAll(step, old(db.View()), AllJobs(providers[..k]))
      invariant processed == |AllJobs(providers[..k])| && |runs| == k
      invariant forall i :: 0 <= i < k ==> runs[i].providerId == providers[i].0 && CountsAddUp(cfg, providers[i].1, runs[i])
    {
      OneProviderMore(providers, k);
      var (providerId, discovery) := providers[k];
      match discovery {
        case Unavailable(status, message) =>
          runs := runs + [SearchRun(providerId, 0, 0, 0, 0, "provider_" + status, [message])];
        case DiscoveryFailed(error) =>
          runs := runs + [SearchRun(providerId, 0, 0, 0, 0, "completed_with_errors", [error])];
        case Found(refs) =>
          IngestInTwoParts(step, old(db.View()), AllJobs(providers[..k]), JobsOf(refs));
          var run := IngestRefs(db, cfg, providerId, refs, step);
          processed := processed + run.normalizedCount;
          runs := runs + [run];
      }
    }
    assert providers[..|providers|] == providers;
  }

  method ProcessIngest(db: InMemoryDatabase, cfg: Config, providers: seq<(string, Discovery)>) returns (processed: nat, runs: seq<SearchRun>)
    modifies db
    ensures db.View() == IngestAll(IngestOf(cfg), old(db.View()), AllJobs(providers))
    ensures processed == |AllJobs(providers)|
    ensures |runs| == |providers|
    ensures forall i :: 0 <= i < |providers| ==> runs[i].providerId == providers[i].0 && CountsAddUp(cfg, providers[i].1, runs[i])
  {
    processed, runs := IngestProviders(db, cfg, providers, IngestOf(cfg));
  }

  /** However often the same or changed jobs are ingested, no two jobs left as "new" share a key. */
  lemma {:induction false} IngestAllKeepsNewJobsApart(cfg: Config, store: Store, jobs: seq<Job>)
    requires SubmitDedup.NewJobsDiffer(cfg, store)
    ensures SubmitDedup.NewJobsDiffer(cfg, IngestAll(IngestOf(cfg), store, jobs))
  {
    if jobs != [] {
      IngestAllKeepsNewJobsApart(cfg, store, jobs[..|jobs| - 1]);
      SubmitDedup.IngestKeepsNewJobsApart(cfg, IngestAll(IngestOf(cfg), store, jobs[..|jobs| - 1]), jobs[|jobs| - 1]);
    }
  }

  lemma OtherKeysStay(cfg: Config, store: Store, job: Job)
    ensures OtherKeys(cfg, SubmitWorker.Ingest(cfg, store, job), job.id) == OtherKeys(cfg, store, job.id)
  {
    var once := SubmitWorker.Ingest(cfg, store, job);
    assert forall id :: id in store.jobs && id != job.id ==> id in once.jobs && once.jobs[id] == store.jobs[id];
    assert OtherKeys(cfg, store, job.id) <= OtherKeys(cfg, once, job.id);
  }

  /** Ingesting a job again, unchanged and with nothing in between, changes nothing. */
  lemma IngestTwiceIsOnce(cfg: Config, store: Store, job: Job)
    ensures SubmitWorker.Ingest(cfg, SubmitWorker.Ingest(cfg, store, job), job) == SubmitWorker.Ingest(cfg, store, job)
  {
    OtherKeysStay(cfg, store, job);
  }
}
