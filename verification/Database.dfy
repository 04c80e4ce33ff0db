/**
 The in-memory database (packages/db/src/index.ts), as far as the submit protocol writes
 it: every method changes the fields in place and is tied to the protocol's store.
 */
module Database {
  import opened Common
  import opened Drafts
  import opened Records
  import opened SubmitWorker
  import Approvals

  class InMemoryDatabase {
    var systemMode: AppMode
    var jobs: map<string, Job>
    var jobScores: map<string, bool>
    var dedupDecisions: map<string, DedupStatus>
    var applications: map<string, Application>
    var approvalRequests: map<string, Approvals.Request>
    var auditEvents: seq<Approvals.AuditEvent>
    var proofPacks: map<string, ProofPack>
    var canaryRuns: seq<CanaryRun>

    constructor (mode: AppMode)
      ensures View() == Store(map[], map[], map[], map[], Approvals.EMPTY_BOOK, map[], [], mode)
    {
      systemMode := mode;
      jobs, jobScores, dedupDecisions, applications := map[], map[], map[], map[];
      approvalRequests, auditEvents, proofPacks, canaryRuns := map[], [], map[], [];
    }

    function View(): Store
      reads this
    {
      Store(jobs, jobScores, dedupDecisions, applications, Approvals.Book(approvalRequests, auditEvents), proofPacks, canaryRuns, systemMode)
    }

    // Jobs

    method UpsertJob(job: Job)
      modifies this
      ensures View() == old(View()).(jobs := old(jobs)[job.id := job])
    {
      jobs := jobs[job.id := job];
    }

    method SaveScore(jobId: string, shortlisted: bool)
      modifies this
      ensures View() == old(View()).(scores := old(jobScores)[jobId := shortlisted])
    {
      jobScores := jobScores[jobId := shortlisted];
    }

    method SaveDedupDecision(jobId: string, decision: DedupStatus)
      modifies this
      ensures View() == old(View()).(decisions := old(dedupDecisions)[jobId := decision])
    {
      dedupDecisions := dedupDecisions[jobId := decision];
    }

    /** What the ingest worker does with one normalized job. */
    method IngestJob(cfg: Config, job: Job)
      modifies this
      ensures View() == Ingest(cfg, old(View()), job)
      ensures jobs == old(jobs)[job.id := job] && job.id in dedupDecisions
      ensures dedupDecisions[job.id] == Duplicate <==>
                exists id :: id in old(jobs) && id != job.id && SameListing(cfg.text, old(jobs)[id], job)
      ensures dedupDecisions[job.id] == New <==>
                forall id :: id in old(jobs) && id != job.id ==>
                  !SameListing(cfg.text, old(jobs)[id], job) && !SameVacancy(cfg.text, old(jobs)[id], job)
    {
      var existing := OtherKeys(cfg, View(), job.id);
      UpsertJob(job);
      SaveDedupDecision(job.id, DecideDedup(BuildDedupKey(cfg.text, job), existing));
      SaveScore(job.id, cfg.shortlisted(job));
    }

    // Applications

    /** An application with the same idempotency key suppresses the new one. */
    method CreateApplication(application: Application) returns (stored: Application)
      requires application.id !in applications
      modifies this
      ensures stored.idempotencyKey == application.idempotencyKey && exists id :: id in applications && applications[id] == stored
      ensures if exists id | id in old(applications) :: old(applications)[id].idempotencyKey == application.idempotencyKey
              then View() == old(View())
              else stored == application && View() == old(View()).(applications := old(applications)[application.id := application])
    {
      if id: string :| id in applications && applications[id].idempotencyKey == application.idempotencyKey {
        return applications[id];
      }
      applications := applications[application.id := application];
      stored := application;
      assert applications[application.id] == stored;
    }

    /** `submittedAt` is absent, or the value to set, which may be null. */
    method SetApplicationStatus(id: string, status: ApplicationStatus, submittedAt: Option<Option<int>>) returns (found: bool)
      modifies this
      ensures found <==> id in old(applications)
      ensures View() == if id !in old(applications) then old(View())
                        else if submittedAt.Some? then SetStatusAt(old(View()), id, status, submittedAt.value)
                        else SetStatus(old(View()), id, status)
    {
      if id !in applications {
        return false;
      }
      var application := applications[id].(status := status);
      if submittedAt.Some? {
        application := application.(submittedAt := submittedAt.value);
      }
      applications := applications[id := application];
      found := true;
    }

    // Proof packs

    method RecordProofPack(proofId: string, proof: ProofPack, applicationId: Option<string>)
      modifies this
      ensures View() == if applicationId.Some? && applicationId.value in old(applications)
                        then RecordApplicationProof(old(View()), applicationId.value, proofId, proof)
                        else old(View()).(proofs := old(proofPacks)[proofId := proof])
    {
      proofPacks := proofPacks[proofId := proof];
      if applicationId.Some? && applicationId.value in applications {
        applications := applications[applicationId.value := applications[applicationId.value].(proofPackId := Some(proofId))];
      }
    }

    // Approval requests

    ghost function Book(): Approvals.Book
      reads this
    {
      View().book
    }

    method CreateApprovalRequest(terms: Approvals.Terms, freshId: string, now: int) returns (id: string)
      requires Approvals.OnePendingPerSlot(Book())
      modifies this
      ensures View() == old(View()).(book := Approvals.Create(old(Book()), freshId, terms, now))
      ensures id == Approvals.CreatedId(old(Book()), freshId, terms) && id in approvalRequests
    {
      if existing: string :|
        && existing in approvalRequests && approvalRequests[existing].status == Approvals.Pending
        && Approvals.SameSlot(approvalRequests[existing].terms, terms)
      {
        return existing;
      }
      approvalRequests := approvalRequests[freshId := Approvals.Request(terms, Approvals.Pending, now, None)];
      auditEvents := auditEvents + [Approvals.Lifecycle(freshId, Approvals.Pending)];
      id := freshId;
    }

    /** Writes a status and the event that announces it. */
    method MoveRequest(id: string, status: Approvals.Status, now: int)
      requires id in approvalRequests
      modifies this
      ensures View() == old(View()).(book := Approvals.SetStatus(old(Book()), id, status, now))
    {
      approvalRequests := approvalRequests[id := approvalRequests[id].(status := status, resolvedAt := Some(now))];
      auditEvents := auditEvents + [Approvals.Lifecycle(id, status)];
    }

    method ResolveApprovalRequest(id: string, resolution: Approvals.Resolution, presented: Option<Digest>, now: int) returns (resolved: bool)
      modifies this
      ensures View() == old(View()).(book := Approvals.Resolve(old(Book()), id, resolution, presented, now).0)
      ensures resolved == Approvals.Resolve(old(Book()), id, resolution, presented, now).1
      ensures resolved ==> id in approvalRequests
    {
      if id !in approvalRequests {
        return false;
      }
      var request := approvalRequests[id];
      var draftHashRequired := resolution.Approve? && Approvals.Irreversible(request.terms.action);
      if draftHashRequired && !Present(request.terms.draftHash) {
        auditEvents := auditEvents + [Approvals.HashMissing(id)];
        return false;
      }
      if Present(request.terms.draftHash) && request.terms.draftHash != presented {
        auditEvents := auditEvents + [Approvals.HashMismatch(id)];
        return false;
      }
      if request.status == Approvals.Approved && request.terms.expiresAt <= now {
        MoveRequest(id, Approvals.Expired, now);
        return true;
      }
      if request.status != Approvals.Pending {
        return true;
      }
      if request.terms.expiresAt <= now {
        MoveRequest(id, Approvals.Expired, now);
        return true;
      }
      MoveRequest(id, if resolution.Approve? then Approvals.Approved else Approvals.Rejected, now);
      resolved := true;
    }

    /** The requests are visited in the order the map yields them, whatever it is. */
    method ExpireApprovalRequests(now: int) returns (expired: seq<string>)
      modifies this
      ensures Approvals.OverdueOrder(old(Book()), now, expired)
      ensures View() == old(View()).(book := Approvals.ExpireInOrder(old(Book()), now, expired))
    {
      expired := [];
      var left := approvalRequests.Keys;
      ghost var start := Book();
      while left != {}
        invariant forall id :: id in expired ==> id in start.requests && id !in left
        invariant left <= start.requests.Keys
        invariant forall i, j :: 0 <= i < j < |expired| ==> expired[i] != expired[j]
        invariant forall id :: id in start.requests && id !in left ==> (id in expired <==> IsOverdue(start, id, now))
        invariant forall id :: id in left ==> id in approvalRequests && approvalRequests[id] == start.requests[id]
        invariant View() == old(View()).(book := Approvals.ExpireInOrder(start, now, expired))
        decreases |left|
      {
        var id: string :| id in left;
        var request := approvalRequests[id];
        left := left - {id};
        if request.status == Approvals.Pending && request.terms.expiresAt <= now {
          ExpireLast(start, now, expired, id);
          MoveRequest(id, Approvals.Expired, now);
          expired := expired + [id];
        }
      }
    }
  }

  predicate IsOverdue(book: Approvals.Book, id: string, now: int)
    requires id in book.requests
  {
    book.requests[id].status == Approvals.Pending && Approvals.Overdue(book.requests[id], now)
  }

  /** Expiring one more request after the others. */
  lemma {:induction false} ExpireLast(book: Approvals.Book, now: int, order: seq<string>, id: string)
    requires id in book.requests && forall other :: other in order ==> other in book.requests
    ensures id in Approvals.ExpireInOrder(book, now, order).requests
    ensures Approvals.ExpireInOrder(book, now, order + [id])
         == Approvals.SetStatus(Approvals.ExpireInOrder(book, now, order), id, Approvals.Expired, now)
    decreases |order|
  {
    if order == [] {
      assert order + [id] == [id] && [id][1..] == [];
    } else {
      assert (order + [id])[1..] == order[1..] + [id];
      ExpireLast(Approvals.SetStatus(book, order[0], Approvals.Expired, now), now, order[1..], id);
    }
  }
}
