/**
 Approval requests (packages/db/src/index.ts): create, resolve, expire, and the
 audit events they append, as a state machine over a book of requests.
 */
module Approvals {
  import opened Common
  import opened Drafts

  datatype EntityType = ApplicationEntity | OutboundMessageEntity | InterviewEntity | OtherEntity(name: string)
  datatype Action = SendApplication | SendRecruiterReply | ConfirmInterviewSlot | OtherAction(name: string)
  datatype Status = Pending | Approved | Rejected | Expired
  datatype Resolution = Approve | Reject

  /** The caller's part of a request; it never changes after creation. */
  datatype Terms = Terms(
    userId: string, entityType: EntityType, entityId: string, action: Action,
    expiresAt: int, draftHash: Option<Digest>)

  datatype Request = Request(terms: Terms, status: Status, requestedAt: int, resolvedAt: Option<int>)

  /** Lifecycle events carry the status they announce; `Pending` announces creation. */
  datatype AuditEvent =
    | Lifecycle(requestId: string, status: Status)
    | HashMissing(requestId: string)
    | HashMismatch(requestId: string)
    | Unrelated(entityType: string, entityId: string, eventType: string)

  datatype Book = Book(requests: map<string, Request>, audit: seq<AuditEvent>)

  const EMPTY_BOOK := Book(map[], [])

  predicate Irreversible(action: Action) {
    !action.OtherAction?
  }

  predicate Overdue(request: Request, now: int) {
    request.terms.expiresAt <= now
  }

  /** Two requests compete when the duplicate search of `createApprovalRequest` equates them. */
  predicate SameSlot(left: Terms, right: Terms) {
    left.(expiresAt := 0) == right.(expiresAt := 0)
  }

  ghost predicate HasPending(book: Book, terms: Terms) {
    exists id :: id in book.requests && book.requests[id].status == Pending && SameSlot(book.requests[id].terms, terms)
  }

  // Operations

  function Note(book: Book, event: AuditEvent): Book {
    book.(audit := book.audit + [event])
  }

  /** Writes a new status and the audit event that announces it. */
  function SetStatus(book: Book, id: string, status: Status, now: int): Book
    requires id in book.requests
  {
    Note(book.(requests := book.requests[id := book.requests[id].(status := status, resolvedAt := Some(now))]),
         Lifecycle(id, status))
  }

  ghost function Create(book: Book, freshId: string, terms: Terms, now: int): Book {
    if HasPending(book, terms) then book
    else Note(book.(requests := book.requests[freshId := Request(terms, Pending, now, None)]), Lifecycle(freshId, Pending))
  }

  /** The request `createApprovalRequest` returns: a pending one for the same slot, or the fresh one. */
  ghost function CreatedId(book: Book, freshId: string, terms: Terms): (id: string)
    ensures id in Create(book, freshId, terms, 0).requests
  {
    if HasPending(book, terms) then
      var id :| id in book.requests && book.requests[id].status == Pending && SameSlot(book.requests[id].terms, terms);
      id
    else freshId
  }

  /** The flag is false exactly when the source returns null. */
  function Resolve(book: Book, id: string, resolution: Resolution, presented: Option<Digest>, now: int): (r: (Book, bool))
    ensures r.0.requests.Keys == book.requests.Keys
  {
    if id !in book.requests then (book, false)
    else
      var request := book.requests[id];
      if resolution.Approve? && Irreversible(request.terms.action) && !Present(request.terms.draftHash) then
        (Note(book, HashMissing(id)), false)
      else if Present(request.terms.draftHash) && request.terms.draftHash != presented then
        (Note(book, HashMismatch(id)), false)
      else if request.status == Approved && Overdue(request, now) then
        (SetStatus(book, id, Expired, now), true)
      else if request.status != Pending then (book, true)
      else if Overdue(request, now) then (SetStatus(book, id, Expired, now), true)
      else (SetStatus(book, id, if resolution.Approve? then Approved else Rejected, now), true)
  }

  /** The pending requests that are overdue, in the order the store iterates them. */
  ghost predicate OverdueOrder(book: Book, now: int, order: seq<string>) {
    && (forall i, j :: 0 <= i < j < |order| ==> order[i] != order[j])
    && forall id :: id in order <==> id in book.requests && book.requests[id].status == Pending && Overdue(book.requests[id], now)
  }

  function ExpireInOrder(book: Book, now: int, order: seq<string>): Book
    requires forall id :: id in order ==> id in book.requests
    decreases |order|
  {
    if order == [] then book
    else
      ExpireInOrder(SetStatus(book, order[0], Expired, now), now, order[1..])
  }

  // Runs

  datatype Step =
    | CreateStep(freshId: string, terms: Terms, at: int)
    | ResolveStep(id: string, resolution: Resolution, presented: Option<Digest>, at: int)
    | ExpireStep(at: int, order: seq<string>)
    | UnrelatedStep(entityType: string, entityId: string, eventType: string)

  ghost predicate Enabled(book: Book, step: Step) {
    match step
    case CreateStep(freshId, _, _) => freshId !in book.requests
    case ExpireStep(at, order) => OverdueOrder(book, at, order)
    case _ => true
  }

  ghost function Apply(book: Book, step: Step): Book
    requires Enabled(book, step)
  {
    match step
    case CreateStep(freshId, terms, at) => Create(book, freshId, terms, at)
    case ResolveStep(id, resolution, presented, at) => Resolve(book, id, resolution, presented, at).0
    case ExpireStep(at, order) => ExpireInOrder(book, at, order)
    case UnrelatedStep(entityType, entityId, eventType) => Note(book, Unrelated(entityType, entityId, eventType))
  }

  ghost predicate Admissible(steps: seq<Step>)
    decreases |steps|, 0
  {
    steps == [] || (Admissible(steps[..|steps| - 1]) && Enabled(After(steps[..|steps| - 1]), steps[|steps| - 1]))
  }

  /** The book after a run from the empty one. */
  ghost function After(steps: seq<Step>): Book
    requires Admissible(steps)
    decreases |steps|, 1
  {
    if steps == [] then EMPTY_BOOK else Apply(After(steps[..|steps| - 1]), steps[|steps| - 1])
  }

  // What one step does to one request

  /** A status is only ever left along these edges. */
  predicate Edge(from: Status, to: Status) {
    (from == Pending && to != Pending) || (from == Approved && to == Expired)
  }

  /** The lifecycle events of one request, in the order they were appended. */
  function History(audit: seq<AuditEvent>, id: string): seq<Status> {
    if audit == [] then []
    else
      var last := audit[|audit| - 1];
      History(audit[..|audit| - 1], id) + if last.Lifecycle? && last.requestId == id then [last.status] else []
  }

  lemma HistoryAppend(audit: seq<AuditEvent>, event: AuditEvent, id: string)
    ensures History(audit + [event], id)
         == History(audit, id) + if event.Lifecycle? && event.requestId == id then [event.status] else []
  {}

  /** Either nothing happened to `id`, or it moved along one edge and exactly one event says so. */
  ghost predicate MovedOnce(before: Book, after: Book, id: string) {
    && id in before.requests && id in after.requests
    && after.requests[id].terms == before.requests[id].terms
    && ( || (after.requests[id] == before.requests[id] && History(after.audit, id) == History(before.audit, id))
         || ( && Edge(before.requests[id].status, after.requests[id].status)
              && History(after.audit, id) == History(before.audit, id) + [after.requests[id].status]))
  }

  lemma SetStatusMovesOnce(book: Book, target: string, status: Status, now: int, id: string)
    requires target in book.requests && id in book.requests
    requires Edge(book.requests[target].status, status)
    ensures MovedOnce(book, SetStatus(book, target, status, now), id)
  {}

  lemma {:induction false} ExpireMovesOnce(book: Book, now: int, order: seq<string>, id: string)
    requires id in book.requests
    requires forall i, j :: 0 <= i < j < |order| ==> order[i] != order[j]
    requires forall other :: other in order ==> other in book.requests && book.requests[other].status == Pending
    ensures ExpireInOrder(book, now, order).requests.Keys == book.requests.Keys
    ensures MovedOnce(book, ExpireInOrder(book, now, order), id)
    ensures id in order <==> ExpireInOrder(book, now, order).requests[id] != book.requests[id]
    ensures id in order ==> ExpireInOrder(book, now, order).requests[id] == book.requests[id].(status := Expired, resolvedAt := Some(now))
    decreases |order|
  {
    if order != [] {
      var next := SetStatus(book, order[0], Expired, now);
      SetStatusMovesOnce(book, order[0], Expired, now, id);
      if id == order[0] {
        ExpireLeavesAlone(next, now, order[1..], id);
      } else {
        ExpireMovesOnce(next, now, order[1..], id);
      }
    }
  }

  lemma {:induction false} ExpireLeavesAlone(book: Book, now: int, order: seq<string>, id: string)
    requires id in book.requests && id !in order
    requires forall other :: other in order ==> other in book.requests
    ensures ExpireInOrder(book, now, order).requests.Keys == book.requests.Keys
    ensures ExpireInOrder(book, now, order).requests[id] == book.requests[id]
    ensures History(ExpireInOrder(book, now, order).audit, id) == History(book.audit, id)
    decreases |order|
  {
    if order != [] {
      HistoryAppend(book.audit, Lifecycle(order[0], Expired), id);
      ExpireLeavesAlone(SetStatus(book, order[0], Expired, now), now, order[1..], id);
    }
  }

  lemma ResolveMovesOnce(book: Book, target: string, resolution: Resolution, presented: Option<Digest>, now: int, id: string)
    requires id in book.requests
    ensures MovedOnce(book, Resolve(book, target, resolution, presented, now).0, id)
  {
    if target in book.requests {
      var after := Resolve(book, target, resolution, presented, now).0;
      if Edge(book.requests[target].status, after.requests[target].status) {
        SetStatusMovesOnce(book, target, after.requests[target].status, now, id);
      } else {
        HistoryAppend(book.audit, HashMissing(target), id);
        HistoryAppend(book.audit, HashMismatch(target), id);
      }
    }
  }

  lemma StepMovesOnce(book: Book, step: Step, id: string)
    requires Enabled(book, step) && id in book.requests
    ensures MovedOnce(book, Apply(book, step), id)
  {
    match step
    case CreateStep(freshId, terms, at) =>
      HistoryAppend(book.audit, Lifecycle(freshId, Pending), id);
    case ResolveStep(target, resolution, presented, at) =>
      ResolveMovesOnce(book, target, resolution, presented, at, id);
    case ExpireStep(at, order) =>
      ExpireMovesOnce(book, at, order, id);
    case UnrelatedStep(entityType, entityId, eventType) =>
      HistoryAppend(book.audit, Unrelated(entityType, entityId, eventType), id);
  }

  /** A request appears only by creation: pending, with one creation event. */
  lemma StepCreates(book: Book, step: Step, id: string)
    requires Enabled(book, step) && id !in book.requests
    ensures id !in Apply(book, step).requests ==> History(Apply(book, step).audit, id) == History(book.audit, id)
    ensures id in Apply(book, step).requests ==>
              && step.CreateStep? && step.freshId == id && !HasPending(book, step.terms)
              && Apply(book, step).requests[id] == Request(step.terms, Pending, step.at, None)
              && History(Apply(book, step).audit, id) == History(book.audit, id) + [Pending]
  {
    match step
    case CreateStep(freshId, terms, at) =>
      HistoryAppend(book.audit, Lifecycle(freshId, Pending), id);
    case ResolveStep(target, resolution, presented, at) =>
      if target in book.requests {
        HistoryAppend(book.audit, HashMissing(target), id);
        HistoryAppend(book.audit, HashMismatch(target), id);
        forall status { HistoryAppend(book.audit, Lifecycle(target, status), id); }
      }
    case ExpireStep(at, order) =>
      ExpireSkipsUnknown(book, at, order, id);
    case UnrelatedStep(entityType, entityId, eventType) =>
      HistoryAppend(book.audit, Unrelated(entityType, entityId, eventType), id);
  }

  lemma {:induction false} ExpireSkipsUnknown(book: Book, now: int, order: seq<string>, id: string)
    requires id !in book.requests
    requires forall other :: other in order ==> other in book.requests
    ensures ExpireInOrder(book, now, order).requests.Keys == book.requests.Keys
    ensures History(ExpireInOrder(book, now, order).audit, id) == History(book.audit, id)
    decreases |order|
  {
    if order != [] {
      HistoryAppend(book.audit, Lifecycle(order[0], Expired), id);
      ExpireSkipsUnknown(SetStatus(book, order[0], Expired, now), now, order[1..], id);
    }
  }

  // What the operations do, field by field

  /** A pending request for the same user, entity, action and hash. */
  predicate Competes(request: Request, terms: Terms) {
    && request.status == Pending
    && request.terms.userId == terms.userId && request.terms.entityType == terms.entityType && request.terms.entityId == terms.entityId
    && request.terms.action == terms.action && request.terms.draftHash == terms.draftHash
  }

  /** A competing request is returned, or a fresh pending one is added and announced. */
  lemma CreateMeans(book: Book, freshId: string, terms: Terms, now: int)
    requires freshId !in book.requests
    ensures var after, id := Create(book, freshId, terms, now), CreatedId(book, freshId, terms);
            if exists other :: other in book.requests && Competes(book.requests[other], terms) then
              after == book && id in book.requests && Competes(book.requests[id], terms)
            else
              && id == freshId
              && after == Book(book.requests[freshId := Request(terms, Pending, now, None)], book.audit + [Lifecycle(freshId, Pending)])
  {
    assert forall other :: other in book.requests && Competes(book.requests[other], terms) ==>
        book.requests[other].terms.(expiresAt := 0) == terms.(expiresAt := 0);
  }

  /** An approval that needs a hash the request does not have. */
  predicate LacksHash(terms: Terms, resolution: Resolution) {
    && resolution == Approve && terms.action in {SendApplication, SendRecruiterReply, ConfirmInterviewSlot}
    && (terms.draftHash.None? || terms.draftHash.value == Text(""))
  }

  /** The request has a hash, and another was presented. */
  predicate HashDiffers(terms: Terms, presented: Option<Digest>) {
    terms.draftHash.Some? && terms.draftHash.value != Text("") && terms.draftHash != presented
  }

  /** A call that lacks the hash is refused; a pending request, or an overdue approved one, moves at the call's clock; any other stays. */
  lemma ResolveMeans(book: Book, id: string, resolution: Resolution, presented: Option<Digest>, now: int)
    requires id in book.requests
    ensures var (after, answered), request := Resolve(book, id, resolution, presented, now), book.requests[id];
            var terms := request.terms;
            if LacksHash(terms, resolution) then !answered && after == Book(book.requests, book.audit + [HashMissing(id)])
            else if HashDiffers(terms, presented) then !answered && after == Book(book.requests, book.audit + [HashMismatch(id)])
            else
              && answered
              && if terms.expiresAt <= now && request.status in {Pending, Approved} then
                   after == Book(book.requests[id := Request(terms, Expired, request.requestedAt, Some(now))], book.audit + [Lifecycle(id, Expired)])
                 else if request.status == Pending then
                   var status := if resolution == Approve then Approved else Rejected;
                   after == Book(book.requests[id := Request(terms, status, request.requestedAt, Some(now))], book.audit + [Lifecycle(id, status)])
                 else after == book
  {}

  /** The request became what the step says, at the step's clock. */
  predicate MovedBy(step: Step, before: Request, after: Request, id: string) {
    var terms := before.terms;
    match step
    case ResolveStep(target, resolution, presented, at) =>
      && target == id && !LacksHash(terms, resolution) && !HashDiffers(terms, presented)
      && after == Request(terms, after.status, before.requestedAt, Some(at))
      && if terms.expiresAt <= at then after.status == Expired && before.status in {Pending, Approved}
         else before.status == Pending && after.status == if resolution == Approve then Approved else Rejected
    case ExpireStep(at, _) =>
      before.status == Pending && terms.expiresAt <= at && after == Request(terms, Expired, before.requestedAt, Some(at))
    case _ => false
  }

  lemma StepMoves(book: Book, step: Step, id: string)
    requires Enabled(book, step) && id in book.requests
    ensures id in Apply(book, step).requests
    ensures var before, after := book.requests[id], Apply(book, step).requests[id];
            after == before || MovedBy(step, before, after, id)
    ensures step.ExpireStep? && book.requests[id].status == Pending && book.requests[id].terms.expiresAt <= step.at ==>
              Apply(book, step).requests[id].status == Expired
  {
    match step
    case ResolveStep(target, resolution, presented, at) =>
      if target in book.requests {
        ResolveMeans(book, target, resolution, presented, at);
      }
    case ExpireStep(at, order) => ExpireMovesOnce(book, at, order, id);
    case _ =>
  }

  // Theorems over runs

  /** The request was created by the step. */
  ghost predicate CreatedAt(steps: seq<Step>, k: int, id: string, request: Request) {
    0 <= k < |steps| && steps[k] == CreateStep(id, request.terms, request.requestedAt)
  }

  /** The request was given its status by the step, from another one. */
  ghost predicate MovedAt(steps: seq<Step>, k: int, id: string, request: Request) {
    0 <= k < |steps| && exists before: Request :: before.status != request.status && MovedBy(steps[k], before, request, id)
  }

  /** Every request of every run tells when it was created, and when and by what it was last moved. */
  lemma {:induction false} RequestsTellTheirSteps(steps: seq<Step>, id: string)
    requires Admissible(steps) && id in After(steps).requests
    ensures var request := After(steps).requests[id];
            && (exists k :: CreatedAt(steps, k, id, request))
            && (request.status == Pending <==> request.resolvedAt == None)
            && (request.status != Pending ==> exists k :: MovedAt(steps, k, id, request))
    decreases |steps|
  {
    var front, last := steps[..|steps| - 1], steps[|steps| - 1];
    var request := After(steps).requests[id];
    if id !in After(front).requests {
      StepCreates(After(front), last, id);
      assert CreatedAt(steps, |front|, id, request);
    } else {
      var before := After(front).requests[id];
      RequestsTellTheirSteps(front, id);
      StepMoves(After(front), last, id);
      assert forall k :: CreatedAt(front, k, id, before) ==> CreatedAt(steps, k, id, request);
      if request == before {
        assert forall k :: MovedAt(front, k, id, request) ==> MovedAt(steps, k, id, request);
      } else {
        assert MovedAt(steps, |front|, id, request);
      }
    }
  }

  predicate Reaches(from: Status, to: Status) {
    from == to || Edge(from, to)
  }

  /** A status never moves backwards, terms never change, requests never disappear. */
  lemma {:induction false} StatusesOnlyAdvance(steps: seq<Step>, i: nat, id: string)
    requires Admissible(steps) && i <= |steps|
    requires Admissible(steps[..i]) && id in After(steps[..i]).requests
    ensures id in After(steps).requests
    ensures After(steps).requests[id].terms == After(steps[..i]).requests[id].terms
    ensures Reaches(After(steps[..i]).requests[id].status, After(steps).requests[id].status)
    decreases |steps|
  {
    if i == |steps| {
      assert steps[..i] == steps;
    } else {
      var front := steps[..|steps| - 1];
      assert front[..i] == steps[..i];
      StatusesOnlyAdvance(front, i, id);
      StepMovesOnce(After(front), steps[|steps| - 1], id);
    }
  }

  /** The histories a request can have; each spells the current status last. */
  predicate LegalHistory(history: seq<Status>, current: Status) {
    || (history == [Pending] && current == Pending)
    || (history == [Pending, current] && current != Pending)
    || (history == [Pending, Approved, Expired] && current == Expired)
  }

  /** The audit log spells every request's whole history: one event a change, none invented. */
  lemma {:induction false} AuditSpellsHistory(steps: seq<Step>, id: string)
    requires Admissible(steps)
    ensures id !in After(steps).requests ==> History(After(steps).audit, id) == []
    ensures id in After(steps).requests ==> LegalHistory(History(After(steps).audit, id), After(steps).requests[id].status)
    decreases |steps|
  {
    if steps != [] {
      var front, last := steps[..|steps| - 1], steps[|steps| - 1];
      AuditSpellsHistory(front, id);
      if id in After(front).requests {
        StepMovesOnce(After(front), last, id);
      } else {
        StepCreates(After(front), last, id);
      }
    }
  }

  ghost predicate OnePendingPerSlot(book: Book) {
    forall left, right ::
      && left in book.requests && right in book.requests
      && book.requests[left].status == Pending && book.requests[right].status == Pending
      && Competes(book.requests[right], book.requests[left].terms)
      ==> left == right
  }

  lemma {:induction false} PendingIsUnique(steps: seq<Step>)
    requires Admissible(steps)
    ensures OnePendingPerSlot(After(steps))
    decreases |steps|
  {
    if steps != [] {
      var front, last := steps[..|steps| - 1], steps[|steps| - 1];
      PendingIsUnique(front);
      StepKeepsPendingUnique(After(front), last);
    }
  }

  lemma StepKeepsPendingUnique(book: Book, step: Step)
    requires Enabled(book, step) && OnePendingPerSlot(book)
    ensures OnePendingPerSlot(Apply(book, step))
  {
    var after := Apply(book, step);
    forall left, right |
      && left in after.requests && right in after.requests
      && after.requests[left].status == Pending && after.requests[right].status == Pending
      && Competes(after.requests[right], after.requests[left].terms)
      ensures left == right
    {
      assert SameSlot(after.requests[left].terms, after.requests[right].terms);
      if left in book.requests { StepMovesOnce(book, step, left); } else { StepCreates(book, step, left); }
      if right in book.requests { StepMovesOnce(book, step, right); } else { StepCreates(book, step, right); }
    }
  }

  /** The step that approved a request: before its expiry, presenting its hash. */
  predicate ApprovedBy(step: Step, id: string, terms: Terms) {
    && step.ResolveStep? && step.id == id && step.resolution.Approve?
    && step.at < terms.expiresAt
    && !LacksHash(terms, Approve) && !HashDiffers(terms, step.presented)
  }

  lemma StepApproves(book: Book, step: Step, id: string)
    requires Enabled(book, step)
    requires id in Apply(book, step).requests && Apply(book, step).requests[id].status == Approved
    requires id in book.requests ==> book.requests[id].status != Approved
    ensures ApprovedBy(step, id, Apply(book, step).requests[id].terms)
  {
    if id in book.requests {
      if step.ExpireStep? {
        ExpireMovesOnce(book, step.at, step.order, id);
      }
    } else {
      StepCreates(book, step, id);
    }
  }

  /** Resolving approves a request under exactly these conditions. */
  lemma ResolveApprovesExactlyWhen(book: Book, id: string, resolution: Resolution, presented: Option<Digest>, now: int)
    requires id in book.requests && book.requests[id].status != Approved
    ensures Resolve(book, id, resolution, presented, now).0.requests[id].status == Approved
       <==> && book.requests[id].status == Pending
            && ApprovedBy(ResolveStep(id, resolution, presented, now), id, book.requests[id].terms)
  {}

  /**
   An approved request was approved by one step of the run, before it expired; if the
   action is irreversible the approver presented the request's own, non-empty hash.
   */
  lemma {:induction false} ApprovalNeedsMatchingHash(steps: seq<Step>, id: string)
    requires Admissible(steps)
    requires id in After(steps).requests && After(steps).requests[id].status == Approved
    ensures exists k :: 0 <= k < |steps| && ApprovedBy(steps[k], id, After(steps).requests[id].terms)
    decreases |steps|
  {
    var front, last := steps[..|steps| - 1], steps[|steps| - 1];
    if id in After(front).requests {
      StepMovesOnce(After(front), last, id);
    }
    if id in After(front).requests && After(front).requests[id].status == Approved {
      ApprovalNeedsMatchingHash(front, id);
      var k :| 0 <= k < |front| && ApprovedBy(front[k], id, After(front).requests[id].terms);
      assert steps[k] == front[k];
    } else {
      StepApproves(After(front), last, id);
      assert steps[|steps| - 1] == last;
    }
  }
}
