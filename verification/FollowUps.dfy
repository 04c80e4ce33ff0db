/**
 Conservative follow-ups (apps/api/src/server.ts, planConservativeFollowUps, with the
 scheduler of packages/domain/src/services.ts and createManualReview of
 packages/db/src/index.ts): how many reviews any number of planning calls can create.
 */
module FollowUps {
  import opened Common
  import opened Sets

  const MAX_PER_CONVERSATION: nat := 2
  const MAX_PER_COMPANY: nat := 5
  const DUE_AFTER_MS: int := 3 * DAY_MS

  datatype Conversation = Conversation(id: string, companyName: Option<string>, status: string)

  datatype Category = Rejection | SpamIrrelevant | Unknown | OtherCategory(name: string)

  datatype Inbound = Inbound(id: string, conversationId: Option<string>, receivedAt: int)

  /** `followUp` says whether the template in the idempotency key is a follow-up. */
  datatype Outbound = Outbound(conversationId: string, followUp: bool, createdAt: int)

  datatype Review = Review(userId: string, entityType: string, entityId: string, reasonCode: string, open: bool, details: string)

  /** The part of the database the planner reads; only reviews are written. */
  datatype Db = Db(
    userId: string, conversations: seq<Conversation>, inbound: seq<Inbound>, categories: map<string, Category>,
    outbound: seq<Outbound>, reviews: map<string, Review>)

  // FollowUpScheduler.plan

  datatype Plan = Due(at: int) | No(reason: string)

  function PlanFollowUp(
    lastInboundAt: int, category: Category, alreadyScheduled: nat, recruiterReplied: bool, threadClosed: bool, companyScheduled: nat): Plan
  {
    if threadClosed then No("thread_closed")
    else if recruiterReplied then No("recruiter_replied_after_last_follow_up")
    else if companyScheduled >= MAX_PER_COMPANY then No("company_follow_up_cap_reached")
    else if alreadyScheduled >= MAX_PER_CONVERSATION then No("follow_up_cap_reached")
    else if category.Rejection? || category.SpamIrrelevant? || category.Unknown? then No("category_not_follow_up_eligible")
    else Due(lastInboundAt + DUE_AFTER_MS)
  }

  // What the planner reads about one conversation

  /** The last of the conversation's messages after a stable sort by date. */
  function LastInbound(inbound: seq<Inbound>, id: string): Option<Inbound> {
    if inbound == [] then None
    else
      var earlier, last := LastInbound(inbound[..|inbound| - 1], id), inbound[|inbound| - 1];
      if last.conversationId == Some(id) && (earlier.None? || earlier.value.receivedAt <= last.receivedAt) then Some(last) else earlier
  }

  function SentFollowUps(outbound: seq<Outbound>, id: string): seq<Outbound> {
    if outbound == [] then []
    else
      SentFollowUps(outbound[..|outbound| - 1], id)
      + if outbound[|outbound| - 1].conversationId == id && outbound[|outbound| - 1].followUp then [outbound[|outbound| - 1]] else []
  }

  function LatestDate(sent: seq<Outbound>): int
    requires sent != []
  {
    var last := sent[|sent| - 1].createdAt;
    if |sent| == 1 then last
    else
      var earlier := LatestDate(sent[..|sent| - 1]);
      if earlier <= last then last else earlier
  }

  predicate IsFollowUp(review: Review) {
    review.entityType == "conversation" && review.reasonCode == "follow_up_due"
  }

  function ReviewsOf(reviews: map<string, Review>, id: string): set<string> {
    set r | r in reviews && IsFollowUp(reviews[r]) && reviews[r].entityId == id
  }

  function OpenReviewsOf(reviews: map<string, Review>, id: string): set<string> {
    set r | r in ReviewsOf(reviews, id) && reviews[r].open
  }

  /** Conversations without a company share no company. */
  predicate IsOfCompany(db: Db, id: string, company: Option<string>) {
    company.Some? && exists conversation | conversation in db.conversations :: conversation.id == id && conversation.companyName == company
  }

  function CompanyReviews(db: Db, company: Option<string>): set<string> {
    set r | r in db.reviews && IsFollowUp(db.reviews[r]) && IsOfCompany(db, db.reviews[r].entityId, company)
  }

  function CategoryOf(db: Db, message: Inbound): Category {
    if message.id in db.categories then db.categories[message.id] else Unknown
  }

  predicate ThreadClosed(conversation: Conversation, category: Category) {
    || conversation.status == "closed" || conversation.status == "archived" || conversation.status == "rejected"
    || category.Rejection? || category.SpamIrrelevant?
  }

  /** The plan for one conversation, before the clock and open reviews are looked at. */
  function PlanFor(db: Db, conversation: Conversation): Plan {
    var last := LastInbound(db.inbound, conversation.id);
    if last.None? then No("no_inbound_message")
    else
      var sent := SentFollowUps(db.outbound, conversation.id);
      PlanFollowUp(
        last.value.receivedAt, CategoryOf(db, last.value), |sent| + |ReviewsOf(db.reviews, conversation.id)|,
        sent != [] && last.value.receivedAt > LatestDate(sent),
        ThreadClosed(conversation, CategoryOf(db, last.value)), |CompanyReviews(db, conversation.companyName)|)
  }

  // What these readings mean

  /** The `k`-th message is the conversation's latest, the last stored one of its date. */
  ghost predicate IsLatestAt(inbound: seq<Inbound>, id: string, k: int) {
    && 0 <= k < |inbound| && inbound[k].conversationId == Some(id)
    && forall i :: 0 <= i < |inbound| && inbound[i].conversationId == Some(id) ==>
         inbound[i].receivedAt < inbound[k].receivedAt || (inbound[i].receivedAt == inbound[k].receivedAt && i <= k)
  }

  lemma {:induction false} LastInboundIsLatest(inbound: seq<Inbound>, id: string)
    ensures LastInbound(inbound, id).None? <==> forall i :: 0 <= i < |inbound| ==> inbound[i].conversationId != Some(id)
    ensures LastInbound(inbound, id).Some? ==> exists k :: IsLatestAt(inbound, id, k) && inbound[k] == LastInbound(inbound, id).value
  {
    if inbound != [] {
      var front, last := inbound[..|inbound| - 1], inbound[|inbound| - 1];
      LastInboundIsLatest(front, id);
      assert forall i :: 0 <= i < |front| ==> front[i] == inbound[i];
      var earlier := LastInbound(front, id);
      if earlier.Some? {
        var k :| IsLatestAt(front, id, k) && front[k] == earlier.value;
        assert IsLatestAt(inbound, id, k) || IsLatestAt(inbound, id, |front|);
      } else if last.conversationId == Some(id) {
        assert IsLatestAt(inbound, id, |front|);
      }
    }
  }

  /** No other message is the latest. */
  lemma LatestIsLast(inbound: seq<Inbound>, id: string, k: int)
    requires IsLatestAt(inbound, id, k)
    ensures LastInbound(inbound, id) == Some(inbound[k])
  {
    LastInboundIsLatest(inbound, id);
    var j :| IsLatestAt(inbound, id, j) && inbound[j] == LastInbound(inbound, id).value;
    assert j == k;
  }

  /** Each of the conversation's follow-ups is counted as often as it is stored, and nothing else. */
  lemma {:induction false} SentFollowUpsAreSent(outbound: seq<Outbound>, id: string)
    ensures forall o :: multiset(SentFollowUps(outbound, id))[o] == if o.conversationId == id && o.followUp then multiset(outbound)[o] else 0
  {
    if outbound != [] {
      SentFollowUpsAreSent(outbound[..|outbound| - 1], id);
      assert outbound == outbound[..|outbound| - 1] + [outbound[|outbound| - 1]];
    }
  }

  lemma {:induction false} LatestDateIsLatest(sent: seq<Outbound>)
    requires sent != []
    ensures forall o :: o in sent ==> o.createdAt <= LatestDate(sent)
    ensures exists o :: o in sent && o.createdAt == LatestDate(sent)
  {
    var front, last := sent[..|sent| - 1], sent[|sent| - 1];
    assert sent == front + [last];
    if front == [] {
      assert last in sent;
    } else {
      LatestDateIsLatest(front);
      var o :| o in front && o.createdAt == LatestDate(front);
      assert o in sent && last in sent;
    }
  }

  ghost predicate IsSent(db: Db, id: string, sent: Outbound) {
    sent in db.outbound && sent.conversationId == id && sent.followUp
  }

  /** There are follow-ups, and the message is later than all of them. */
  ghost predicate RepliedSince(db: Db, id: string, message: Inbound) {
    (exists o :: IsSent(db, id, o)) && forall o :: IsSent(db, id, o) ==> o.createdAt < message.receivedAt
  }

  lemma RepliedExactlyWhen(db: Db, id: string, message: Inbound)
    ensures var sent := SentFollowUps(db.outbound, id);
            (sent != [] && message.receivedAt > LatestDate(sent)) <==> RepliedSince(db, id, message)
  {
    var sent := SentFollowUps(db.outbound, id);
    SentFollowUpsAreSent(db.outbound, id);
    assert forall o :: o in sent <==> o in multiset(sent);
    assert forall o :: o in db.outbound <==> o in multiset(db.outbound);
    assert forall o :: o in sent <==> IsSent(db, id, o);
    if sent != [] {
      LatestDateIsLatest(sent);
      assert sent[0] in sent;
    }
  }

  /** The conversation's follow-up reviews. */
  function FollowUpsOf(db: Db, id: string): set<string> {
    set r | r in db.reviews && db.reviews[r].entityType == "conversation" && db.reviews[r].entityId == id && db.reviews[r].reasonCode == "follow_up_due"
  }

  /** The company's follow-up reviews; no company has none. */
  ghost function FollowUpsAt(db: Db, company: Option<string>): set<string> {
    set r | && r in db.reviews && db.reviews[r].entityType == "conversation" && db.reviews[r].reasonCode == "follow_up_due"
            && company.Some? && exists c :: c in db.conversations && c.id == db.reviews[r].entityId && c.companyName == company
  }

  predicate IsClosed(conversation: Conversation) {
    conversation.status in {"closed", "archived", "rejected"}
  }

  lemma ReviewsAreFollowUps(db: Db, id: string, company: Option<string>)
    ensures ReviewsOf(db.reviews, id) == FollowUpsOf(db, id)
    ensures CompanyReviews(db, company) == FollowUpsAt(db, company)
  {}

  /** Which of its checks a plan fails: each reason is given exactly when its own is the first. */
  lemma PlanTellsFirstFailure(lastAt: int, category: Category, own: nat, replied: bool, closed: bool, company: nat)
    ensures var plan := PlanFollowUp(lastAt, category, own, replied, closed, company);
            && (plan.Due? <==> !closed && !replied && company < 5 && own < 2 && category.OtherCategory?)
            && (plan.Due? ==> plan.at == lastAt + 3 * 24 * 60 * 60 * 1000)
            && (plan == No("thread_closed") <==> closed)
            && (plan == No("recruiter_replied_after_last_follow_up") <==> replied && !closed)
            && (plan == No("company_follow_up_cap_reached") <==> company >= 5 && !closed && !replied)
            && (plan == No("follow_up_cap_reached") <==> own >= 2 && !closed && !replied && company < 5)
            && (plan == No("category_not_follow_up_eligible") <==>
                  category in {Rejection, SpamIrrelevant, Unknown} && !closed && !replied && company < 5 && own < 2)
  {}

  /** What the plan for a conversation whose latest message is the `k`-th reads of the database. */
  lemma PlanReads(db: Db, conversation: Conversation, k: int)
    requires IsLatestAt(db.inbound, conversation.id, k)
    ensures var message := db.inbound[k];
            var category := if message.id in db.categories then db.categories[message.id] else Unknown;
            PlanFor(db, conversation)
            == PlanFollowUp(
                 message.receivedAt, category,
                 |SentFollowUps(db.outbound, conversation.id)| + |FollowUpsOf(db, conversation.id)|,
                 RepliedSince(db, conversation.id, message),
                 IsClosed(conversation) || category == Rejection || category == SpamIrrelevant,
                 |FollowUpsAt(db, conversation.companyName)|)
  {
    LatestIsLast(db.inbound, conversation.id, k);
    RepliedExactlyWhen(db, conversation.id, db.inbound[k]);
    ReviewsAreFollowUps(db, conversation.id, conversation.companyName);
  }

  /**
   A follow-up is due, three days after the latest message, exactly when the thread is open, the
   message is of an eligible kind, the recruiter has not replied to the follow-ups sent, and both
   caps leave room.
   */
  lemma DueExactlyWhen(db: Db, conversation: Conversation, k: int)
    requires IsLatestAt(db.inbound, conversation.id, k)
    ensures var message := db.inbound[k];
            PlanFor(db, conversation).Due? <==>
              && !IsClosed(conversation) && message.id in db.categories && db.categories[message.id].OtherCategory?
              && !RepliedSince(db, conversation.id, message)
              && |SentFollowUps(db.outbound, conversation.id)| + |FollowUpsOf(db, conversation.id)| < 2
              && |FollowUpsAt(db, conversation.companyName)| < 5
    ensures PlanFor(db, conversation).Due? ==> PlanFor(db, conversation).at == db.inbound[k].receivedAt + 3 * 24 * 60 * 60 * 1000
  {
    PlanReads(db, conversation, k);
  }

  // The planner

  predicate Creates(db: Db, conversation: Conversation, now: int) {
    && PlanFor(db, conversation).Due? && PlanFor(db, conversation).at <= now
    && OpenReviewsOf(db.reviews, conversation.id) == {}
  }

  function NewReview(db: Db, conversation: Conversation): Review {
    Review(db.userId, "conversation", conversation.id, "follow_up_due", true, "")
  }

  function PlanOne(db: Db, conversation: Conversation, now: int, freshId: string): Db {
    if Creates(db, conversation, now) then db.(reviews := db.reviews[freshId := NewReview(db, conversation)]) else db
  }

  /** The planner from the `k`-th conversation on; `freshIds` are the ids new reviews would get. */
  function PlanFrom(db: Db, now: int, freshIds: seq<string>, k: nat): (after: Db)
    requires k <= |db.conversations| == |freshIds|
    ensures after.conversations == db.conversations
    decreases |db.conversations| - k
  {
    if k == |db.conversations| then db else PlanFrom(PlanOne(db, db.conversations[k], now, freshIds[k]), now, freshIds, k + 1)
  }

  predicate AreFresh(db: Db, freshIds: seq<string>) {
    && |freshIds| == |db.conversations|
    && (forall i :: 0 <= i < |freshIds| ==> freshIds[i] !in db.reviews)
    && (forall i, j :: 0 <= i < j < |freshIds| ==> freshIds[i] != freshIds[j])
  }

  /** An entry of the answer: a conversation passed over, or one whose follow-up is due, with a new review or an open one. */
  datatype Outcome = Skipped(conversationId: string, reason: string) | Planned(conversationId: string, at: int, created: bool)

  function OutcomeOf(db: Db, conversation: Conversation, now: int): Outcome {
    match PlanFor(db, conversation)
    case No(reason) => Skipped(conversation.id, reason)
    case Due(at) =>
      if at > now then Skipped(conversation.id, "follow_up_not_due") else Planned(conversation.id, at, Creates(db, conversation, now))
  }

  /**
   A review may be created: three days have passed since the conversation's latest message, its thread is
   open and of an eligible kind, unanswered follow-ups leave room under both caps, and none is open.
   */
  ghost predicate MayFollowUp(db: Db, conversation: Conversation, now: int) {
    && !IsClosed(conversation)
    && |SentFollowUps(db.outbound, conversation.id)| + |FollowUpsOf(db, conversation.id)| < 2
    && |FollowUpsAt(db, conversation.companyName)| < 5
    && (forall r :: r in FollowUpsOf(db, conversation.id) ==> !db.reviews[r].open)
    && exists k :: IsRipe(db, conversation.id, k, now)
  }

  ghost predicate IsRipe(db: Db, id: string, k: int, now: int) {
    && IsLatestAt(db.inbound, id, k)
    && now - db.inbound[k].receivedAt >= 3 * 24 * 60 * 60 * 1000
    && db.inbound[k].id in db.categories && db.categories[db.inbound[k].id].OtherCategory?
    && !RepliedSince(db, id, db.inbound[k])
  }

  lemma NoneOpenExactlyWhen(db: Db, id: string)
    ensures OpenReviewsOf(db.reviews, id) == {} <==> forall r :: r in FollowUpsOf(db, id) ==> !db.reviews[r].open
  {
    if forall r :: r in FollowUpsOf(db, id) ==> !db.reviews[r].open {
      assert forall r :: r in OpenReviewsOf(db.reviews, id) ==> r in FollowUpsOf(db, id);
    } else {
      var r :| r in FollowUpsOf(db, id) && db.reviews[r].open;
      assert r in OpenReviewsOf(db.reviews, id);
    }
  }

  lemma RipeExactlyWhen(db: Db, id: string, k: int, now: int)
    requires IsLatestAt(db.inbound, id, k)
    ensures (exists j :: IsRipe(db, id, j, now)) <==> IsRipe(db, id, k, now)
  {
    if j :| IsRipe(db, id, j, now) {
      assert j == k;
    }
  }

  lemma CreatesExactlyWhen(db: Db, conversation: Conversation, now: int)
    ensures Creates(db, conversation, now) <==> MayFollowUp(db, conversation, now)
  {
    NoneOpenExactlyWhen(db, conversation.id);
    LastInboundIsLatest(db.inbound, conversation.id);
    if k :| IsLatestAt(db.inbound, conversation.id, k) {
      LatestIsLast(db.inbound, conversation.id, k);
      DueExactlyWhen(db, conversation, k);
      RipeExactlyWhen(db, conversation.id, k, now);
    }
  }

  /** The answer names the conversation, and the review it tells of is one for its user, open, or was there before. */
  lemma OutcomeTellsReview(db: Db, conversation: Conversation, now: int, freshId: string)
    requires freshId !in db.reviews
    ensures var after, outcome := PlanOne(db, conversation, now, freshId), OutcomeOf(db, conversation, now);
            && outcome.conversationId == conversation.id
            && (if outcome.Planned? && outcome.created then
                  && MayFollowUp(db, conversation, now)
                  && after == db.(reviews := db.reviews[freshId := Review(db.userId, "conversation", conversation.id, "follow_up_due", true, "")])
                else after == db && !MayFollowUp(db, conversation, now))
            && (outcome.Planned? ==> outcome.at <= now && PlanFor(db, conversation) == Due(outcome.at))
            && (outcome.Planned? && !outcome.created <==>
                  && PlanFor(db, conversation).Due? && PlanFor(db, conversation).at <= now
                  && exists r :: r in FollowUpsOf(db, conversation.id) && db.reviews[r].open)
            && (outcome.Skipped? ==>
                  outcome.reason == if PlanFor(db, conversation).No? then PlanFor(db, conversation).reason else "follow_up_not_due")
            && ((forall i :: 0 <= i < |db.inbound| ==> db.inbound[i].conversationId != Some(conversation.id)) ==>
                  outcome == Skipped(conversation.id, "no_inbound_message"))
  {
    LastInboundIsLatest(db.inbound, conversation.id);
    CreatesExactlyWhen(db, conversation, now);
    ReviewsAreFollowUps(db, conversation.id, conversation.companyName);
    assert forall r :: r in OpenReviewsOf(db.reviews, conversation.id) <==> r in FollowUpsOf(db, conversation.id) && db.reviews[r].open;
  }

  function OutcomesFrom(db: Db, now: int, freshIds: seq<string>, k: nat): seq<Outcome>
    requires k <= |db.conversations| == |freshIds|
    decreases |db.conversations| - k
  {
    if k == |db.conversations| then []
    else
      [OutcomeOf(db, db.conversations[k], now)] + OutcomesFrom(PlanOne(db, db.conversations[k], now, freshIds[k]), now, freshIds, k + 1)
  }

  class FollowUpPlanner {
    var db: Db

    constructor (initial: Db)
      ensures db == initial
    {
      db := initial;
    }

    method PlanConversation(conversation: Conversation, now: int, freshId: string) returns (outcome: Outcome)
      modifies this
      ensures db == PlanOne(old(db), conversation, now, freshId)
      ensures outcome == OutcomeOf(old(db), conversation, now)
    {
      match PlanFor(db, conversation) {
        case No(reason) =>
          outcome := Skipped(conversation.id, reason);
        case Due(at) =>
          if at > now {
            return Skipped(conversation.id, "follow_up_not_due");
          }
          if OpenReviewsOf(db.reviews, conversation.id) != {} {
            return Planned(conversation.id, at, false);
          }
          db := db.(reviews := db.reviews[freshId := NewReview(db, conversation)]);
          outcome := Planned(conversation.id, at, true);
      }
    }

    method PlanConservativeFollowUps(now: int, freshIds: seq<string>) returns (outcomes: seq<Outcome>)
      requires AreFresh(db, freshIds)
      modifies this
      ensures db == PlanFrom(old(db), now, freshIds, 0)
      ensures outcomes == OutcomesFrom(old(db), now, freshIds, 0)
    {
      outcomes := [];
      for k := 0 to |db.conversations|
        invariant db.conversations == old(db.conversations)
        invariant PlanFrom(db, now, freshIds, k) == PlanFrom(old(db), now, freshIds, 0)
        invariant outcomes + OutcomesFrom(db, now, freshIds, k) == OutcomesFrom(old(db), now, freshIds, 0)
      {
        ghost var before := db;
        var outcome := PlanConversation(db.conversations[k], now, freshIds[k]);
        assert outcomes + OutcomesFrom(before, now, freshIds, k) == outcomes + [outcome] + OutcomesFrom(db, now, freshIds, k + 1);
        outcomes := outcomes + [outcome];
      }
    }
  }

  // What one planned conversation keeps

  ghost predicate WithinCaps(db: Db) {
    && (forall id :: |ReviewsOf(db.reviews, id)| <= MAX_PER_CONVERSATION)
    && (forall id :: |OpenReviewsOf(db.reviews, id)| <= 1)
    && (forall company :: |CompanyReviews(db, company)| <= MAX_PER_COMPANY)
  }

  /** Each conversation id has one company. */
  ghost predicate CompaniesAreClear(db: Db) {
    forall left, right :: left in db.conversations && right in db.conversations && left.id == right.id ==> left.companyName == right.companyName
  }

  lemma ConversationGrows(reviews: map<string, Review>, freshId: string, review: Review, id: string)
    requires freshId !in reviews && IsFollowUp(review) && review.open
    ensures var added := if id == review.entityId then {freshId} else {};
            && ReviewsOf(reviews[freshId := review], id) == ReviewsOf(reviews, id) + added
            && OpenReviewsOf(reviews[freshId := review], id) == OpenReviewsOf(reviews, id) + added
  {}

  lemma PlanOneKeepsCaps(db: Db, conversation: Conversation, now: int, freshId: string)
    requires WithinCaps(db) && CompaniesAreClear(db) && conversation in db.conversations && freshId !in db.reviews
    ensures WithinCaps(PlanOne(db, conversation, now, freshId))
  {
    var after := PlanOne(db, conversation, now, freshId);
    if Creates(db, conversation, now) {
      CapsLeaveRoom(db, conversation, now);
      forall id
        ensures |ReviewsOf(after.reviews, id)| <= MAX_PER_CONVERSATION && |OpenReviewsOf(after.reviews, id)| <= 1
      {
        ConversationGrows(db.reviews, freshId, NewReview(db, conversation), id);
      }
      forall company
        ensures |CompanyReviews(after, company)| <= MAX_PER_COMPANY
      {
        CompanyGrows(db, conversation, now, freshId, company);
      }
    }
  }

  lemma CapsLeaveRoom(db: Db, conversation: Conversation, now: int)
    requires Creates(db, conversation, now)
    ensures |ReviewsOf(db.reviews, conversation.id)| < MAX_PER_CONVERSATION
    ensures |CompanyReviews(db, conversation.companyName)| < MAX_PER_COMPANY
  {}

  lemma CompanyGrows(db: Db, conversation: Conversation, now: int, freshId: string, company: Option<string>)
    requires CompaniesAreClear(db) && conversation in db.conversations && freshId !in db.reviews && Creates(db, conversation, now)
    ensures CompanyReviews(PlanOne(db, conversation, now, freshId), company)
         == CompanyReviews(db, company) + if company.Some? && company == conversation.companyName then {freshId} else {}
  {}

  lemma {:induction false} PlanFromKeepsCaps(db: Db, now: int, freshIds: seq<string>, k: nat)
    requires k <= |db.conversations| == |freshIds| && WithinCaps(db) && CompaniesAreClear(db)
    requires forall i :: k <= i < |freshIds| ==> freshIds[i] !in db.reviews
    requires forall i, j :: k <= i < j < |freshIds| ==> freshIds[i] != freshIds[j]
    ensures WithinCaps(PlanFrom(db, now, freshIds, k))
    decreases |db.conversations| - k
  {
    if k < |db.conversations| {
      PlanOneKeepsCaps(db, db.conversations[k], now, freshIds[k]);
      PlanFromKeepsCaps(PlanOne(db, db.conversations[k], now, freshIds[k]), now, freshIds, k + 1);
    }
  }

  /** The answer tells of every conversation in turn, and of a new review for each one created. */
  lemma {:induction false} AnswerTellsAll(db: Db, now: int, freshIds: seq<string>, k: nat, i: nat)
    requires k <= |db.conversations| == |freshIds| && k + i < |db.conversations|
    requires forall j :: k <= j < |freshIds| ==> freshIds[j] !in db.reviews
    requires forall j, l :: k <= j < l < |freshIds| ==> freshIds[j] != freshIds[l]
    ensures var outcomes := OutcomesFrom(db, now, freshIds, k);
            && |outcomes| == |db.conversations| - k && outcomes[i].conversationId == db.conversations[k + i].id
            && (outcomes[i].Planned? && outcomes[i].created <==> freshIds[k + i] in PlanFrom(db, now, freshIds, k).reviews)
    decreases |db.conversations| - k
  {
    if i > 0 {
      AnswerTellsAll(PlanOne(db, db.conversations[k], now, freshIds[k]), now, freshIds, k + 1, i - 1);
    } else {
      AnswerTellsFirst(db, now, freshIds, k);
    }
  }

  lemma AnswerTellsFirst(db: Db, now: int, freshIds: seq<string>, k: nat)
    requires k < |db.conversations| == |freshIds| && freshIds[k] !in db.reviews
    requires forall j :: k < j < |freshIds| ==> freshIds[j] != freshIds[k]
    ensures var outcomes := OutcomesFrom(db, now, freshIds, k);
            && |outcomes| == |db.conversations| - k && outcomes[0].conversationId == db.conversations[k].id
            && (outcomes[0].Planned? && outcomes[0].created <==> freshIds[k] in PlanFrom(db, now, freshIds, k).reviews)
  {
    var conversation := db.conversations[k];
    var next := PlanOne(db, conversation, now, freshIds[k]);
    AnswerLength(next, now, freshIds, k + 1);
    OnlyFreshAreAdded(next, now, freshIds, k + 1, freshIds[k]);
    OutcomeTellsReview(db, conversation, now, freshIds[k]);
    assert OutcomesFrom(db, now, freshIds, k) == [OutcomeOf(db, conversation, now)] + OutcomesFrom(next, now, freshIds, k + 1);
    assert PlanFrom(db, now, freshIds, k) == PlanFrom(next, now, freshIds, k + 1);
  }

  lemma {:induction false} AnswerLength(db: Db, now: int, freshIds: seq<string>, k: nat)
    requires k <= |db.conversations| == |freshIds|
    ensures |OutcomesFrom(db, now, freshIds, k)| == |db.conversations| - k
    decreases |db.conversations| - k
  {
    if k < |db.conversations| {
      AnswerLength(PlanOne(db, db.conversations[k], now, freshIds[k]), now, freshIds, k + 1);
    }
  }

  lemma {:induction false} OnlyFreshAreAdded(db: Db, now: int, freshIds: seq<string>, k: nat, id: string)
    requires k <= |db.conversations| == |freshIds| && forall j :: k <= j < |freshIds| ==> freshIds[j] != id
    ensures id in PlanFrom(db, now, freshIds, k).reviews <==> id in db.reviews
    decreases |db.conversations| - k
  {
    if k < |db.conversations| {
      OnlyFreshAreAdded(PlanOne(db, db.conversations[k], now, freshIds[k]), now, freshIds, k + 1, id);
    }
  }

  // Repeating a call

  /** The same database with at least as many reviews. */
  ghost predicate MoreReviews(less: Db, more: Db) {
    && more == less.(reviews := more.reviews)
    && forall r :: r in less.reviews ==> r in more.reviews && more.reviews[r] == less.reviews[r]
  }

  /** With more reviews a conversation is planned only if it was planned with less. */
  lemma MoreReviewsPlanLess(less: Db, more: Db, conversation: Conversation)
    requires MoreReviews(less, more) && PlanFor(more, conversation).Due?
    ensures PlanFor(less, conversation) == PlanFor(more, conversation)
  {
    SubsetSize(ReviewsOf(less.reviews, conversation.id), ReviewsOf(more.reviews, conversation.id));
    SubsetSize(CompanyReviews(less, conversation.companyName), CompanyReviews(more, conversation.companyName));
  }

  /** The conversation would get no review. */
  ghost predicate IsSettled(db: Db, conversation: Conversation, now: int) {
    !Creates(db, conversation, now)
  }

  lemma SettledStays(less: Db, more: Db, conversation: Conversation, now: int)
    requires MoreReviews(less, more) && IsSettled(less, conversation, now)
    ensures IsSettled(more, conversation, now)
  {
    if PlanFor(more, conversation).Due? {
      MoreReviewsPlanLess(less, more, conversation);
      assert OpenReviewsOf(less.reviews, conversation.id) <= OpenReviewsOf(more.reviews, conversation.id);
    }
  }

  lemma PlanOneSettles(db: Db, conversation: Conversation, now: int, freshId: string)
    requires freshId !in db.reviews
    ensures MoreReviews(db, PlanOne(db, conversation, now, freshId))
    ensures IsSettled(PlanOne(db, conversation, now, freshId), conversation, now)
  {
    if Creates(db, conversation, now) {
      assert freshId in OpenReviewsOf(PlanOne(db, conversation, now, freshId).reviews, conversation.id);
    }
  }

  lemma {:induction false} PlanFromSettles(db: Db, now: int, freshIds: seq<string>, k: nat)
    requires k <= |db.conversations| == |freshIds|
    requires forall i :: k <= i < |freshIds| ==> freshIds[i] !in db.reviews
    requires forall i, j :: k <= i < j < |freshIds| ==> freshIds[i] != freshIds[j]
    ensures MoreReviews(db, PlanFrom(db, now, freshIds, k))
    ensures forall i :: k <= i < |db.conversations| ==> IsSettled(PlanFrom(db, now, freshIds, k), db.conversations[i], now)
    decreases |db.conversations| - k
  {
    if k < |db.conversations| {
      var next := PlanOne(db, db.conversations[k], now, freshIds[k]);
      PlanOneSettles(db, db.conversations[k], now, freshIds[k]);
      PlanFromSettles(next, now, freshIds, k + 1);
      SettledStays(next, PlanFrom(next, now, freshIds, k + 1), db.conversations[k], now);
    }
  }

  lemma {:induction false} SettledPlansNothing(db: Db, now: int, freshIds: seq<string>, k: nat)
    requires k <= |db.conversations| == |freshIds|
    requires forall i :: k <= i < |db.conversations| ==> IsSettled(db, db.conversations[i], now)
    ensures PlanFrom(db, now, freshIds, k) == db
    decreases |db.conversations| - k
  {
    if k < |db.conversations| {
      SettledPlansNothing(db, now, freshIds, k + 1);
    }
  }

  /** The review tells of a conversation that was to be followed up. */
  ghost predicate IsDueReview(db: Db, review: Review, now: int) {
    exists c :: c in db.conversations && review == Review(db.userId, "conversation", c.id, "follow_up_due", true, "") && MayFollowUp(db, c, now)
  }

  lemma {:induction false} PlanFromCreatesDue(db: Db, now: int, freshIds: seq<string>, k: nat, r: string)
    requires k <= |db.conversations| == |freshIds|
    requires forall i :: k <= i < |freshIds| ==> freshIds[i] !in db.reviews
    requires forall i, j :: k <= i < j < |freshIds| ==> freshIds[i] != freshIds[j]
    requires r in PlanFrom(db, now, freshIds, k).reviews && r !in db.reviews
    ensures IsDueReview(db, PlanFrom(db, now, freshIds, k).reviews[r], now)
    decreases |db.conversations| - k
  {
    if k < |db.conversations| {
      var conversation := db.conversations[k];
      var next := PlanOne(db, conversation, now, freshIds[k]);
      OutcomeTellsReview(db, conversation, now, freshIds[k]);
      if r in next.reviews {
        PlanFromSettles(next, now, freshIds, k + 1);
      } else {
        PlanFromCreatesDue(next, now, freshIds, k + 1, r);
        var c :| c in next.conversations && PlanFrom(next, now, freshIds, k + 1).reviews[r] == Review(db.userId, "conversation", c.id, "follow_up_due", true, "")
                 && MayFollowUp(next, c, now);
        DueBefore(db, next, c, now);
      }
    }
  }

  lemma DueBefore(less: Db, more: Db, conversation: Conversation, now: int)
    requires MoreReviews(less, more) && MayFollowUp(more, conversation, now)
    ensures MayFollowUp(less, conversation, now)
  {
    CreatesExactlyWhen(less, conversation, now);
    CreatesExactlyWhen(more, conversation, now);
    if IsSettled(less, conversation, now) {
      SettledStays(less, more, conversation, now);
    }
  }

  /** A call keeps every review, and creates reviews only for conversations whose follow-up was due. */
  lemma CallCreatesOnlyDue(db: Db, now: int, freshIds: seq<string>, r: string)
    requires AreFresh(db, freshIds)
    ensures var after := PlanFrom(db, now, freshIds, 0).reviews;
            && (r in db.reviews ==> r in after && after[r] == db.reviews[r])
            && (r in after && r !in db.reviews ==> IsDueReview(db, after[r], now))
  {
    PlanFromSettles(db, now, freshIds, 0);
    if r in PlanFrom(db, now, freshIds, 0).reviews && r !in db.reviews {
      PlanFromCreatesDue(db, now, freshIds, 0, r);
    }
  }

  /** Repeating a call at the same clock creates nothing. */
  lemma RepeatCreatesNothing(db: Db, now: int, freshIds: seq<string>, again: seq<string>)
    requires AreFresh(db, freshIds) && |again| == |freshIds|
    ensures var planned := PlanFrom(db, now, freshIds, 0);
            PlanFrom(planned, now, again, 0) == planned
  {
    PlanFromSettles(db, now, freshIds, 0);
    SettledPlansNothing(PlanFrom(db, now, freshIds, 0), now, again, 0);
  }

  // Runs

  /** Planning calls, and everything else that may happen to the database in between. */
  datatype Step = PlanStep(now: int, freshIds: seq<string>) | OtherStep(after: Db)

  /** Elsewhere no follow-up review is created or reopened, and no conversation is lost or changes company. */
  ghost predicate IsElsewhere(before: Db, after: Db) {
    && CompaniesAreClear(after)
    && (forall c :: c in before.conversations ==> exists d :: d in after.conversations && d.id == c.id)
    && (forall c, d :: c in before.conversations && d in after.conversations && c.id == d.id ==> c.companyName == d.companyName)
    && (forall r :: r in after.reviews && IsFollowUp(after.reviews[r]) ==>
          && r in before.reviews && after.reviews[r].(open := false, details := "") == before.reviews[r].(open := false, details := "")
          && (after.reviews[r].open ==> before.reviews[r].open))
  }

  ghost predicate IsRun(states: seq<Db>, steps: seq<Step>) {
    && |states| == |steps| + 1
    && states[0].reviews == map[] && CompaniesAreClear(states[0])
    && forall i :: 0 <= i < |steps| ==> IsStep(states[i], steps[i], states[i + 1])
  }

  ghost predicate IsStep(before: Db, step: Step, after: Db) {
    match step
    case PlanStep(now, freshIds) => AreFresh(before, freshIds) && after == PlanFrom(before, now, freshIds, 0)
    case OtherStep(other) => after == other && IsElsewhere(before, after)
  }

  /** Every follow-up review belongs to a stored conversation. */
  ghost predicate ReviewsHaveConversations(db: Db) {
    forall r :: r in db.reviews && IsFollowUp(db.reviews[r]) ==> exists c :: c in db.conversations && c.id == db.reviews[r].entityId
  }

  lemma ElsewhereKeepsCaps(before: Db, after: Db)
    requires IsElsewhere(before, after) && WithinCaps(before) && ReviewsHaveConversations(before)
    ensures WithinCaps(after) && ReviewsHaveConversations(after)
  {
    forall id
      ensures |ReviewsOf(after.reviews, id)| <= MAX_PER_CONVERSATION && |OpenReviewsOf(after.reviews, id)| <= 1
    {
      SubsetSize(ReviewsOf(after.reviews, id), ReviewsOf(before.reviews, id));
      SubsetSize(OpenReviewsOf(after.reviews, id), OpenReviewsOf(before.reviews, id));
    }
    forall company
      ensures |CompanyReviews(after, company)| <= MAX_PER_COMPANY
    {
      ElsewhereKeepsCompany(before, after, company);
      SubsetSize(CompanyReviews(after, company), CompanyReviews(before, company));
    }
  }

  lemma ElsewhereKeepsCompany(before: Db, after: Db, company: Option<string>)
    requires IsElsewhere(before, after) && ReviewsHaveConversations(before)
    ensures CompanyReviews(after, company) <= CompanyReviews(before, company)
  {}

  lemma {:induction false} PlanFromKeepsConversations(db: Db, now: int, freshIds: seq<string>, k: nat)
    requires k <= |db.conversations| == |freshIds| && ReviewsHaveConversations(db)
    ensures ReviewsHaveConversations(PlanFrom(db, now, freshIds, k))
    decreases |db.conversations| - k
  {
    if k < |db.conversations| {
      PlanFromKeepsConversations(PlanOne(db, db.conversations[k], now, freshIds[k]), now, freshIds, k + 1);
    }
  }

  lemma {:induction false} RunKeepsCaps(states: seq<Db>, steps: seq<Step>, n: nat)
    requires IsRun(states, steps) && n <= |steps|
    ensures WithinCaps(states[n]) && ReviewsHaveConversations(states[n]) && CompaniesAreClear(states[n])
  {
    if n == 0 {
      assert forall id :: ReviewsOf(states[0].reviews, id) == {} && OpenReviewsOf(states[0].reviews, id) == {};
      assert forall company :: CompanyReviews(states[0], company) == {};
    } else {
      RunKeepsCaps(states, steps, n - 1);
      assert IsStep(states[n - 1], steps[n - 1], states[n]);
      match steps[n - 1]
      case PlanStep(now, freshIds) =>
        PlanFromKeepsCaps(states[n - 1], now, freshIds, 0);
        PlanFromKeepsConversations(states[n - 1], now, freshIds, 0);
      case OtherStep(after) => ElsewhereKeepsCaps(states[n - 1], after);
    }
  }

  /** At most two reviews and one open one a conversation, at most five a company, however often follow-ups are planned. */
  lemma FollowUpsStayWithinCaps(states: seq<Db>, steps: seq<Step>, n: nat, id: string, company: string)
    requires IsRun(states, steps) && n <= |steps|
    ensures |FollowUpsOf(states[n], id)| <= 2 && |FollowUpsAt(states[n], Some(company))| <= 5
    ensures |set r | r in FollowUpsOf(states[n], id) && states[n].reviews[r].open| <= 1
  {
    RunKeepsCaps(states, steps, n);
    ReviewsAreFollowUps(states[n], id, Some(company));
    assert OpenReviewsOf(states[n].reviews, id) == set r | r in FollowUpsOf(states[n], id) && states[n].reviews[r].open;
  }

  /** The follow-up review tells of a call of the run that found the conversation due. */
  ghost predicate IsPlannedAt(states: seq<Db>, steps: seq<Step>, i: int, review: Review) {
    && 0 <= i < |steps| && i < |states| && steps[i].PlanStep?
    && exists created :: IsDueReview(states[i], created, steps[i].now)
                         && review.(open := true, details := "") == created
  }

  /** Every follow-up review of every run was created by a call at a time when its conversation was due. */
  lemma {:induction false} ReviewsComeFromDueCalls(states: seq<Db>, steps: seq<Step>, n: nat, r: string)
    requires IsRun(states, steps) && n <= |steps|
    requires r in states[n].reviews && states[n].reviews[r].entityType == "conversation" && states[n].reviews[r].reasonCode == "follow_up_due"
    ensures exists i :: i < n && IsPlannedAt(states, steps, i, states[n].reviews[r])
  {
    if n > 0 {
      var before, after := states[n - 1], states[n];
      assert IsStep(before, steps[n - 1], after);
      if r in before.reviews && IsFollowUp(before.reviews[r]) {
        ReviewsComeFromDueCalls(states, steps, n - 1, r);
        var i :| i < n - 1 && IsPlannedAt(states, steps, i, before.reviews[r]);
        if steps[n - 1].PlanStep? {
          CallCreatesOnlyDue(before, steps[n - 1].now, steps[n - 1].freshIds, r);
        }
        assert IsPlannedAt(states, steps, i, after.reviews[r]);
      } else {
        CallCreatesOnlyDue(before, steps[n - 1].now, steps[n - 1].freshIds, r);
        assert after.reviews[r].(open := true, details := "") == after.reviews[r];
        assert IsPlannedAt(states, steps, n - 1, after.reviews[r]);
      }
    }
  }
}
