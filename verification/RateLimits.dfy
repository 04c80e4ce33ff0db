/** Sliding-window limits over the application history (packages/db/src/rate-limits.ts). */
module RateLimits {
  import opened Common
  import opened Records
  import opened Sets

  datatype WindowCheck = WindowCheck(limit: int, used: nat, remaining: int, allowed: bool, resetAt: int)

  datatype Limits = Limits(
    applicationsPerHour: int, applicationsPerDay: int, maxPerCompanyPerDay: int, maxPerCompanyPerWeek: int)

  /** The records dated after the cutoff. */
  function Recent(stamps: map<string, int>, cutoff: int): set<string> {
    set id | id in stamps && stamps[id] > cutoff
  }

  ghost predicate IsOldest(stamps: map<string, int>, ids: set<string>, date: int)
    requires ids <= stamps.Keys
  {
    (exists id :: id in ids && stamps[id] == date) && forall id :: id in ids ==> date <= stamps[id]
  }

  lemma {:induction false} OldestExists(stamps: map<string, int>, ids: set<string>)
    requires ids <= stamps.Keys && ids != {}
    ensures exists date :: IsOldest(stamps, ids, date)
    decreases |ids|
  {
    var id :| id in ids;
    var rest := ids - {id};
    if rest == {} {
      assert ids == {id};
      assert IsOldest(stamps, ids, stamps[id]);
    } else {
      OldestExists(stamps, rest);
      var date :| IsOldest(stamps, rest, date);
      assert IsOldest(stamps, ids, if stamps[id] <= date then stamps[id] else date);
    }
  }

  /** The first element of the sorted timestamps. */
  ghost function OldestDate(stamps: map<string, int>, ids: set<string>): (date: int)
    requires ids <= stamps.Keys && ids != {}
    ensures IsOldest(stamps, ids, date)
  {
    OldestExists(stamps, ids);
    var date :| IsOldest(stamps, ids, date);
    date
  }

  ghost function BuildWindowCheck(limit: int, stamps: map<string, int>, windowMs: int, now: int): WindowCheck {
    var recent := Recent(stamps, now - windowMs);
    var used := |recent|;
    // A missing and a zero timestamp are both falsy in the source.
    var resetAt :=
      if recent == {} then now + windowMs
      else
        var oldest := OldestDate(stamps, recent);
        if oldest == 0 then now + windowMs else oldest + windowMs;
    var remaining := if limit - used > 0 then limit - used else 0;
    WindowCheck(limit, used, remaining, remaining > 0, resetAt)
  }

  // The application checks

  predicate Irreversible(status: ApplicationStatus) {
    status == ApplyQueued || status == Applying || status == Applied
  }

  predicate PreparedOrLater(status: ApplicationStatus) {
    || Irreversible(status) || status == ApplicationPrepared || status == ManualReviewRequired
    || status == ApplyDryRunPassed
  }

  function Timestamp(application: Application): int {
    application.submittedAt.GetOr(application.createdAt)
  }

  /** What the seven checks group applications by. */
  datatype Group = Everything | OfProvider(providerId: string) | OfCompany(company: string) | OfCloneGroup(role: (string, string, string))

  predicate InGroup(text: TextRules, jobs: map<string, Job>, application: Application, group: Group) {
    match group
    case Everything => true
    case OfProvider(providerId) => application.providerId == providerId
    case OfCompany(company) =>
      company != "" && text.normalizeLimitKey(if application.jobId in jobs then jobs[application.jobId].companyName else None) == company
    case OfCloneGroup(role) =>
      application.jobId in jobs && RoleOf(text, jobs[application.jobId]) == role
  }

  function Stamps(
    text: TextRules, jobs: map<string, Job>, applications: map<string, Application>, group: Group,
    includePrepared: bool, exclude: Option<string>): map<string, int>
  {
    map id | && id in applications && Some(id) != exclude
             && (if includePrepared then PreparedOrLater(applications[id].status) else Irreversible(applications[id].status))
             && InGroup(text, jobs, applications[id], group)
          :: Timestamp(applications[id])
  }

  /** A limit of the profile, the window it is counted in, and the group it counts. */
  datatype Rule = Rule(limit: int, windowMs: int, group: Group)

  function CompanyOf(text: TextRules, job: Job): string {
    text.normalizeLimitKey(job.companyName)
  }

  function RoleOf(text: TextRules, job: Job): (string, string, string) {
    BuildDedupKey(text, job).companyRoleKey
  }

  /** The seven checks made for a job of a provider. */
  ghost predicate IsRuleFor(limits: Limits, text: TextRules, job: Job, providerId: string, rule: Rule) {
    || rule == Rule(limits.applicationsPerHour, HOUR_MS, Everything)
    || rule == Rule(limits.applicationsPerDay, DAY_MS, Everything)
    || rule == Rule(limits.applicationsPerHour, HOUR_MS, OfProvider(providerId))
    || rule == Rule(limits.maxPerCompanyPerDay, DAY_MS, OfCompany(CompanyOf(text, job)))
    || rule == Rule(limits.maxPerCompanyPerWeek, WEEK_MS, OfCompany(CompanyOf(text, job)))
    || rule == Rule(limits.maxPerCompanyPerDay, DAY_MS, OfCloneGroup(RoleOf(text, job)))
    || rule == Rule(limits.maxPerCompanyPerWeek, WEEK_MS, OfCloneGroup(RoleOf(text, job)))
  }

  ghost predicate ApplicationRateAllowed(
    limits: Limits, text: TextRules, applications: map<string, Application>, jobs: map<string, Job>,
    job: Job, providerId: string, includePrepared: bool, exclude: Option<string>, now: int)
  {
    forall rule :: IsRuleFor(limits, text, job, providerId, rule) ==>
      BuildWindowCheck(rule.limit, Stamps(text, jobs, applications, rule.group, includePrepared, exclude), rule.windowMs, now).allowed
  }

  /** evaluateApplicationRateLimits, as far as its `allowed` goes: the seven checks one by one. */
  predicate SevenChecksPass(
    limits: Limits, text: TextRules, applications: map<string, Application>, jobs: map<string, Job>,
    job: Job, providerId: string, includePrepared: bool, exclude: Option<string>, now: int)
  {
    var everything := Stamps(text, jobs, applications, Everything, includePrepared, exclude);
    var sameProvider := Stamps(text, jobs, applications, OfProvider(providerId), includePrepared, exclude);
    var sameCompany := Stamps(text, jobs, applications, OfCompany(CompanyOf(text, job)), includePrepared, exclude);
    var sameCloneGroup := Stamps(text, jobs, applications, OfCloneGroup(RoleOf(text, job)), includePrepared, exclude);
    && |Recent(everything, now - HOUR_MS)| < limits.applicationsPerHour
    && |Recent(everything, now - DAY_MS)| < limits.applicationsPerDay
    && |Recent(sameProvider, now - HOUR_MS)| < limits.applicationsPerHour
    && |Recent(sameCompany, now - DAY_MS)| < limits.maxPerCompanyPerDay
    && |Recent(sameCompany, now - WEEK_MS)| < limits.maxPerCompanyPerWeek
    && |Recent(sameCloneGroup, now - DAY_MS)| < limits.maxPerCompanyPerDay
    && |Recent(sameCloneGroup, now - WEEK_MS)| < limits.maxPerCompanyPerWeek
  }

  lemma ChecksCoverRules(
    limits: Limits, text: TextRules, applications: map<string, Application>, jobs: map<string, Job>,
    job: Job, providerId: string, includePrepared: bool, exclude: Option<string>, now: int)
    requires SevenChecksPass(limits, text, applications, jobs, job, providerId, includePrepared, exclude, now)
    ensures ApplicationRateAllowed(limits, text, applications, jobs, job, providerId, includePrepared, exclude, now)
  {}

  lemma RuleIsChecked(
    limits: Limits, text: TextRules, applications: map<string, Application>, jobs: map<string, Job>,
    job: Job, providerId: string, includePrepared: bool, exclude: Option<string>, now: int, rule: Rule)
    requires ApplicationRateAllowed(limits, text, applications, jobs, job, providerId, includePrepared, exclude, now)
    requires IsRuleFor(limits, text, job, providerId, rule)
    ensures |Recent(Stamps(text, jobs, applications, rule.group, includePrepared, exclude), now - rule.windowMs)| < rule.limit
  {}

  lemma AllowedWhenChecksPass(
    limits: Limits, text: TextRules, applications: map<string, Application>, jobs: map<string, Job>,
    job: Job, providerId: string, includePrepared: bool, exclude: Option<string>, now: int)
    ensures SevenChecksPass(limits, text, applications, jobs, job, providerId, includePrepared, exclude, now)
       <==> ApplicationRateAllowed(limits, text, applications, jobs, job, providerId, includePrepared, exclude, now)
  {
    if SevenChecksPass(limits, text, applications, jobs, job, providerId, includePrepared, exclude, now) {
      ChecksCoverRules(limits, text, applications, jobs, job, providerId, includePrepared, exclude, now);
    }
    if ApplicationRateAllowed(limits, text, applications, jobs, job, providerId, includePrepared, exclude, now) {
      forall rule | IsRuleFor(limits, text, job, providerId, rule)
        ensures |Recent(Stamps(text, jobs, applications, rule.group, includePrepared, exclude), now - rule.windowMs)| < rule.limit
      {
        RuleIsChecked(limits, text, applications, jobs, job, providerId, includePrepared, exclude, now, rule);
      }
      var company, role := OfCompany(CompanyOf(text, job)), OfCloneGroup(RoleOf(text, job));
      assert IsRuleFor(limits, text, job, providerId, Rule(limits.applicationsPerHour, HOUR_MS, Everything));
      assert IsRuleFor(limits, text, job, providerId, Rule(limits.applicationsPerDay, DAY_MS, Everything));
      assert IsRuleFor(limits, text, job, providerId, Rule(limits.applicationsPerHour, HOUR_MS, OfProvider(providerId)));
      assert IsRuleFor(limits, text, job, providerId, Rule(limits.maxPerCompanyPerDay, DAY_MS, company));
      assert IsRuleFor(limits, text, job, providerId, Rule(limits.maxPerCompanyPerWeek, WEEK_MS, company));
      assert IsRuleFor(limits, text, job, providerId, Rule(limits.maxPerCompanyPerDay, DAY_MS, role));
      assert IsRuleFor(limits, text, job, providerId, Rule(limits.maxPerCompanyPerWeek, WEEK_MS, role));
    }
  }

  /** Which applications a check counts, and at which date: on their own fields and those of their jobs. */
  lemma StampsAre(
    text: TextRules, jobs: map<string, Job>, applications: map<string, Application>, group: Group,
    includePrepared: bool, exclude: Option<string>, id: string)
    ensures var stamps := Stamps(text, jobs, applications, group, includePrepared, exclude);
            && (id in stamps <==>
                  && id in applications && exclude != Some(id)
                  && var application := applications[id];
                     && (application.status in {ApplyQueued, Applying, Applied}
                         || (includePrepared && application.status in {ApplicationPrepared, ManualReviewRequired, ApplyDryRunPassed}))
                     && match group
                        case Everything => true
                        case OfProvider(providerId) => application.providerId == providerId
                        case OfCompany(company) =>
                          && company != ""
                          && company == text.normalizeLimitKey(if application.jobId in jobs then jobs[application.jobId].companyName else None)
                        case OfCloneGroup(role) =>
                          && application.jobId in jobs
                          && var job := jobs[application.jobId];
                             role == (text.normalizedText(job.companyName), text.normalizedText(Some(job.title)), text.normalizedText(job.seniority)))
            && (id in stamps ==>
                  stamps[id] == if applications[id].submittedAt.Some? then applications[id].submittedAt.value else applications[id].createdAt)
  {}

  /** A check counts what is dated within the window, and leaves the rest of the limit. */
  lemma CheckMeans(limit: int, stamps: map<string, int>, windowMs: int, now: int)
    ensures var check := BuildWindowCheck(limit, stamps, windowMs, now);
            && check.limit == limit && check.used == |set id | id in stamps && now - windowMs < stamps[id]|
            && check.remaining == (if check.used < limit then limit - check.used else 0)
            && (check.allowed <==> check.used < limit)
  {
    assert Recent(stamps, now - windowMs) == set id | id in stamps && now - windowMs < stamps[id];
  }

  /**
   Full or not, a window with records keeps all of them until `resetAt` and has lost one then, unless the
   oldest is dated at the epoch; of an empty window, and then, it is a window's length from now.
   */
  lemma ResetIsNextChange(limit: int, stamps: map<string, int>, windowMs: int, now: int)
    requires 0 < windowMs
    ensures var check := BuildWindowCheck(limit, stamps, windowMs, now);
            var recent := Recent(stamps, now - windowMs);
            if recent == {} || OldestDate(stamps, recent) == 0 then check.resetAt == now + windowMs
            else
              && now < check.resetAt
              && (forall t :: now <= t < check.resetAt ==> BuildWindowCheck(limit, stamps, windowMs, t).used == check.used)
              && BuildWindowCheck(limit, stamps, windowMs, check.resetAt).used < check.used
  {
    var recent := Recent(stamps, now - windowMs);
    if recent != {} && OldestDate(stamps, recent) != 0 {
      var reset := OldestDate(stamps, recent) + windowMs;
      forall t | now <= t < reset
        ensures BuildWindowCheck(limit, stamps, windowMs, t).used == |recent|
      {
        NothingLeavesBeforeReset(limit, stamps, windowMs, now, t);
      }
      RecentShrinks(stamps, now - windowMs, reset - windowMs);
      NothingLeavesBeforeReset(limit, stamps, windowMs, now, reset);
    }
  }

  // When a blocked check opens again

  lemma RecentShrinks(stamps: map<string, int>, earlier: int, later: int)
    requires earlier <= later
    ensures Recent(stamps, later) <= Recent(stamps, earlier)
    ensures |Recent(stamps, later)| <= |Recent(stamps, earlier)|
    ensures Recent(stamps, later) == Recent(stamps, earlier) || |Recent(stamps, later)| < |Recent(stamps, earlier)|
  {
    SubsetSize(Recent(stamps, later), Recent(stamps, earlier));
  }

  /** While the oldest counted record is in the window, nothing leaves it. */
  lemma NothingLeavesBeforeReset(limit: int, stamps: map<string, int>, windowMs: int, now: int, t: int)
    requires now <= t
    requires Recent(stamps, now - windowMs) != {}
    ensures t < OldestDate(stamps, Recent(stamps, now - windowMs)) + windowMs
        <==> Recent(stamps, t - windowMs) == Recent(stamps, now - windowMs)
  {}

  /**
   For a full window, `resetAt` is the first instant at which the check passes, unless
   the oldest counted record is dated at the epoch itself, whose zero the source drops.
   */
  lemma ResetIsFirstAllowedInstant(limit: int, stamps: map<string, int>, windowMs: int, now: int)
    requires windowMs > 0
    requires limit > 0 && BuildWindowCheck(limit, stamps, windowMs, now).used == limit
    ensures (forall t :: now <= t ==>
               (BuildWindowCheck(limit, stamps, windowMs, t).allowed <==> BuildWindowCheck(limit, stamps, windowMs, now).resetAt <= t))
       <==> (now == 0 || OldestDate(stamps, Recent(stamps, now - windowMs)) != 0)
  {
    var recent := Recent(stamps, now - windowMs);
    var oldest := OldestDate(stamps, recent);
    forall t | now <= t
      ensures BuildWindowCheck(limit, stamps, windowMs, t).allowed <==> oldest + windowMs <= t
    {
      RecentShrinks(stamps, now - windowMs, t - windowMs);
      NothingLeavesBeforeReset(limit, stamps, windowMs, now, t);
    }
    if now != 0 && oldest == 0 {
      var id :| id in recent && stamps[id] == oldest;
      var t := if now > 0 then windowMs else now + windowMs;
      assert now <= t;
      assert BuildWindowCheck(limit, stamps, windowMs, t).allowed <==> windowMs <= t;
    }
  }

  /** The counted records that share the oldest date. */
  ghost function Oldest(stamps: map<string, int>, cutoff: int): set<string>
    requires Recent(stamps, cutoff) != {}
  {
    set id | id in Recent(stamps, cutoff) && stamps[id] == OldestDate(stamps, Recent(stamps, cutoff))
  }

  /**
   For an overfull window it is only a lower bound; at `resetAt` itself the check passes
   exactly when enough records share the oldest date.
   */
  lemma ResetIsLowerBound(limit: int, stamps: map<string, int>, windowMs: int, now: int)
    requires windowMs > 0 && 0 < limit
    requires BuildWindowCheck(limit, stamps, windowMs, now).used >= limit
    requires OldestDate(stamps, Recent(stamps, now - windowMs)) != 0
    ensures forall t :: now <= t < BuildWindowCheck(limit, stamps, windowMs, now).resetAt ==>
              !BuildWindowCheck(limit, stamps, windowMs, t).allowed
    ensures BuildWindowCheck(limit, stamps, windowMs, BuildWindowCheck(limit, stamps, windowMs, now).resetAt).allowed
       <==> |Recent(stamps, now - windowMs)| - |Oldest(stamps, now - windowMs)| < limit
  {
    var recent := Recent(stamps, now - windowMs);
    var oldest := OldestDate(stamps, recent);
    forall t | now <= t < oldest + windowMs
      ensures !BuildWindowCheck(limit, stamps, windowMs, t).allowed
    {
      NothingLeavesBeforeReset(limit, stamps, windowMs, now, t);
    }
    var leaving := Oldest(stamps, now - windowMs);
    assert Recent(stamps, oldest) == recent - leaving;
    assert |recent - leaving| == |recent| - |leaving|;
  }
}
