/** The stored records the submit protocol reads and writes, and the dedup keys of jobs. */
module Records {
  import opened Common
  import opened Drafts

  /** `details` stands for the job fields that no modelled branch reads by name. */
  datatype Job = Job(
    id: string, sourceProvider: string, externalId: string, canonicalUrl: Option<string>, title: string,
    companyName: Option<string>, seniority: Option<string>, description: string, details: string)

  datatype ApplicationStatus =
    | ApplicationPrepared | ManualReviewRequired | ApplyQueued | ApplyDryRunPassed | Applying | Applied
    | ApplyFailed | ApplyBlockedByPolicy | ApplyBlockedByProvider | DuplicatePrevented

  datatype Application = Application(
    id: string, jobId: string, providerId: string, externalJobId: string, candidateProfileId: Option<string>,
    resumeId: Option<string>, coverLetterId: Option<string>, status: ApplicationStatus, idempotencyKey: string,
    draftVariantKey: Option<Digest>, proofPackId: Option<string>, submittedAt: Option<int>, createdAt: int)

  datatype FinalStatus = DryRunPassed | SubmitBoundaryReached | Succeeded | OtherFinalStatus(name: string)

  datatype ProofPack = ProofPack(
    provider: string, entityId: string, finalStatus: FinalStatus, errorCode: Option<string>,
    completedAt: Option<int>, preActionScreenshotKey: Option<string>, domSnapshotBeforeKey: Option<string>)

  datatype CanaryRun = CanaryRun(providerId: string, passed: bool, createdAt: int)

  datatype AppMode = ReadOnly | DryRunApply | ReviewFirst | ControlledAutoApply | FullAutoApply | ConversationOnly | Paused

  datatype ProviderStatus = Stable | Degraded | ReadOnlyProvider | ApplyDisabled | Blocked | NeedsReview | Deprecated

  /** The regular-expression text helpers, left uninterpreted. */
  datatype TextRules = TextRules(
    normalizedText: Option<string> -> string,
    normalizeLimitKey: Option<string> -> string,
    canonicalizeUrl: Option<string> -> Option<string>)

  // Dedup

  /** Hashed keys are kept as the tuples they hash; normalized text contains no ':'. */
  datatype DedupKey = DedupKey(
    providerJobKey: string, canonicalUrlKey: Option<string>,
    contentHashKey: (string, string, string), companyRoleKey: (string, string, string))

  datatype DedupStatus = Duplicate | PossibleDuplicate | New

  function BuildDedupKey(text: TextRules, job: Job): DedupKey {
    var title := text.normalizedText(Some(job.title));
    var company := text.normalizedText(job.companyName);
    DedupKey(
      job.sourceProvider + ":" + job.externalId,
      text.canonicalizeUrl(job.canonicalUrl),
      (title, company, text.normalizedText(Some(job.description))),
      (company, title, text.normalizedText(job.seniority)))
  }

  /** The two keys agree in a component that makes the engine call the jobs duplicates. */
  predicate SharesKey(left: DedupKey, right: DedupKey) {
    || left.providerJobKey == right.providerJobKey
    || (left.canonicalUrlKey.Some? && left.canonicalUrlKey == right.canonicalUrlKey)
    || left.contentHashKey == right.contentHashKey
    || left.companyRoleKey == right.companyRoleKey
  }

  function DecideDedup(key: DedupKey, existing: set<DedupKey>): DedupStatus {
    if exists other | other in existing :: other.providerJobKey == key.providerJobKey then Duplicate
    else if exists other | other in existing :: other.canonicalUrlKey.Some? && other.canonicalUrlKey == key.canonicalUrlKey then Duplicate
    else if exists other | other in existing :: other.contentHashKey == key.contentHashKey then PossibleDuplicate
    else if exists other | other in existing :: other.companyRoleKey == key.companyRoleKey then PossibleDuplicate
    else New
  }

  /** A shared provider or URL key makes a duplicate; failing those, a shared content or company-role key a possible one. */
  lemma DuplicateExactlyWhen(key: DedupKey, existing: set<DedupKey>)
    ensures DecideDedup(key, existing) == Duplicate
       <==> exists other :: other in existing && (other.providerJobKey == key.providerJobKey
                                                  || (key.canonicalUrlKey.Some? && other.canonicalUrlKey == key.canonicalUrlKey))
    ensures DecideDedup(key, existing) == PossibleDuplicate
       <==> && DecideDedup(key, existing) != Duplicate
            && exists other :: other in existing && (other.contentHashKey == key.contentHashKey || other.companyRoleKey == key.companyRoleKey)
  {}

  // The same on the jobs' own fields

  /** One listing: the same id at the same provider, or the same canonical URL. */
  predicate SameListing(text: TextRules, left: Job, right: Job) {
    || left.sourceProvider + ":" + left.externalId == right.sourceProvider + ":" + right.externalId
    || (text.canonicalizeUrl(left.canonicalUrl).Some? && text.canonicalizeUrl(left.canonicalUrl) == text.canonicalizeUrl(right.canonicalUrl))
  }

  predicate SameTitleAndCompany(text: TextRules, left: Job, right: Job) {
    && text.normalizedText(Some(left.title)) == text.normalizedText(Some(right.title))
    && text.normalizedText(left.companyName) == text.normalizedText(right.companyName)
  }

  /** One vacancy: title, company and description agree once normalized, or title, company and seniority do. */
  predicate SameVacancy(text: TextRules, left: Job, right: Job) {
    && SameTitleAndCompany(text, left, right)
    && ( || text.normalizedText(Some(left.description)) == text.normalizedText(Some(right.description))
         || text.normalizedText(left.seniority) == text.normalizedText(right.seniority))
  }

  /** The components of two jobs' keys agree exactly when these fields do. */
  lemma KeysAgreeExactlyWhen(text: TextRules, left: Job, right: Job)
    ensures var (l, r) := (BuildDedupKey(text, left), BuildDedupKey(text, right));
            && (l.providerJobKey == r.providerJobKey || (l.canonicalUrlKey.Some? && l.canonicalUrlKey == r.canonicalUrlKey)
                <==> SameListing(text, left, right))
            && (l.contentHashKey == r.contentHashKey || l.companyRoleKey == r.companyRoleKey <==> SameVacancy(text, left, right))
            && (SharesKey(l, r) <==> SameListing(text, left, right) || SameVacancy(text, left, right))
  {}

  lemma NewExactlyWhenNoSharedKey(key: DedupKey, existing: set<DedupKey>)
    ensures DecideDedup(key, existing) == New <==> forall other :: other in existing ==> !SharesKey(other, key)
  {}
}
