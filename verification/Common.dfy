/** Small vocabulary shared by the other modules. */
module Common {

  datatype Option<+T> = None | Some(value: T) {

    /** The value, or `fallback` when there is none: the source's `??` operator. */
    function GetOr(fallback: T): T {
      if Some? then value else fallback
    }
  }

  const HOUR_MS: int := 60 * 60 * 1000
  const DAY_MS: int := 24 * HOUR_MS
  const WEEK_MS: int := 7 * DAY_MS
}

/**
 The content of an application draft and the strings the source derives from it.
 `stableHash(JSON.stringify(...))` is taken to be injective, so a hash is modelled
 by the content it was computed from; `Text` stands for every other string that
 may turn up where a hash is expected.
 */
module Drafts {
  import opened Common

  datatype DraftContent = DraftContent(
    jobId: string, providerId: string, externalJobId: string, candidateProfileId: string,
    resumeId: string, coverLetterId: string, coverLetterText: string, idempotencyKey: string)

  datatype Digest = HashOf(content: DraftContent) | Text(text: string)

  /** The source's truthiness test on a nullable hash: null and "" both fail it. */
  predicate Present(digest: Option<Digest>) {
    digest.Some? && digest.value != Text("")
  }
}

/** Sizes of finite sets. */
module Sets {

  lemma SubsetSize<T>(small: set<T>, big: set<T>)
    requires small <= big
    ensures |small| <= |big|
    ensures small == big || |small| < |big|
  {
    assert big == small + (big - small);
    assert |big| == |small| + |big - small|;
  }
}
