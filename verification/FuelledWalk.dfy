/**
 A walk over named states with a limited number of turns (the loop of
 `DeterministicFlowRunner.run`, packages/automation/src/index.ts), compared with the walk
 that has no limit. What a turn does is a parameter.
 */
module FuelledWalk {
  import opened Common
  import opened Sets

  datatype ErrorCode =
    | CaptchaRequired | PageFingerprintMismatch | SelectorMissing | SelectorAmbiguous | FormSchemaChanged
    | JobAlreadyApplied | JobClosed | ResumeNotAvailable | CoverLetterPolicyFailed

  datatype FlowStep = FlowStep(stateId: string, succeeded: bool, usedSelectors: seq<string>, error: Option<ErrorCode>)

  datatype Status = Succeeded | Failed | ManualReviewRequired

  /** The proof pack's final status and error are the result's; its post-action keys are empty at the boundary. */
  datatype FlowResult = FlowResult(status: Status, reachedSubmitBoundary: bool, steps: seq<FlowStep>, error: Option<ErrorCode>)

  /** One turn of the loop: the walk ends with a result, or moves on after a successful step. */
  datatype Turn = Ends(result: FlowResult) | Moves(step: FlowStep, next: string)

  type Turns = string -> Turn

  function Prepend(steps: seq<FlowStep>, result: FlowResult): FlowResult {
    result.(steps := steps + result.steps)
  }

  /** The walk with fuel; out of fuel it fails without an error code. */
  function Bounded(turns: Turns, id: string, fuel: nat): FlowResult
    decreases fuel
  {
    if fuel == 0 then FlowResult(Failed, false, [], None)
    else
      match turns(id)
      case Ends(result) => result
      case Moves(step, next) => Prepend([step], Bounded(turns, next, fuel - 1))
  }

  lemma PrependNothing(result: FlowResult)
    ensures Prepend([], result) == result
  {
    assert [] + result.steps == result.steps;
  }

  lemma EndHere(turns: Turns, id: string, fuel: nat, steps: seq<FlowStep>, result: FlowResult)
    requires 0 < fuel && turns(id) == Ends(result)
    ensures Prepend(steps, Bounded(turns, id, fuel)) == Prepend(steps, result)
  {}

  lemma MoveOn(turns: Turns, id: string, fuel: nat, steps: seq<FlowStep>, step: FlowStep, next: string)
    requires 0 < fuel && turns(id) == Moves(step, next)
    ensures Prepend(steps, Bounded(turns, id, fuel)) == Prepend(steps + [step], Bounded(turns, next, fuel - 1))
  {}

  // The walk without fuel

  /** The walk from `id` ends after exactly `n` moves. */
  predicate EndsAfter(turns: Turns, id: string, n: nat)
    decreases n
  {
    match turns(id)
    case Ends(_) => n == 0
    case Moves(_, next) => n > 0 && EndsAfter(turns, next, n - 1)
  }

  function ResultAfter(turns: Turns, id: string, n: nat): FlowResult
    requires EndsAfter(turns, id, n)
    decreases n
  {
    match turns(id)
    case Ends(result) => result
    case Moves(step, next) => Prepend([step], ResultAfter(turns, next, n - 1))
  }

  ghost predicate Halts(turns: Turns, id: string) {
    exists n: nat :: EndsAfter(turns, id, n)
  }

  /** What an interpreter without fuel returns, when it returns. */
  ghost function Unbounded(turns: Turns, id: string): FlowResult
    requires Halts(turns, id)
  {
    var n: nat :| EndsAfter(turns, id, n);
    ResultAfter(turns, id, n)
  }

  lemma {:induction false} EndIsUnique(turns: Turns, id: string, n: nat, m: nat)
    requires EndsAfter(turns, id, n) && EndsAfter(turns, id, m)
    ensures n == m
    decreases n
  {
    match turns(id)
    case Ends(_) =>
    case Moves(_, next) => EndIsUnique(turns, next, n - 1, m - 1);
  }

  lemma OneMoveMore(turns: Turns, id: string, step: FlowStep, next: string, n: nat)
    requires turns(id) == Moves(step, next) && EndsAfter(turns, next, n)
    ensures EndsAfter(turns, id, n + 1)
  {}

  /** The state the walk is in after `n` moves. */
  function Visited(turns: Turns, id: string, n: nat): string
    decreases n
  {
    if n == 0 then id
    else
      match turns(id)
      case Ends(_) => id
      case Moves(_, next) => Visited(turns, next, n - 1)
  }

  lemma {:induction false} EndsFromVisited(turns: Turns, id: string, n: nat, i: nat)
    requires EndsAfter(turns, id, n) && i <= n
    ensures EndsAfter(turns, Visited(turns, id, i), n - i)
    ensures i < n ==> turns(Visited(turns, id, i)).Moves?
    decreases n
  {
    if i > 0 {
      EndsFromVisited(turns, turns(id).next, n - 1, i - 1);
    }
  }

  /** Only these states lead on. */
  ghost predicate MovesWithin(turns: Turns, keys: set<string>) {
    forall id :: turns(id).Moves? ==> id in keys
  }

  /** A halting walk never comes back to a state: it would have to end at two different times. */
  lemma VisitsAreDistinct(turns: Turns, id: string, n: nat, i: nat, j: nat)
    requires EndsAfter(turns, id, n) && i <= n && j <= n
    requires Visited(turns, id, i) == Visited(turns, id, j)
    ensures i == j
  {
    EndsFromVisited(turns, id, n, i);
    EndsFromVisited(turns, id, n, j);
    EndIsUnique(turns, Visited(turns, id, i), n - i, n - j);
  }

  function VisitedSet(turns: Turns, id: string, n: nat): set<string> {
    set i | 0 <= i < n :: Visited(turns, id, i)
  }

  lemma {:induction false} VisitsAreCounted(turns: Turns, keys: set<string>, id: string, n: nat, k: nat)
    requires MovesWithin(turns, keys) && EndsAfter(turns, id, n) && k <= n
    ensures VisitedSet(turns, id, k) <= keys && |VisitedSet(turns, id, k)| == k
  {
    if k > 0 {
      VisitsAreCounted(turns, keys, id, n, k - 1);
      VisitIsNew(turns, keys, id, n, k - 1);
      VisitedSetGrows(turns, id, k - 1);
      var visited, visit := VisitedSet(turns, id, k - 1), Visited(turns, id, k - 1);
      assert |visited + {visit}| == |visited| + 1;
    }
  }

  lemma VisitIsNew(turns: Turns, keys: set<string>, id: string, n: nat, k: nat)
    requires MovesWithin(turns, keys) && EndsAfter(turns, id, n) && k < n
    ensures Visited(turns, id, k) in keys && Visited(turns, id, k) !in VisitedSet(turns, id, k)
  {
    EndsFromVisited(turns, id, n, k);
    if Visited(turns, id, k) in VisitedSet(turns, id, k) {
      var i :| 0 <= i < k && Visited(turns, id, i) == Visited(turns, id, k);
      VisitsAreDistinct(turns, id, n, i, k);
    }
  }

  lemma VisitedSetGrows(turns: Turns, id: string, k: nat)
    ensures VisitedSet(turns, id, k + 1) == VisitedSet(turns, id, k) + {Visited(turns, id, k)}
  {}

  /** The pigeonhole: a walk that ends makes at most one move a state. */
  lemma HaltingWalkIsShort(turns: Turns, keys: set<string>, id: string, n: nat)
    requires MovesWithin(turns, keys) && EndsAfter(turns, id, n)
    ensures n <= |keys|
  {
    VisitsAreCounted(turns, keys, id, n, n);
    SubsetSize(VisitedSet(turns, id, n), keys);
  }

  // The two walks compared

  predicate RanOut(result: FlowResult) {
    result.status == Failed && result.error == None
  }

  /** A turn that ends with a failure names its error. */
  ghost predicate EndsNameErrors(turns: Turns) {
    forall id :: turns(id).Ends? ==> !RanOut(turns(id).result)
  }

  lemma {:induction false} EnoughFuel(turns: Turns, id: string, n: nat, fuel: nat)
    requires EndsNameErrors(turns) && EndsAfter(turns, id, n) && n < fuel
    ensures Bounded(turns, id, fuel) == ResultAfter(turns, id, n) && !RanOut(ResultAfter(turns, id, n))
    decreases fuel
  {
    match turns(id)
    case Ends(_) =>
    case Moves(_, next) => EnoughFuel(turns, next, n - 1, fuel - 1);
  }

  ghost predicate EndsWithin(turns: Turns, id: string, fuel: nat) {
    exists n: nat :: n < fuel && EndsAfter(turns, id, n)
  }

  lemma {:induction false} FuelOrEnd(turns: Turns, id: string, fuel: nat)
    requires EndsNameErrors(turns)
    ensures RanOut(Bounded(turns, id, fuel)) <==> !EndsWithin(turns, id, fuel)
    decreases fuel
  {
    if fuel > 0 {
      match turns(id)
      case Ends(_) =>
        assert EndsAfter(turns, id, 0);
      case Moves(_, next) =>
        FuelOrEnd(turns, next, fuel - 1);
        if n: nat :| n < fuel - 1 && EndsAfter(turns, next, n) {
          assert EndsAfter(turns, id, n + 1);
        }
        if n: nat :| n < fuel && EndsAfter(turns, id, n) {
          assert EndsAfter(turns, next, n - 1);
        }
    }
  }

  /** With fewer states than fuel the fuel never shows: same result and steps, or neither ends. */
  lemma FuelNeverShows(turns: Turns, keys: set<string>, id: string, fuel: nat)
    requires MovesWithin(turns, keys) && EndsNameErrors(turns) && |keys| < fuel
    ensures Halts(turns, id) ==> Bounded(turns, id, fuel) == Unbounded(turns, id)
    ensures RanOut(Bounded(turns, id, fuel)) <==> !Halts(turns, id)
  {
    FuelOrEnd(turns, id, fuel);
    if Halts(turns, id) {
      var n: nat :| EndsAfter(turns, id, n) && Unbounded(turns, id) == ResultAfter(turns, id, n);
      HaltingWalkIsShort(turns, keys, id, n);
      EnoughFuel(turns, id, n, fuel);
    }
  }

  /** A halting walk is the same with fuel exactly when it makes fewer moves than the fuel. */
  lemma AgreesExactlyWhen(turns: Turns, id: string, fuel: nat)
    requires EndsNameErrors(turns) && Halts(turns, id)
    ensures Bounded(turns, id, fuel) == Unbounded(turns, id) <==> EndsWithin(turns, id, fuel)
  {
    var n: nat :| EndsAfter(turns, id, n) && Unbounded(turns, id) == ResultAfter(turns, id, n);
    EnoughFuel(turns, id, n, n + 1);
    FuelOrEnd(turns, id, fuel);
    if m: nat :| m < fuel && EndsAfter(turns, id, m) {
      EndIsUnique(turns, id, n, m);
      EnoughFuel(turns, id, n, fuel);
    }
  }

  /** A walk that ends after `n` moves runs out of any fuel up to `n`. */
  lemma TooLittleFuel(turns: Turns, id: string, n: nat, fuel: nat)
    requires EndsNameErrors(turns) && EndsAfter(turns, id, n) && fuel <= n
    ensures RanOut(Bounded(turns, id, fuel)) && !RanOut(Unbounded(turns, id))
  {
    FuelOrEnd(turns, id, fuel);
    if m: nat :| m < fuel && EndsAfter(turns, id, m) {
      EndIsUnique(turns, id, n, m);
    }
    var m: nat :| EndsAfter(turns, id, m) && Unbounded(turns, id) == ResultAfter(turns, id, m);
    EnoughFuel(turns, id, m, m + 1);
  }

  /** The result is this one, after some successful steps. */
  predicate EndsLike(result: FlowResult, last: FlowResult, before: nat) {
    && result.status == last.status && result.reachedSubmitBoundary == last.reachedSubmitBoundary && result.error == last.error
    && |result.steps| == before + |last.steps| && result.steps[before..] == last.steps
  }

  /** A path the turns follow leads the walk to the end of its last state. */
  lemma {:induction false} FollowedPathEnds(turns: Turns, path: seq<string>, fuel: nat)
    requires path != [] && |path| <= fuel
    requires forall i :: 0 <= i < |path| - 1 ==> turns(path[i]).Moves? && turns(path[i]).next == path[i + 1]
    requires turns(path[|path| - 1]).Ends?
    ensures EndsLike(Bounded(turns, path[0], fuel), turns(path[|path| - 1]).result, |path| - 1)
    decreases fuel
  {
    if |path| > 1 {
      assert turns(path[0]).next == path[1];
      FollowedPathEnds(turns, path[1..], fuel - 1);
    }
  }
}
