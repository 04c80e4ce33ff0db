/**
 The deterministic flow runner (packages/automation/src/index.ts): a walk over a graph
 of page states with 25 steps of fuel, compared with the walk that has no fuel.
 */
module FlowRunner {
  import opened Common
  import opened FuelledWalk
  import opened Sets

  // Pages and fingerprints

  datatype Snapshot = Snapshot(url: string, title: string, text: string, domAnchors: seq<string>)

  datatype Fingerprint = Fingerprint(
    urlPattern: string, titlePattern: string, requiredDomAnchors: seq<string>, requiredTextAnchors: seq<string>,
    captchaIndicators: seq<string>, captchaDomAnchors: seq<string>, captchaUrlPatterns: seq<string>)

  /** Case folding and regular expressions, left uninterpreted. */
  datatype TextRules = TextRules(lower: string -> string, testTitle: (string, string) -> bool)

  predicate Includes(text: string, part: string) {
    part <= text || (text != [] && Includes(text[1..], part))
  }

  /** Some part, case folded, occurs in the text; and every part does. */
  predicate IncludesAny(rules: TextRules, text: string, parts: seq<string>) {
    parts != [] && (Includes(text, rules.lower(parts[0])) || IncludesAny(rules, text, parts[1..]))
  }

  predicate IncludesAll(rules: TextRules, text: string, parts: seq<string>) {
    parts == [] || (Includes(text, rules.lower(parts[0])) && IncludesAll(rules, text, parts[1..]))
  }

  predicate HasAny(anchors: seq<string>, wanted: seq<string>) {
    wanted != [] && (wanted[0] in anchors || HasAny(anchors, wanted[1..]))
  }

  predicate HasAll(anchors: seq<string>, wanted: seq<string>) {
    wanted == [] || (wanted[0] in anchors && HasAll(anchors, wanted[1..]))
  }

  predicate ShowsCaptcha(rules: TextRules, snapshot: Snapshot, fingerprint: Fingerprint) {
    || IncludesAny(rules, rules.lower(snapshot.text), fingerprint.captchaIndicators)
    || HasAny(snapshot.domAnchors, fingerprint.captchaDomAnchors)
    || IncludesAny(rules, rules.lower(snapshot.url), fingerprint.captchaUrlPatterns)
  }

  /** FingerprintEngine.matches: no error is a match. */
  function Mismatch(rules: TextRules, snapshot: Snapshot, fingerprint: Fingerprint): Option<ErrorCode> {
    if ShowsCaptcha(rules, snapshot, fingerprint) then Some(CaptchaRequired)
    else if !Includes(snapshot.url, fingerprint.urlPattern) then Some(PageFingerprintMismatch)
    else if !rules.testTitle(fingerprint.titlePattern, snapshot.title) then Some(PageFingerprintMismatch)
    else if !HasAll(snapshot.domAnchors, fingerprint.requiredDomAnchors) then Some(PageFingerprintMismatch)
    else if !IncludesAll(rules, rules.lower(snapshot.text), fingerprint.requiredTextAnchors) then Some(PageFingerprintMismatch)
    else None
  }

  // Selectors

  datatype SelectorEntry = SelectorEntry(primary: string, fallbacks: seq<string>, required: bool)

  datatype Resolution = Resolved(selector: Option<string>) | Unresolved(error: ErrorCode)

  function Available(candidates: seq<string>, available: seq<string>): seq<string> {
    if candidates == [] then []
    else (if candidates[0] in available then [candidates[0]] else []) + Available(candidates[1..], available)
  }

  /** SelectorRegistry.resolve; a candidate listed twice counts twice. */
  function Resolve(selectors: map<string, SelectorEntry>, key: string, available: seq<string>): Resolution {
    if key !in selectors then Unresolved(SelectorMissing)
    else
      var entry := selectors[key];
      var matched := Available([entry.primary] + entry.fallbacks, available);
      if |matched| > 1 then Unresolved(SelectorAmbiguous)
      else if |matched| == 1 then Resolved(Some(matched[0]))
      else if entry.required then Unresolved(SelectorMissing)
      else Resolved(None)
  }

  // Flows

  datatype Action = Action(actionId: string, selectorKey: string)

  datatype FlowState = FlowState(
    stateId: string, expectedFingerprint: string, guards: seq<string>, actions: seq<Action>,
    transitions: map<string, string>, terminal: bool)

  /** Everything `run` is given except the entry state. */
  datatype World = World(
    states: map<string, FlowState>, fingerprints: map<string, Fingerprint>, selectors: map<string, SelectorEntry>,
    snapshots: map<string, Snapshot>, available: map<string, seq<string>>, guards: map<string, bool>,
    stops: seq<string>, rules: TextRules)

  function GuardFailure(name: string): ErrorCode {
    if name == "not_already_applied" then JobAlreadyApplied
    else if name == "vacancy_is_active" then JobClosed
    else if name == "apply_button_exists" then SelectorMissing
    else if name == "resume_available" then ResumeNotAvailable
    else if name == "cover_letter_valid" then CoverLetterPolicyFailed
    else if name == "no_captcha" then CaptchaRequired
    else FormSchemaChanged
  }

  predicate Holds(world: World, guard: string) {
    guard in world.guards && world.guards[guard]
  }

  /** The name `find` returns; a failing guard with an empty name reads as none. */
  function FailedGuard(world: World, guards: seq<string>): string {
    if guards == [] then "" else if !Holds(world, guards[0]) then guards[0] else FailedGuard(world, guards[1..])
  }

  /** Where the actions of a state lead: past all of them, to a stop action, or to a selector error. */
  datatype Walk = Walked(used: seq<string>) | Boundary(used: seq<string>) | Broken(used: seq<string>, error: ErrorCode)

  function ResolveAction(world: World, state: FlowState, action: Action): Resolution {
    if action.selectorKey == "" then Resolved(None)
    else Resolve(world.selectors, action.selectorKey, if state.stateId in world.available then world.available[state.stateId] else [])
  }

  function Used(resolution: Resolution): seq<string>
    requires resolution.Resolved?
  {
    if resolution.selector.Some? && resolution.selector.value != "" then [resolution.selector.value] else []
  }

  function WalkActions(world: World, state: FlowState, k: nat, used: seq<string>): Walk
    requires k <= |state.actions|
    decreases |state.actions| - k
  {
    if k == |state.actions| then Walked(used)
    else
      match ResolveAction(world, state, state.actions[k])
      case Unresolved(error) => Broken(used, error)
      case Resolved(selector) =>
        var more := used + Used(Resolved(selector));
        if state.actions[k].actionId in world.stops then Boundary(more) else WalkActions(world, state, k + 1, more)
  }

  function NextState(state: FlowState): string {
    var last := if state.actions == [] then "" else state.actions[|state.actions| - 1].actionId;
    if last in state.transitions then state.transitions[last] else ""
  }

  function FailedAt(state: FlowState, used: seq<string>, error: ErrorCode, status: Status): Turn {
    Ends(FlowResult(status, false, [FlowStep(state.stateId, false, used, Some(error))], Some(error)))
  }

  function StatusFor(error: ErrorCode): Status {
    if error == CaptchaRequired then ManualReviewRequired else Failed
  }

  function PageError(world: World, state: FlowState): Option<ErrorCode> {
    if state.expectedFingerprint !in world.fingerprints || state.stateId !in world.snapshots then Some(PageFingerprintMismatch)
    else Mismatch(world.rules, world.snapshots[state.stateId], world.fingerprints[state.expectedFingerprint])
  }

  function AfterActions(state: FlowState, walk: Walk): Turn {
    match walk
    case Broken(used, error) => FailedAt(state, used, error, Failed)
    case Boundary(used) => Ends(FlowResult(Succeeded, true, [FlowStep(state.stateId, true, used, None)], None))
    case Walked(used) =>
      var step := FlowStep(state.stateId, true, used, None);
      if state.terminal then Ends(FlowResult(Succeeded, false, [step], None))
      else if NextState(state) == "" then Ends(FlowResult(Failed, false, [step], Some(FormSchemaChanged)))
      else Moves(step, NextState(state))
  }

  function TurnAt(world: World, id: string): Turn {
    if id !in world.states then Ends(FlowResult(Failed, false, [], Some(FormSchemaChanged)))
    else
      var state := world.states[id];
      var failedGuard := FailedGuard(world, state.guards);
      if PageError(world, state).Some? then
        FailedAt(state, [], PageError(world, state).value, StatusFor(PageError(world, state).value))
      else if failedGuard != "" then FailedAt(state, [], GuardFailure(failedGuard), StatusFor(GuardFailure(failedGuard)))
      else AfterActions(state, WalkActions(world, state, 0, []))
  }

  /** The fuel of the source's loop. */
  const FUEL: nat := 25

  function TurnsOf(world: World): Turns {
    id => TurnAt(world, id)
  }

  // The runner

  method WalkStateActions(world: World, state: FlowState) returns (walk: Walk)
    ensures walk == WalkActions(world, state, 0, [])
  {
    var used := [];
    for k := 0 to |state.actions|
      invariant WalkActions(world, state, k, used) == WalkActions(world, state, 0, [])
    {
      var action := state.actions[k];
      assert used + [] == used;
      if action.actionId in world.stops {
        if action.selectorKey != "" {
          var found := ResolveAction(world, state, action);
          if found.Unresolved? {
            return Broken(used, found.error);
          }
          used := used + Used(found);
        }
        return Boundary(used);
      }
      if action.selectorKey != "" {
        var found := ResolveAction(world, state, action);
        if found.Unresolved? {
          return Broken(used, found.error);
        }
        used := used + Used(found);
      }
    }
    walk := Walked(used);
  }

  ghost predicate AreTurnsOf(turns: Turns, world: World) {
    forall id {:trigger TurnAt(world, id)} :: turns(id) == TurnAt(world, id)
  }

  /** One turn of the loop. */
  method TakeTurn(world: World, current: string, ghost turns: Turns) returns (turn: Turn)
    requires AreTurnsOf(turns, world)
    ensures turn == turns(current)
  {
    assert turns(current) == TurnAt(world, current);
    if current !in world.states {
      return Ends(FlowResult(Failed, false, [], Some(FormSchemaChanged)));
    }
    var state := world.states[current];
    var mismatch := PageError(world, state);
    if mismatch.Some? {
      return FailedAt(state, [], mismatch.value, StatusFor(mismatch.value));
    }
    var failedGuard := FailedGuard(world, state.guards);
    if failedGuard != "" {
      var error := GuardFailure(failedGuard);
      return FailedAt(state, [], error, StatusFor(error));
    }
    var walk := WalkStateActions(world, state);
    match walk {
      case Broken(used, error) =>
        turn := FailedAt(state, used, error, Failed);
      case Boundary(used) =>
        turn := Ends(FlowResult(Succeeded, true, [FlowStep(state.stateId, true, used, None)], None));
      case Walked(used) =>
        var step := FlowStep(state.stateId, true, used, None);
        var next := NextState(state);
        if state.terminal {
          turn := Ends(FlowResult(Succeeded, false, [step], None));
        } else if next == "" {
          turn := Ends(FlowResult(Failed, false, [step], Some(FormSchemaChanged)));
        } else {
          turn := Moves(step, next);
        }
    }
  }

  /** The loop of `run`, whose limit is a parameter here. */
  method RunWithFuel(world: World, entryState: string, fuel: nat, ghost turns: Turns) returns (result: FlowResult)
    requires AreTurnsOf(turns, world)
    ensures result == Bounded(turns, entryState, fuel)
  {
    var steps: seq<FlowStep> := [];
    var current := entryState;
    PrependNothing(Bounded(turns, entryState, fuel));
    for guard := 0 to fuel
      invariant Prepend(steps, Bounded(turns, current, fuel - guard)) == Bounded(turns, entryState, fuel)
    {
      var turn := TakeTurn(world, current, turns);
      match turn {
        case Ends(last) =>
          EndHere(turns, current, fuel - guard, steps, last);
          return Prepend(steps, last);
        case Moves(step, next) =>
          MoveOn(turns, current, fuel - guard, steps, step, next);
          steps := steps + [step];
          current := next;
      }
    }
    result := Prepend(steps, FlowResult(Failed, false, [], None));
  }

  method Run(world: World, entryState: string) returns (result: FlowResult)
    ensures result == Bounded(TurnsOf(world), entryState, FUEL)
  {
    result := RunWithFuel(world, entryState, FUEL, TurnsOf(world));
  }

  // The runner and the walk without fuel

  lemma TurnsAreWithinStates(world: World)
    ensures MovesWithin(TurnsOf(world), world.states.Keys) && EndsNameErrors(TurnsOf(world))
  {}

  /** With at most 24 states the runner and an interpreter without fuel give the same result and steps, or neither ends. */
  lemma RunnerIsUnbounded(world: World, entry: string)
    requires |world.states| < FUEL
    ensures Halts(TurnsOf(world), entry) ==> Bounded(TurnsOf(world), entry, FUEL) == Unbounded(TurnsOf(world), entry)
    ensures RanOut(Bounded(TurnsOf(world), entry, FUEL)) <==> !Halts(TurnsOf(world), entry)
  {
    TurnsAreWithinStates(world);
    FuelNeverShows(TurnsOf(world), world.states.Keys, entry, FUEL);
  }

  /** For any number of states they agree on a halting walk exactly when it makes at most 24 moves. */
  lemma RunnerAgreesExactlyWhen(world: World, entry: string)
    requires Halts(TurnsOf(world), entry)
    ensures Bounded(TurnsOf(world), entry, FUEL) == Unbounded(TurnsOf(world), entry) <==> EndsWithin(TurnsOf(world), entry, FUEL)
  {
    TurnsAreWithinStates(world);
    AgreesExactlyWhen(TurnsOf(world), entry, FUEL);
  }

  // 24 is the most states for which this holds

  function Name(k: nat): string {
    seq(k, _ => 'a')
  }

  function ChainState(k: nat): FlowState {
    FlowState("page", "print", [], [Action("go", "")], map["go" := Name(k + 1)], false)
  }

  /** States 1 to `size`, each leading to the next, the last one to a state that does not exist. */
  function Chain(size: nat): World {
    World(map id: string | |id| <= size && id in (set k | 1 <= k <= size :: Name(k)) :: ChainState(|id|),
          map["print" := Fingerprint("", "", [], [], [], [], [])], map[], map["page" := Snapshot("", "", "", [])],
          map[], map[], [], TextRules(text => text, (pattern, title) => true))
  }

  lemma {:induction false} ChainSize(size: nat)
    ensures |set k | 1 <= k <= size :: Name(k)| <= size
  {
    if size > 0 {
      ChainSize(size - 1);
      assert (set k | 1 <= k <= size :: Name(k)) == (set k | 1 <= k <= size - 1 :: Name(k)) + {Name(size)};
    }
  }

  lemma ChainMoves(size: nat, k: nat)
    requires 1 <= k <= size
    ensures TurnAt(Chain(size), Name(k)) == Moves(FlowStep("page", true, [], None), Name(k + 1))
  {
    var world, state := Chain(size), ChainState(k);
    var names := set i | 1 <= i <= size :: Name(i);
    assert |Name(k)| == k && Name(k) in names && world.states[Name(k)] == state;
    assert PageError(world, state) == None;
    assert [] + Used(Resolved(None)) == [] && WalkActions(world, state, 1, []) == Walked([]);
    assert |Name(k + 1)| == k + 1 && NextState(state) == Name(k + 1);
  }

  /** Any walk that goes from each name to the next and ends after the last. */
  lemma {:induction false} ChainEnds(turns: Turns, step: FlowStep, size: nat, k: nat)
    requires forall i :: 1 <= i <= size ==> turns(Name(i)) == Moves(step, Name(i + 1))
    requires turns(Name(size + 1)).Ends? && 1 <= k <= size + 1
    ensures EndsAfter(turns, Name(k), size + 1 - k)
    decreases size + 1 - k
  {
    if k <= size {
      ChainEnds(turns, step, size, k + 1);
      OneMoveMore(turns, Name(k), step, Name(k + 1), size - k);
    }
  }

  lemma NoStateAfterChain(size: nat)
    ensures TurnAt(Chain(size), Name(size + 1)).Ends?
  {}

  /** For any fuel, a flow of as many states that ends, on which the walk with that fuel runs out. */
  lemma {:induction false} ChainIsTight(fuel: nat)
    ensures |Chain(fuel).states| == fuel && EndsAfter(TurnsOf(Chain(fuel)), Name(1), fuel)
    ensures RanOut(Bounded(TurnsOf(Chain(fuel)), Name(1), fuel)) && !RanOut(Unbounded(TurnsOf(Chain(fuel)), Name(1)))
  {
    var world, turns := Chain(fuel), TurnsOf(Chain(fuel));
    forall k | 1 <= k <= fuel
      ensures turns(Name(k)) == Moves(FlowStep("page", true, [], None), Name(k + 1))
    {
      ChainMoves(fuel, k);
    }
    NoStateAfterChain(fuel);
    ChainEnds(turns, FlowStep("page", true, [], None), fuel, 1);
    TurnsAreWithinStates(world);
    TooLittleFuel(turns, Name(1), fuel, fuel);
    HaltingWalkIsShort(turns, world.states.Keys, Name(1), fuel);
    ChainSize(fuel);
    SubsetSize(world.states.Keys, set k | 1 <= k <= fuel :: Name(k));
  }

  /** So 24 states are the most: a flow of 25 states that ends, on which the runner and the walk without fuel disagree. */
  lemma FuelIsTight() returns (world: World, entry: string)
    ensures |world.states| == FUEL && Halts(TurnsOf(world), entry)
    ensures RanOut(Bounded(TurnsOf(world), entry, FUEL)) && !RanOut(Unbounded(TurnsOf(world), entry))
  {
    world, entry := Chain(FUEL), Name(1);
    ChainIsTight(FUEL);
  }

  // What a result tells

  predicate Succeeds(step: FlowStep) {
    step.succeeded && step.error == None
  }

  /** Captcha errors and no others ask for a review, only a success has no error, and only the last step can have failed, with the run's error. */
  ghost predicate IsConsistent(result: FlowResult) {
    && (result.status == ManualReviewRequired <==> result.error == Some(CaptchaRequired))
    && (result.status == Succeeded ==> result.error == None && result.steps != [])
    && (result.reachedSubmitBoundary ==> result.status == Succeeded)
    && (forall i :: 0 <= i < |result.steps| - 1 ==> Succeeds(result.steps[i]))
    && (result.steps != [] ==>
          var last := result.steps[|result.steps| - 1];
          Succeeds(last) || (!last.succeeded && last.error.Some? && last.error == result.error))
    && (result.status == Succeeded ==> Succeeds(result.steps[|result.steps| - 1]))
  }

  lemma {:induction false} SelectorErrors(world: World, state: FlowState, k: nat, used: seq<string>)
    requires k <= |state.actions|
    ensures WalkActions(world, state, k, used).Broken? ==> WalkActions(world, state, k, used).error in {SelectorMissing, SelectorAmbiguous}
    decreases |state.actions| - k
  {
    if k < |state.actions| {
      var resolution := ResolveAction(world, state, state.actions[k]);
      if resolution.Resolved? {
        SelectorErrors(world, state, k + 1, used + Used(resolution));
      }
    }
  }

  lemma TurnIsConsistent(world: World, id: string)
    ensures TurnAt(world, id).Ends? ==> IsConsistent(TurnAt(world, id).result)
    ensures TurnAt(world, id).Moves? ==> Succeeds(TurnAt(world, id).step)
  {
    if id in world.states {
      SelectorErrors(world, world.states[id], 0, []);
    }
  }

  /** Whatever the flow and the limit. */
  lemma {:induction false} ResultIsConsistent(world: World, entry: string, fuel: nat)
    ensures IsConsistent(Bounded(TurnsOf(world), entry, fuel))
    decreases fuel
  {
    if fuel > 0 {
      TurnIsConsistent(world, entry);
      var turn := TurnsOf(world)(entry);
      assert turn == TurnAt(world, entry);
      if turn.Moves? {
        ResultIsConsistent(world, turn.next, fuel - 1);
        PrependKeepsConsistent(turn.step, Bounded(TurnsOf(world), turn.next, fuel - 1));
      }
    }
  }

  lemma PrependKeepsConsistent(step: FlowStep, rest: FlowResult)
    requires Succeeds(step) && IsConsistent(rest)
    ensures IsConsistent(Prepend([step], rest))
  {}

  // The submit boundary

  predicate IsStop(world: World, state: FlowState, k: int)
    requires 0 <= k < |state.actions|
  {
    state.actions[k].actionId in world.stops
  }

  /** The `i`-th selector of an entry is on the page. */
  predicate IsOffered(candidates: seq<string>, available: seq<string>, i: int) {
    0 <= i < |candidates| && candidates[i] in available
  }

  ghost predicate NoneOffered(candidates: seq<string>, available: seq<string>) {
    forall i :: !IsOffered(candidates, available, i)
  }

  /** Just one is; a selector listed twice counts twice. */
  ghost predicate OneOffered(candidates: seq<string>, available: seq<string>, i: int) {
    IsOffered(candidates, available, i) && forall j :: IsOffered(candidates, available, j) ==> j == i
  }

  function CandidatesOf(entry: SelectorEntry): seq<string> {
    [entry.primary] + entry.fallbacks
  }

  /** What the page of a state offers. */
  function OnPage(world: World, state: FlowState): seq<string> {
    if state.stateId in world.available then world.available[state.stateId] else []
  }

  /** The action needs no selector, or just one of its entry's is on the page, or none is and none is required. */
  ghost predicate IsResolved(world: World, state: FlowState, k: int)
    requires 0 <= k < |state.actions|
  {
    var key := state.actions[k].selectorKey;
    || key == ""
    || (&& key in world.selectors
        && var candidates := CandidatesOf(world.selectors[key]);
           || (exists i :: OneOffered(candidates, OnPage(world, state), i))
           || (NoneOffered(candidates, OnPage(world, state)) && !world.selectors[key].required))
  }

  lemma TailIsOffered(candidates: seq<string>, available: seq<string>)
    requires candidates != []
    ensures forall i :: i != 0 ==> (IsOffered(candidates, available, i) <==> IsOffered(candidates[1..], available, i - 1))
    ensures forall j :: IsOffered(candidates[1..], available, j) ==> IsOffered(candidates, available, j + 1)
    ensures IsOffered(candidates, available, 0) <==> candidates[0] in available
  {}

  lemma {:induction false} AvailableAreOffered(candidates: seq<string>, available: seq<string>)
    ensures |Available(candidates, available)| == 0 <==> NoneOffered(candidates, available)
    ensures |Available(candidates, available)| == 1 <==> exists i :: OneOffered(candidates, available, i)
    ensures forall s :: s in Available(candidates, available) ==> s in candidates && s in available
  {
    if candidates != [] {
      var tail := candidates[1..];
      AvailableAreOffered(tail, available);
      TailIsOffered(candidates, available);
      assert NoneOffered(tail, available) <==> forall i :: i != 0 ==> !IsOffered(candidates, available, i);
      if candidates[0] in available {
        assert NoneOffered(tail, available) <==> OneOffered(candidates, available, 0);
      } else {
        if i :| OneOffered(tail, available, i) {
          assert OneOffered(candidates, available, i + 1);
        }
        if i :| OneOffered(candidates, available, i) {
          assert OneOffered(tail, available, i - 1);
        }
      }
    }
  }

  /** What an entry resolves to, by which of its selectors are on the page. */
  lemma ResolvesExactlyWhen(selectors: map<string, SelectorEntry>, key: string, available: seq<string>)
    ensures var resolution := Resolve(selectors, key, available);
            if key !in selectors then resolution == Unresolved(SelectorMissing)
            else
              var candidates, required := CandidatesOf(selectors[key]), selectors[key].required;
              && (resolution == Unresolved(SelectorMissing) <==> NoneOffered(candidates, available) && required)
              && (resolution == Resolved(None) <==> NoneOffered(candidates, available) && !required)
              && (resolution.Resolved? && resolution.selector.Some? <==> exists i :: OneOffered(candidates, available, i))
              && (resolution.Unresolved? ==> resolution.error in {SelectorMissing, SelectorAmbiguous})
              && (resolution.Resolved? && resolution.selector.Some? ==>
                    resolution.selector.value in candidates && resolution.selector.value in available)
  {
    if key in selectors {
      AvailableAreOffered(CandidatesOf(selectors[key]), available);
      var matched := Available(CandidatesOf(selectors[key]), available);
      assert |matched| == 1 ==> matched[0] in matched;
    }
  }

  lemma ActionResolvesExactlyWhen(world: World, state: FlowState, k: int)
    requires 0 <= k < |state.actions|
    ensures ResolveAction(world, state, state.actions[k]).Resolved? <==> IsResolved(world, state, k)
  {
    ResolvesExactlyWhen(world.selectors, state.actions[k].selectorKey, OnPage(world, state));
  }

  ghost predicate PassesActions(world: World, state: FlowState, from: int, to: int)
    requires 0 <= from && to <= |state.actions|
  {
    forall k :: from <= k < to ==> !IsStop(world, state, k) && IsResolved(world, state, k)
  }

  /** The first stop action is reached, and it resolves like those before it. */
  ghost predicate ReachesStop(world: World, state: FlowState, from: int)
    requires 0 <= from
  {
    exists k :: from <= k < |state.actions| && IsStop(world, state, k) && IsResolved(world, state, k) && PassesActions(world, state, from, k)
  }

  lemma {:induction false} WalkMeans(world: World, state: FlowState, from: nat, used: seq<string>)
    requires from <= |state.actions|
    ensures WalkActions(world, state, from, used).Walked? <==> PassesActions(world, state, from, |state.actions|)
    ensures WalkActions(world, state, from, used).Boundary? <==> ReachesStop(world, state, from)
    decreases |state.actions| - from
  {
    if from < |state.actions| {
      var resolution := ResolveAction(world, state, state.actions[from]);
      ActionResolvesExactlyWhen(world, state, from);
      if resolution.Unresolved? {
        assert !IsResolved(world, state, from);
      } else if IsStop(world, state, from) {
        assert IsResolved(world, state, from) && PassesActions(world, state, from, from);
      } else {
        WalkMeans(world, state, from + 1, used + Used(resolution));
        assert IsResolved(world, state, from);
        if ReachesStop(world, state, from + 1) {
          var k :| from + 1 <= k < |state.actions| && IsStop(world, state, k) && IsResolved(world, state, k) && PassesActions(world, state, from + 1, k);
          assert PassesActions(world, state, from, k);
        }
        if ReachesStop(world, state, from) {
          var k :| from <= k < |state.actions| && IsStop(world, state, k) && IsResolved(world, state, k) && PassesActions(world, state, from, k);
          assert PassesActions(world, state, from + 1, k);
        }
      }
    }
  }

  /** The selector an action uses: the one of its entry that is on the page. */
  ghost function ChosenAt(world: World, state: FlowState, k: int): seq<string>
    requires 0 <= k < |state.actions|
  {
    var key := state.actions[k].selectorKey;
    if key != "" && key in world.selectors
       && exists i :: OneOffered(CandidatesOf(world.selectors[key]), OnPage(world, state), i)
    then
      var candidates := CandidatesOf(world.selectors[key]);
      var i :| OneOffered(candidates, OnPage(world, state), i);
      if candidates[i] == "" then [] else [candidates[i]]
    else []
  }

  ghost function Chosen(world: World, state: FlowState, from: nat, to: nat): seq<string>
    requires from <= to <= |state.actions|
    decreases |state.actions| - from
  {
    if from == to then [] else ChosenAt(world, state, from) + Chosen(world, state, from + 1, to)
  }

  lemma UsedIsChosen(world: World, state: FlowState, k: nat)
    requires k < |state.actions| && ResolveAction(world, state, state.actions[k]).Resolved?
    ensures Used(ResolveAction(world, state, state.actions[k])) == ChosenAt(world, state, k)
  {
    var key := state.actions[k].selectorKey;
    if key != "" {
      ResolvesExactlyWhen(world.selectors, key, OnPage(world, state));
      var resolution := Resolve(world.selectors, key, OnPage(world, state));
      if resolution.selector.Some? {
        var candidates := CandidatesOf(world.selectors[key]);
        var i :| OneOffered(candidates, OnPage(world, state), i);
        var j :| 0 <= j < |candidates| && candidates[j] == resolution.selector.value;
        assert IsOffered(candidates, OnPage(world, state), j);
      }
    }
  }

  /** The walk collects the selectors of the actions it passes, in order, up to its end, first stop or first error. */
  lemma {:induction false} WalkCollects(world: World, state: FlowState, from: nat, used: seq<string>) returns (to: nat)
    requires from <= |state.actions|
    ensures from <= to <= |state.actions| && WalkActions(world, state, from, used).used == used + Chosen(world, state, from, to)
    ensures WalkActions(world, state, from, used).Walked? ==> to == |state.actions|
    ensures WalkActions(world, state, from, used).Boundary? ==> from < to && IsStop(world, state, to - 1)
    ensures WalkActions(world, state, from, used).Broken? ==> to < |state.actions| && !IsResolved(world, state, to)
    decreases |state.actions| - from
  {
    if from == |state.actions| {
      to := from;
    } else {
      var resolution := ResolveAction(world, state, state.actions[from]);
      ActionResolvesExactlyWhen(world, state, from);
      if resolution.Unresolved? {
        to := from;
      } else {
        UsedIsChosen(world, state, from);
        if IsStop(world, state, from) {
          to := from + 1;
          assert Chosen(world, state, from, to) == ChosenAt(world, state, from);
        } else {
          to := WalkCollects(world, state, from + 1, used + Used(resolution));
          assert used + (Used(resolution) + Chosen(world, state, from + 1, to)) == used + Used(resolution) + Chosen(world, state, from + 1, to);
        }
      }
    }
  }

  /** The guard has a result, and it is true. */
  predicate IsTrue(results: map<string, bool>, guard: string) {
    guard in results && results[guard]
  }

  /** The guards before `n` hold, and `n` is the end or an empty-named guard that fails unnoticed. */
  ghost predicate StopsLooking(world: World, guards: seq<string>, n: nat) {
    && n <= |guards|
    && (forall i :: 0 <= i < n ==> IsTrue(world.guards, guards[i]))
    && (n == |guards| || (guards[n] == "" && !IsTrue(world.guards, "")))
  }

  /** Every guard holds, or the first one that fails has an empty name. */
  ghost predicate GuardsLookTrue(world: World, guards: seq<string>) {
    exists n :: StopsLooking(world, guards, n)
  }

  lemma {:induction false} NoFailedGuardMeans(world: World, guards: seq<string>)
    ensures FailedGuard(world, guards) == "" <==> GuardsLookTrue(world, guards)
  {
    if guards == [] || !IsTrue(world.guards, guards[0]) {
      assert FailedGuard(world, guards) == "" <==> StopsLooking(world, guards, 0);
      assert forall n :: StopsLooking(world, guards, n) ==> n == 0;
    } else {
      var tail := guards[1..];
      NoFailedGuardMeans(world, tail);
      if n: nat :| StopsLooking(world, guards, n) {
        if n > 0 {
          assert forall i :: 0 <= i < |tail| ==> tail[i] == guards[i + 1];
          assert StopsLooking(world, tail, n - 1);
        }
      }
      if n: nat :| StopsLooking(world, tail, n) {
        assert StopsLooking(world, guards, n + 1);
      }
    }
  }

  /** Guards with names are all true exactly when none fails. */
  lemma NamedGuardsAllHold(world: World, guards: seq<string>)
    requires "" !in guards
    ensures GuardsLookTrue(world, guards) <==> forall k :: 0 <= k < |guards| ==> IsTrue(world.guards, guards[k])
  {
    assert StopsLooking(world, guards, |guards|) <==> forall k :: 0 <= k < |guards| ==> IsTrue(world.guards, guards[k]);
  }

  // Which page matches

  ghost predicate Occurs(part: string, text: string) {
    exists i, j :: 0 <= i <= j <= |text| && text[i..j] == part
  }

  lemma {:induction false} IncludesMeans(text: string, part: string)
    ensures Includes(text, part) <==> Occurs(part, text)
  {
    if part <= text {
      assert text[0..|part|] == part;
    } else if text != [] {
      var tail := text[1..];
      IncludesMeans(tail, part);
      if i, j :| 0 <= i <= j <= |tail| && tail[i..j] == part {
        assert text[i + 1..j + 1] == part;
      }
      if i, j :| 0 <= i <= j <= |text| && text[i..j] == part {
        if i > 0 {
          assert tail[i - 1..j - 1] == part;
        }
      }
    }
  }

  lemma {:induction false} IncludesAnyMeans(rules: TextRules, text: string, parts: seq<string>)
    ensures IncludesAny(rules, text, parts) <==> exists part :: part in parts && Occurs(rules.lower(part), text)
    decreases |parts|
  {
    if parts != [] {
      IncludesMeans(text, rules.lower(parts[0]));
      IncludesAnyMeans(rules, text, parts[1..]);
      assert forall part :: part in parts <==> part == parts[0] || part in parts[1..];
    }
  }

  lemma {:induction false} IncludesAllMeans(rules: TextRules, text: string, parts: seq<string>)
    ensures IncludesAll(rules, text, parts) <==> forall part :: part in parts ==> Occurs(rules.lower(part), text)
    decreases |parts|
  {
    if parts != [] {
      IncludesMeans(text, rules.lower(parts[0]));
      IncludesAllMeans(rules, text, parts[1..]);
      assert forall part :: part in parts <==> part == parts[0] || part in parts[1..];
    }
  }

  lemma {:induction false} HasMeans(anchors: seq<string>, wanted: seq<string>)
    ensures HasAny(anchors, wanted) <==> exists anchor :: anchor in wanted && anchor in anchors
    ensures HasAll(anchors, wanted) <==> forall anchor :: anchor in wanted ==> anchor in anchors
    decreases |wanted|
  {
    if wanted != [] {
      HasMeans(anchors, wanted[1..]);
      assert forall anchor :: anchor in wanted <==> anchor == wanted[0] || anchor in wanted[1..];
    }
  }

  /** A captcha indicator is in the text, a captcha anchor on the page, or a captcha pattern in the address. */
  ghost predicate HasCaptcha(rules: TextRules, snapshot: Snapshot, fingerprint: Fingerprint) {
    || (exists part :: part in fingerprint.captchaIndicators && Occurs(rules.lower(part), rules.lower(snapshot.text)))
    || (exists anchor :: anchor in fingerprint.captchaDomAnchors && anchor in snapshot.domAnchors)
    || (exists part :: part in fingerprint.captchaUrlPatterns && Occurs(rules.lower(part), rules.lower(snapshot.url)))
  }

  /** Address, title, every required anchor and every required text are as expected. */
  ghost predicate Fits(rules: TextRules, snapshot: Snapshot, fingerprint: Fingerprint) {
    && Occurs(fingerprint.urlPattern, snapshot.url) && rules.testTitle(fingerprint.titlePattern, snapshot.title)
    && (forall anchor :: anchor in fingerprint.requiredDomAnchors ==> anchor in snapshot.domAnchors)
    && (forall part :: part in fingerprint.requiredTextAnchors ==> Occurs(rules.lower(part), rules.lower(snapshot.text)))
  }

  /** Which page is a captcha's, which matches, and which is neither. */
  lemma MismatchMeans(rules: TextRules, snapshot: Snapshot, fingerprint: Fingerprint)
    ensures Mismatch(rules, snapshot, fingerprint) == Some(CaptchaRequired) <==> HasCaptcha(rules, snapshot, fingerprint)
    ensures Mismatch(rules, snapshot, fingerprint) == None
       <==> !HasCaptcha(rules, snapshot, fingerprint) && Fits(rules, snapshot, fingerprint)
    ensures Mismatch(rules, snapshot, fingerprint) in {None, Some(CaptchaRequired), Some(PageFingerprintMismatch)}
  {
    var text := rules.lower(snapshot.text);
    IncludesAnyMeans(rules, text, fingerprint.captchaIndicators);
    HasMeans(snapshot.domAnchors, fingerprint.captchaDomAnchors);
    IncludesAnyMeans(rules, rules.lower(snapshot.url), fingerprint.captchaUrlPatterns);
    IncludesMeans(snapshot.url, fingerprint.urlPattern);
    HasMeans(snapshot.domAnchors, fingerprint.requiredDomAnchors);
    IncludesAllMeans(rules, text, fingerprint.requiredTextAnchors);
  }

  /** The state's page was seen and its fingerprint is known. */
  predicate IsSeen(world: World, state: FlowState) {
    state.expectedFingerprint in world.fingerprints && state.stateId in world.snapshots
  }

  ghost predicate ShowsCaptchaAt(world: World, state: FlowState) {
    IsSeen(world, state) && HasCaptcha(world.rules, world.snapshots[state.stateId], world.fingerprints[state.expectedFingerprint])
  }

  ghost predicate FitsAt(world: World, state: FlowState) {
    IsSeen(world, state) && Fits(world.rules, world.snapshots[state.stateId], world.fingerprints[state.expectedFingerprint])
  }

  lemma PageErrorMeans(world: World, state: FlowState)
    ensures PageError(world, state) == Some(CaptchaRequired) <==> ShowsCaptchaAt(world, state)
    ensures PageError(world, state) == None <==> FitsAt(world, state) && !ShowsCaptchaAt(world, state)
    ensures PageError(world, state) in {None, Some(CaptchaRequired), Some(PageFingerprintMismatch)}
  {
    if IsSeen(world, state) {
      MismatchMeans(world.rules, world.snapshots[state.stateId], world.fingerprints[state.expectedFingerprint]);
    }
  }

  ghost predicate PageMatches(world: World, state: FlowState) {
    FitsAt(world, state) && !ShowsCaptchaAt(world, state) && GuardsLookTrue(world, state.guards)
  }

  /** A walk through matching pages whose guards look true, past no stop action, along transitions, up to a stop action. */
  ghost predicate CleanPath(world: World, entry: string, path: seq<string>) {
    && path != [] && path[0] == entry
    && (forall i :: 0 <= i < |path| ==> path[i] in world.states && PageMatches(world, world.states[path[i]]))
    && (forall i :: 0 <= i < |path| - 1 ==> LeadsOn(world, world.states[path[i]], path[i + 1]))
    && ReachesStop(world, world.states[path[|path| - 1]], 0)
  }

  ghost predicate LeadsOn(world: World, state: FlowState, next: string) {
    && PassesActions(world, state, 0, |state.actions|) && !state.terminal && next != ""
    && var last := if state.actions == [] then "" else state.actions[|state.actions| - 1].actionId;
       last in state.transitions && state.transitions[last] == next
  }

  lemma TurnMeans(world: World, id: string)
    ensures TurnAt(world, id).Moves? <==>
              id in world.states && PageMatches(world, world.states[id]) && LeadsOn(world, world.states[id], NextState(world.states[id]))
    ensures TurnAt(world, id).Moves? ==> TurnAt(world, id).next == NextState(world.states[id])
    ensures (TurnAt(world, id).Ends? && TurnAt(world, id).result.reachedSubmitBoundary) <==>
              id in world.states && PageMatches(world, world.states[id]) && ReachesStop(world, world.states[id], 0)
  {
    if id in world.states {
      WalkMeans(world, world.states[id], 0, []);
      NoFailedGuardMeans(world, world.states[id].guards);
      PageErrorMeans(world, world.states[id]);
    }
  }

  /** What ends the walk at a state without success: the page first, then a guard, then a selector, then the flow itself. */
  lemma TurnFailsExactlyWhen(world: World, id: string)
    ensures var turn := TurnAt(world, id);
            if id !in world.states then turn == Ends(FlowResult(Failed, false, [], Some(FormSchemaChanged)))
            else
              var state := world.states[id];
              if ShowsCaptchaAt(world, state) then
                turn == Ends(FlowResult(ManualReviewRequired, false, [FlowStep(state.stateId, false, [], Some(CaptchaRequired))], Some(CaptchaRequired)))
              else if !FitsAt(world, state) then
                turn == Ends(FlowResult(Failed, false, [FlowStep(state.stateId, false, [], Some(PageFingerprintMismatch))], Some(PageFingerprintMismatch)))
              else if !GuardsLookTrue(world, state.guards) then
                turn.Ends? && turn.result.status != Succeeded && |turn.result.steps| == 1 && turn.result.steps[0].usedSelectors == []
              else if PassesActions(world, state, 0, |state.actions|) then
                turn.Ends? && turn.result.status == Succeeded <==> state.terminal
              else
                turn.Ends? && (turn.result.status == Succeeded <==> ReachesStop(world, state, 0))
  {
    if id in world.states {
      var state := world.states[id];
      PageErrorMeans(world, state);
      NoFailedGuardMeans(world, state.guards);
      WalkMeans(world, state, 0, []);
    }
  }

  /** The first guard that fails, if it has a name, decides the error. */
  lemma GuardErrors(world: World, guards: seq<string>, n: nat)
    requires n < |guards| && !IsTrue(world.guards, guards[n]) && forall i :: 0 <= i < n ==> IsTrue(world.guards, guards[i])
    ensures FailedGuard(world, guards) == guards[n]
    ensures GuardFailure(guards[n])
         == var errors := map["not_already_applied" := JobAlreadyApplied, "vacancy_is_active" := JobClosed,
                              "apply_button_exists" := SelectorMissing, "resume_available" := ResumeNotAvailable,
                              "cover_letter_valid" := CoverLetterPolicyFailed, "no_captcha" := CaptchaRequired];
            if guards[n] in errors then errors[guards[n]] else FormSchemaChanged
  {
    if n > 0 {
      assert forall i :: 0 <= i < |guards| - 1 ==> guards[1..][i] == guards[i + 1];
      GuardErrors(world, guards[1..], n - 1);
    }
  }

  ghost predicate StepsAlong(world: World, path: seq<string>, steps: seq<FlowStep>)
    requires forall i :: 0 <= i < |path| ==> path[i] in world.states
  {
    && |steps| == |path|
    && forall i :: 0 <= i < |path| ==> steps[i].stateId == world.states[path[i]].stateId && steps[i].succeeded && steps[i].error == None
  }

  lemma PathGrows(world: World, entry: string, rest: seq<string>, step: FlowStep, steps: seq<FlowStep>)
    requires rest != [] && CleanPath(world, rest[0], rest) && StepsAlong(world, rest, steps)
    requires entry in world.states && PageMatches(world, world.states[entry]) && LeadsOn(world, world.states[entry], rest[0])
    requires step.stateId == world.states[entry].stateId && step.succeeded && step.error == None
    ensures CleanPath(world, entry, [entry] + rest) && StepsAlong(world, [entry] + rest, [step] + steps)
  {
    var path := [entry] + rest;
    assert forall i :: 0 < i < |path| ==> path[i] == rest[i - 1];
    forall i | 0 <= i < |path| - 1
      ensures LeadsOn(world, world.states[path[i]], path[i + 1])
    {
      if i > 0 {
        assert LeadsOn(world, world.states[rest[i - 1]], rest[i]);
      }
    }
  }

  lemma MovingStep(world: World, id: string)
    requires TurnAt(world, id).Moves?
    ensures id in world.states
    ensures var step := TurnAt(world, id).step; step.stateId == world.states[id].stateId && step.succeeded && step.error == None
  {}

  lemma EndingStep(world: World, id: string)
    requires TurnAt(world, id).Ends? && TurnAt(world, id).result.reachedSubmitBoundary
    ensures CleanPath(world, id, [id]) && StepsAlong(world, [id], TurnAt(world, id).result.steps)
  {
    TurnMeans(world, id);
  }

  /** The boundary is reached exactly when a clean path of at most `fuel` states leads to it. */
  lemma {:induction false} BoundaryHasPath(world: World, entry: string, fuel: nat) returns (path: seq<string>)
    requires Bounded(TurnsOf(world), entry, fuel).reachedSubmitBoundary
    ensures |path| <= fuel && CleanPath(world, entry, path)
    ensures StepsAlong(world, path, Bounded(TurnsOf(world), entry, fuel).steps)
    decreases fuel
  {
    var turn := TurnsOf(world)(entry);
    assert turn == TurnAt(world, entry);
    match turn
    case Ends(_) =>
      EndingStep(world, entry);
      path := [entry];
    case Moves(step, next) =>
      var rest := BoundaryHasPath(world, next, fuel - 1);
      TurnMeans(world, entry);
      MovingStep(world, entry);
      PathGrows(world, entry, rest, step, Bounded(TurnsOf(world), next, fuel - 1).steps);
      path := [entry] + rest;
  }

  lemma PathReachesBoundary(world: World, entry: string, fuel: nat, path: seq<string>)
    requires |path| <= fuel && CleanPath(world, entry, path)
    ensures Bounded(TurnsOf(world), entry, fuel).reachedSubmitBoundary
  {
    var turns := TurnsOf(world);
    forall i | 0 <= i < |path| - 1
      ensures turns(path[i]).Moves? && turns(path[i]).next == path[i + 1]
    {
      assert LeadsOn(world, world.states[path[i]], path[i + 1]);
      TurnMeans(world, path[i]);
    }
    TurnMeans(world, path[|path| - 1]);
    FollowedPathEnds(turns, path, fuel);
  }

  /** The path of a boundary result meets no captcha page. */
  lemma BoundaryMeetsNoCaptcha(world: World, entry: string, fuel: nat) returns (path: seq<string>)
    requires Bounded(TurnsOf(world), entry, fuel).reachedSubmitBoundary
    ensures path != [] && path[0] == entry && |path| == |Bounded(TurnsOf(world), entry, fuel).steps|
    ensures forall i :: 0 <= i < |path| ==>
              && path[i] in world.states
              && var state := world.states[path[i]];
                 && IsSeen(world, state)
                 && !HasCaptcha(world.rules, world.snapshots[state.stateId], world.fingerprints[state.expectedFingerprint])
                 && Bounded(TurnsOf(world), entry, fuel).steps[i].stateId == state.stateId
  {
    path := BoundaryHasPath(world, entry, fuel);
    forall i | 0 <= i < |path|
      ensures IsSeen(world, world.states[path[i]]) && !ShowsCaptchaAt(world, world.states[path[i]])
    {
      assert PageMatches(world, world.states[path[i]]);
    }
  }

  /** A walk along matching pages that comes to a captcha page in time ends there, in manual review. */
  lemma CaptchaEndsInReview(world: World, entry: string, fuel: nat, path: seq<string>)
    requires path != [] && path[0] == entry && |path| <= fuel
    requires forall i :: 0 <= i < |path| ==> path[i] in world.states
    requires forall i :: 0 <= i < |path| - 1 ==> PageMatches(world, world.states[path[i]]) && LeadsOn(world, world.states[path[i]], path[i + 1])
    requires ShowsCaptchaAt(world, world.states[path[|path| - 1]])
    ensures var result := Bounded(TurnsOf(world), entry, fuel);
            && result.status == ManualReviewRequired && !result.reachedSubmitBoundary && result.error == Some(CaptchaRequired)
            && |result.steps| == |path|
            && result.steps[|path| - 1] == FlowStep(world.states[path[|path| - 1]].stateId, false, [], Some(CaptchaRequired))
  {
    var turns := TurnsOf(world);
    forall i | 0 <= i < |path| - 1
      ensures turns(path[i]).Moves? && turns(path[i]).next == path[i + 1]
    {
      assert LeadsOn(world, world.states[path[i]], path[i + 1]);
      TurnMeans(world, path[i]);
    }
    TurnFailsExactlyWhen(world, path[|path| - 1]);
    assert turns(path[|path| - 1]) == TurnAt(world, path[|path| - 1]);
    FollowedPathEnds(turns, path, fuel);
    var result := Bounded(turns, entry, fuel);
    assert result.steps[|path| - 1] == result.steps[|path| - 1..][0];
  }

  // What an unnamed guard hides

  /** Without an unnamed guard, and only then, guards look true in every world exactly when they all hold. */
  lemma LooksAreExactWhenNamed(guards: seq<string>)
    ensures (forall world: World :: GuardsLookTrue(world, guards) <==> forall k :: 0 <= k < |guards| ==> IsTrue(world.guards, guards[k]))
       <==> "" !in guards
  {
    if "" in guards {
      var n: nat :| n < |guards| && guards[n] == "";
      FirstUnnamedHides(guards, n);
    } else {
      forall world: World
        ensures GuardsLookTrue(world, guards) <==> forall k :: 0 <= k < |guards| ==> IsTrue(world.guards, guards[k])
      {
        NamedGuardsAllHold(world, guards);
      }
    }
  }

  /** The world in which all named guards hold, and nothing else is known. */
  function NamedHold(guards: seq<string>): World {
    World(map[], map[], map[], map[], map[], map g | g in guards && g != "" :: true, [], TextRules(text => text, (pattern, title) => true))
  }

  lemma {:induction false} FirstUnnamed(guards: seq<string>, n: nat) returns (first: nat)
    requires n < |guards| && guards[n] == ""
    ensures first < |guards| && guards[first] == "" && forall k :: 0 <= k < first ==> guards[k] != ""
  {
    if k: nat :| k < n && guards[k] == "" {
      first := FirstUnnamed(guards, k);
    } else {
      first := n;
    }
  }

  lemma FirstUnnamedHides(guards: seq<string>, n: nat)
    requires n < |guards| && guards[n] == ""
    ensures GuardsLookTrue(NamedHold(guards), guards) && !IsTrue(NamedHold(guards).guards, guards[n])
  {
    var first := FirstUnnamed(guards, n);
    assert StopsLooking(NamedHold(guards), guards, first);
  }

  /** One page that matches, with a captcha guard that fails and a stop action that needs no selector. */
  function OnePage(guards: seq<string>): World {
    World(map["s" := FlowState("s", "f", guards, [Action("submit", "")], map[], true)],
          map["f" := Fingerprint("", "", [], [], [], [], [])], map[], map["s" := Snapshot("", "", "", [])], map[],
          map[], ["submit"], TextRules(text => text, (pattern, title) => true))
  }

  lemma OnePageMatches(guards: seq<string>)
    ensures PageError(OnePage(guards), OnePage(guards).states["s"]) == None
    ensures WalkActions(OnePage(guards), OnePage(guards).states["s"], 0, []) == Boundary([])
  {
    assert OnePage(guards).states["s"].actions == [Action("submit", "")];
  }

  /**
   A failing captcha guard stops the runner before the submit boundary, for a person to look at; with
   an unnamed guard before it the same page leads to the boundary.
   */
  lemma UnnamedGuardHidesTheNext(fuel: nat)
    requires 0 < fuel
    ensures !IsTrue(OnePage(["", "no_captcha"]).guards, "no_captcha") && !IsTrue(OnePage(["no_captcha"]).guards, "no_captcha")
    ensures Bounded(TurnsOf(OnePage(["", "no_captcha"])), "s", fuel)
         == FlowResult(Succeeded, true, [FlowStep("s", true, [], None)], None)
    ensures Bounded(TurnsOf(OnePage(["no_captcha"])), "s", fuel)
         == FlowResult(ManualReviewRequired, false, [FlowStep("s", false, [], Some(CaptchaRequired))], Some(CaptchaRequired))
  {
    OnePageMatches(["", "no_captcha"]);
    OnePageMatches(["no_captcha"]);
    assert TurnsOf(OnePage(["", "no_captcha"]))("s") == TurnAt(OnePage(["", "no_captcha"]), "s");
    assert TurnsOf(OnePage(["no_captcha"]))("s") == TurnAt(OnePage(["no_captcha"]), "s");
  }
}
