/**
 The paper fast-loop command line as a machine over effects: standard input, configuration,
 clock, calls into the composition layer, the approval-intent builder, and the emitted summary.
 What the effects return is arbitrary.
 */
module FastLoopCli {
  import opened Wrappers

  datatype Mode =
    | InspectExisting | PrecheckRuntime | VerifyPrecheckReceipt | RevalidateCandidate | FinalPreflight | FreshnessPreflight
    | BuildApprovalIntent | VerifyApprovalIntent | VerifyEligibilityArtifact | Replay | ValidateOnly

  /** The parsed arguments; `replay` is the fixture name when given. */
  datatype Args = Args(
    run: bool, inspectExisting: bool, precheckRuntime: bool, verifyReceipt: bool, revalidate: bool, finalPreflight: bool,
    freshnessPreflight: bool, buildIntent: bool, verifyIntent: bool, verifyArtifact: bool, replay: Option<string>, validateOnly: bool,
    json: bool, config: Option<string>, maxAge: Option<string>,
    approvalDeclared: bool, writersStopped: bool, liveOrdersForbidden: bool)

  datatype Outcome = PASS | FAIL | NO_GO | VALID | INVALID

  /** Functions of the composition layer. */
  datatype Callee = Plan | Inspect | Precheck | VerifyReceipt | Revalidate | FinalCheck | QualifyEvidence | VerifyIntent | VerifyArtifact | ReplayOffline

  datatype Effect =
    | ReadStdin
    | LoadConfig(emptyEnviron: bool)
    | ReadClock
    | Call(callee: Callee)
    | BuildIntent
    | Emit(outcome: Outcome)

  /** `Ordinary` errors are caught everywhere, `Memory` ones not in the approval modes, `Exit` ones nowhere. */
  datatype Raise = Ordinary | Memory | Exit

  datatype Step = Good | Bad | Raises(kind: Raise)

  datatype Clock = Tick | ClockRaises(reason: Raise)

  /** Everything the run does not decide itself; `summary` is the error, if any, of making a summary from a result. */
  datatype World = World(
    stdin: Step, config: Step, clock: Clock, call: Callee -> Step, intent: Step, summary: Option<Raise>,
    parsesMaxAge: Option<string> -> bool, knowsFixture: string -> bool)

  datatype End = Exited(code: int) | Raised

  // ---------------------------------------------------------- mode resolution

  const MODE_ORDER: seq<Mode> := [
    InspectExisting, PrecheckRuntime, VerifyPrecheckReceipt, RevalidateCandidate, FinalPreflight, FreshnessPreflight,
    BuildApprovalIntent, VerifyApprovalIntent, VerifyEligibilityArtifact, Replay, ValidateOnly]

  predicate Asks(a: Args, m: Mode) {
    match m
    case InspectExisting => a.inspectExisting
    case PrecheckRuntime => a.precheckRuntime
    case VerifyPrecheckReceipt => a.verifyReceipt
    case RevalidateCandidate => a.revalidate
    case FinalPreflight => a.finalPreflight
    case FreshnessPreflight => a.freshnessPreflight
    case BuildApprovalIntent => a.buildIntent
    case VerifyApprovalIntent => a.verifyIntent
    case VerifyEligibilityArtifact => a.verifyArtifact
    case Replay => a.replay.Some?
    case ValidateOnly => a.validateOnly
  }

  function SelectedModes(a: Args, modes: seq<Mode>): seq<Mode> {
    if modes == [] then [] else (if Asks(a, modes[0]) then [modes[0]] else []) + SelectedModes(a, modes[1..])
  }

  /** `_resolve_mode` once `--run` is ruled out: at most one mode, validation by default. */
  function ResolveMode(a: Args): Option<Mode> {
    var selected := SelectedModes(a, MODE_ORDER);
    if |selected| > 1 then None
    else if |selected| == 1 then Some(selected[0])
    else Some(ValidateOnly)
  }

  lemma {:induction false} SelectedExactly(a: Args, modes: seq<Mode>)
    requires forall i, j | 0 <= i < j < |modes| :: modes[i] != modes[j]
    ensures forall m :: m in SelectedModes(a, modes) <==> m in modes && Asks(a, m)
    ensures forall i, j | 0 <= i < j < |SelectedModes(a, modes)| :: SelectedModes(a, modes)[i] != SelectedModes(a, modes)[j]
  {
    hide Asks;
    if modes != [] {
      SelectedExactly(a, modes[1..]);
      assert modes == [modes[0]] + modes[1..];
      assert modes[0] !in modes[1..];
    }
  }

  lemma EveryModeIsListed()
    ensures forall m :: m in MODE_ORDER
    ensures forall i, j | 0 <= i < j < |MODE_ORDER| :: MODE_ORDER[i] != MODE_ORDER[j]
  {
    forall m: Mode ensures m in MODE_ORDER {
      assert MODE_ORDER[ModeIndex(m)] == m;
    }
  }

  function ModeIndex(m: Mode): nat {
    match m
    case InspectExisting => 0
    case PrecheckRuntime => 1
    case VerifyPrecheckReceipt => 2
    case RevalidateCandidate => 3
    case FinalPreflight => 4
    case FreshnessPreflight => 5
    case BuildApprovalIntent => 6
    case VerifyApprovalIntent => 7
    case VerifyEligibilityArtifact => 8
    case Replay => 9
    case ValidateOnly => 10
  }

  /** A mode is resolved exactly when no two are asked for; it is the one asked for, or validation when none is. */
  lemma {:induction false} ResolvedExactly(a: Args)
    ensures ResolveMode(a).None? <==> exists m, n | m != n :: Asks(a, m) && Asks(a, n)
    ensures ResolveMode(a).Some? ==>
              Asks(a, ResolveMode(a).value) || (ResolveMode(a).value == ValidateOnly && forall m :: !Asks(a, m))
  {
    hide SelectedModes, Asks, MODE_ORDER;
    EveryModeIsListed();
    SelectedExactly(a, MODE_ORDER);
    var s := SelectedModes(a, MODE_ORDER);
    if |s| > 1 {
      assert s[0] in s && s[1] in s && s[0] != s[1];
    } else if |s| == 1 {
      assert s[0] in s;
      assert forall m | m in s :: m == s[0];
    }
  }

  /** The flag on the command line decides the mode, whatever the order of the flags. */
  lemma {:induction false} FlagDecidesMode(a: Args)
    requires ResolveMode(a).Some?
    ensures a.inspectExisting <==> ResolveMode(a) == Some(InspectExisting)
    ensures a.precheckRuntime <==> ResolveMode(a) == Some(PrecheckRuntime)
    ensures a.verifyReceipt <==> ResolveMode(a) == Some(VerifyPrecheckReceipt)
    ensures a.revalidate <==> ResolveMode(a) == Some(RevalidateCandidate)
    ensures a.finalPreflight <==> ResolveMode(a) == Some(FinalPreflight)
    ensures a.freshnessPreflight <==> ResolveMode(a) == Some(FreshnessPreflight)
    ensures a.buildIntent <==> ResolveMode(a) == Some(BuildApprovalIntent)
    ensures a.verifyIntent <==> ResolveMode(a) == Some(VerifyApprovalIntent)
    ensures a.verifyArtifact <==> ResolveMode(a) == Some(VerifyEligibilityArtifact)
    ensures a.replay.Some? <==> ResolveMode(a) == Some(Replay)
    ensures a.validateOnly ==> ResolveMode(a) == Some(ValidateOnly)
  {
    FlagsAsk(a);
    hide ResolveMode, Asks;
    AskedExactly(a, InspectExisting);
    AskedExactly(a, PrecheckRuntime);
    AskedExactly(a, VerifyPrecheckReceipt);
    AskedExactly(a, RevalidateCandidate);
    AskedExactly(a, FinalPreflight);
    AskedExactly(a, FreshnessPreflight);
    AskedExactly(a, BuildApprovalIntent);
    AskedExactly(a, VerifyApprovalIntent);
    AskedExactly(a, VerifyEligibilityArtifact);
    AskedExactly(a, Replay);
    AskedExactly(a, ValidateOnly);
  }

  lemma AskedExactly(a: Args, m: Mode)
    requires ResolveMode(a).Some?
    ensures Asks(a, m) ==> ResolveMode(a) == Some(m)
    ensures ResolveMode(a) == Some(m) && m != ValidateOnly ==> Asks(a, m)
  {
    hide ResolveMode, Asks;
    ResolvedExactly(a);
  }

  lemma FlagsAsk(a: Args)
    ensures Asks(a, InspectExisting) == a.inspectExisting && Asks(a, PrecheckRuntime) == a.precheckRuntime
    ensures Asks(a, VerifyPrecheckReceipt) == a.verifyReceipt && Asks(a, RevalidateCandidate) == a.revalidate
    ensures Asks(a, FinalPreflight) == a.finalPreflight && Asks(a, FreshnessPreflight) == a.freshnessPreflight
    ensures Asks(a, BuildApprovalIntent) == a.buildIntent && Asks(a, VerifyApprovalIntent) == a.verifyIntent
    ensures Asks(a, VerifyEligibilityArtifact) == a.verifyArtifact && Asks(a, Replay) == a.replay.Some? && Asks(a, ValidateOnly) == a.validateOnly
  {
  }

  // ------------------------------------------------------------ what a run means

  /** The effects of a mode in their only order. */
  function Script(m: Mode): seq<Effect> {
    match m
    case VerifyPrecheckReceipt => [ReadStdin, Call(VerifyReceipt)]
    case VerifyApprovalIntent => [ReadStdin, Call(VerifyIntent)]
    case VerifyEligibilityArtifact => [ReadStdin, Call(VerifyArtifact)]
    case RevalidateCandidate => [ReadStdin, LoadConfig(true), Call(Revalidate)]
    case FinalPreflight => [ReadStdin, LoadConfig(true), ReadClock, Call(FinalCheck)]
    case FreshnessPreflight => [ReadStdin, LoadConfig(true), ReadClock, Call(QualifyEvidence)]
    case BuildApprovalIntent => [ReadStdin, LoadConfig(true), ReadClock, Call(QualifyEvidence), BuildIntent]
    case PrecheckRuntime => [LoadConfig(true), ReadClock, Call(Precheck)]
    case InspectExisting => [LoadConfig(false), ReadClock, Call(Inspect)]
    case ValidateOnly => [LoadConfig(false), ReadClock, Call(Plan)]
    case Replay => [LoadConfig(false), Call(ReplayOffline)]
  }

  predicate IsVerify(m: Mode) {
    m == VerifyPrecheckReceipt || m == VerifyApprovalIntent || m == VerifyEligibilityArtifact
  }

  /** Modes that work on a receipt from standard input and report NO_GO when they cannot. */
  predicate IsCandidateCheck(m: Mode) {
    m == RevalidateCandidate || m == FinalPreflight || m == FreshnessPreflight
  }

  function SuccessOutcome(m: Mode): Outcome {
    if IsVerify(m) then VALID else PASS
  }

  predicate Confirms(a: Args) {
    a.approvalDeclared || a.writersStopped || a.liveOrdersForbidden
  }

  /** The arguments a mode accepts. */
  predicate ArgumentsFit(a: Args, w: World, m: Mode) {
    && (m == VerifyApprovalIntent || m == VerifyEligibilityArtifact ==> a.json && a.config.None?)
    && (m != BuildApprovalIntent ==> !Confirms(a))
    && (m == FreshnessPreflight || m == BuildApprovalIntent || a.maxAge.None?)
    && (m == FreshnessPreflight || m == BuildApprovalIntent ==> w.parsesMaxAge(a.maxAge))
    && (m == BuildApprovalIntent ==> a.json && a.config.Some? && a.approvalDeclared && a.writersStopped && a.liveOrdersForbidden)
  }

  /** How unfit arguments are reported. */
  function ArgumentOutcome(m: Mode, a: Args): Outcome {
    if m == VerifyApprovalIntent then INVALID
    else if m == FreshnessPreflight && !Confirms(a) then NO_GO
    else FAIL
  }

  function ConflictOutcome(a: Args): Outcome {
    if a.verifyArtifact then FAIL else if a.verifyIntent then INVALID else FAIL
  }

  /** An effect goes well. A replay that returns has passed. */
  predicate GoesWell(w: World, e: Effect) {
    match e
    case ReadStdin => w.stdin.Good?
    case LoadConfig(_) => w.config.Good?
    case ReadClock => w.clock.Tick?
    case Call(c) => if c == ReplayOffline then !w.call(c).Raises? else w.call(c).Good?
    case BuildIntent => w.intent.Good?
    case Emit(_) => true
  }

  function RaisedBy(w: World, e: Effect): Option<Raise> {
    match e
    case ReadStdin => if w.stdin.Raises? then Some(w.stdin.kind) else None
    case LoadConfig(_) => if w.config.Raises? then Some(w.config.kind) else None
    case ReadClock => if w.clock.ClockRaises? then Some(w.clock.reason) else None
    case Call(c) => if w.call(c).Raises? then Some(w.call(c).kind) else None
    case BuildIntent => if w.intent.Raises? then Some(w.intent.kind) else None
    case Emit(_) => None
  }

  /** The error leaves the program: unguarded reads, the unguarded plan, or a kind its guard lets through. */
  predicate Escapes(m: Mode, e: Effect, r: Raise) {
    || e.ReadStdin? || e.LoadConfig? || m == ValidateOnly || r == Exit
    || (r == Memory && (m == BuildApprovalIntent || m == VerifyApprovalIntent || m == VerifyEligibilityArtifact))
  }

  /** The outcome reported when an effect does not go well and its error is contained. */
  function FailureOutcome(m: Mode, w: World, e: Effect): Outcome {
    if IsVerify(m) then if m == VerifyEligibilityArtifact && e.ReadStdin? then FAIL else INVALID
    else if IsCandidateCheck(m) then NO_GO
    else if m == BuildApprovalIntent then if e.ReadStdin? || e.LoadConfig? then FAIL else NO_GO
    else if (m == InspectExisting || m == PrecheckRuntime) && e.Call? && !w.call(e.callee).Raises? then NO_GO
    else FAIL
  }

  /** Summaries are made outside the guards, except that of the artifact verifier. */
  predicate SummaryEscapes(w: World, m: Mode) {
    w.summary.Some? && !(m == VerifyEligibilityArtifact && w.summary.value == Ordinary)
  }

  /** After an effect that did not go well an error leaves the program: its own, or that of summarizing what it returned. */
  predicate Leaves(w: World, m: Mode, e: Effect) {
    match RaisedBy(w, e)
    case Some(r) => Escapes(m, e, r)
    case None => e.Call? && SummaryEscapes(w, m)
  }

  datatype Run = Run(end: End, trace: seq<Effect>)

  /** When everything went well: the summary is made and emitted, or making it fails. */
  function Conclusion(w: World, m: Mode): Run {
    if w.summary.None? then Run(Exited(0), [Emit(SuccessOutcome(m))])
    else if SummaryEscapes(w, m) then Run(Raised, [])
    else Run(Exited(1), [Emit(INVALID)])
  }

  predicate FixtureUnknown(a: Args, w: World) {
    a.replay.None? || !w.knowsFixture(a.replay.value)
  }

  /** From effect `k` of the script on: effects in order up to the first that does not go well. */
  function RunFrom(a: Args, w: World, m: Mode, k: nat): Run
    requires k <= |Script(m)|
    decreases |Script(m)| - k
  {
    if k == |Script(m)| then Conclusion(w, m)
    else if m == Replay && k == 1 && FixtureUnknown(a, w) then Run(Exited(1), [Emit(FAIL)])
    else
      var e := Script(m)[k];
      if GoesWell(w, e) then
        var rest := RunFrom(a, w, m, k + 1);
        Run(rest.end, [e] + rest.trace)
      else if Leaves(w, m, e) then Run(Raised, [e])
      else Run(Exited(1), [e, Emit(FailureOutcome(m, w, e))])
  }

  function Meaning(a: Args, w: World): Run {
    if a.run then Run(Exited(2), [Emit(NO_GO)])
    else
      match ResolveMode(a)
      case None => Run(Exited(1), [Emit(ConflictOutcome(a))])
      case Some(m) =>
        if !ArgumentsFit(a, w, m) then Run(Exited(1), [Emit(ArgumentOutcome(m, a))])
        else RunFrom(a, w, m, 0)
  }

  // ------------------------------------------------------------- the program

  /** The first `k` effects went well and left `trace`. */
  ghost predicate Reached(a: Args, w: World, m: Mode, k: nat, trace: seq<Effect>) {
    k <= |Script(m)| &&
    var rest := RunFrom(a, w, m, k);
    RunFrom(a, w, m, 0) == Run(rest.end, trace + rest.trace)
  }

  lemma Begins(a: Args, w: World, m: Mode)
    ensures Reached(a, w, m, 0, [])
  {
    hide RunFrom;
    assert [] + RunFrom(a, w, m, 0).trace == RunFrom(a, w, m, 0).trace;
  }

  lemma {:induction false} Advances(a: Args, w: World, m: Mode, k: nat, trace: seq<Effect>)
    requires Reached(a, w, m, k, trace) && k < |Script(m)|
    requires !(m == Replay && k == 1 && FixtureUnknown(a, w))
    ensures var e := Script(m)[k];
      if GoesWell(w, e) then Reached(a, w, m, k + 1, trace + [e])
      else if Leaves(w, m, e) then RunFrom(a, w, m, 0) == Run(Raised, trace + [e])
      else RunFrom(a, w, m, 0) == Run(Exited(1), trace + [e] + [Emit(FailureOutcome(m, w, e))])
  {
    hide Script, GoesWell, Leaves, FailureOutcome, Conclusion;
    var e := Script(m)[k];
    if GoesWell(w, e) {
      var rest := RunFrom(a, w, m, k + 1);
      assert trace + ([e] + rest.trace) == trace + [e] + rest.trace;
    } else {
      assert trace + [e, Emit(FailureOutcome(m, w, e))] == trace + [e] + [Emit(FailureOutcome(m, w, e))];
    }
  }

  lemma Finishes(a: Args, w: World, m: Mode, trace: seq<Effect>)
    requires Reached(a, w, m, |Script(m)|, trace)
    ensures RunFrom(a, w, m, 0) == Run(Conclusion(w, m).end, trace + Conclusion(w, m).trace)
  {
    hide Conclusion, Script;
  }

  /** The end of a mode whose effects all went well: its summary, guarded for the artifact verifier only. */
  method Conclude(a: Args, w: World, m: Mode, trace: seq<Effect>) returns (r: Run)
    requires Reached(a, w, m, |Script(m)|, trace)
    ensures r == RunFrom(a, w, m, 0)
  {
    hide RunFrom, Reached, Script;
    Finishes(a, w, m, trace);
    if w.summary.Some? {
      if m == VerifyEligibilityArtifact && w.summary.value == Ordinary {
        return Run(Exited(1), trace + [Emit(INVALID)]);
      }
      assert trace + [] == trace;
      return Run(Raised, trace);
    }
    return Run(Exited(0), trace + [Emit(if IsVerify(m) then VALID else PASS)]);
  }

  /** One effect: recorded when attempted; a failure is reported unless its error escapes. */
  method Attempt(a: Args, w: World, m: Mode, ghost k: nat, e: Effect, before: seq<Effect>) returns (trace: seq<Effect>, stop: Option<End>)
    requires Reached(a, w, m, k, before) && k < |Script(m)| && Script(m)[k] == e && !e.Emit?
    requires !(m == Replay && k == 1 && FixtureUnknown(a, w))
    ensures stop.None? ==> Reached(a, w, m, k + 1, trace)
    ensures stop.Some? ==> RunFrom(a, w, m, 0) == Run(stop.value, trace)
  {
    hide RunFrom, Script, Reached;
    Advances(a, w, m, k, before);
    trace := before + [e];
    if GoesWell(w, e) {
      return trace, None;
    }
    var raised := RaisedBy(w, e);
    if raised.Some? && Escapes(m, e, raised.value) {
      return trace, Some(Raised);
    }
    if raised.None? && e.Call? && SummaryEscapes(w, m) {
      return trace, Some(Raised);
    }
    return trace + [Emit(FailureOutcome(m, w, e))], Some(Exited(1));
  }

  function VerifierOf(m: Mode): Callee {
    if m == VerifyPrecheckReceipt then VerifyReceipt else if m == VerifyApprovalIntent then VerifyIntent else VerifyArtifact
  }

  /** The stdin-only modes. */
  method RunVerify(a: Args, w: World, m: Mode) returns (r: Run)
    requires IsVerify(m)
    ensures r == RunFrom(a, w, m, 0)
  {
    hide RunFrom, Reached;
    Begins(a, w, m);
    var trace, stop := Attempt(a, w, m, 0, ReadStdin, []);
    if stop.Some? { return Run(stop.value, trace); }
    trace, stop := Attempt(a, w, m, 1, Call(VerifierOf(m)), trace);
    if stop.Some? { return Run(stop.value, trace); }
    r := Conclude(a, w, m, trace);
  }

  method RunRevalidate(a: Args, w: World) returns (r: Run)
    ensures r == RunFrom(a, w, RevalidateCandidate, 0)
  {
    hide RunFrom, Reached;
    var m := RevalidateCandidate;
    Begins(a, w, m);
    var trace, stop := Attempt(a, w, m, 0, ReadStdin, []);
    if stop.Some? { return Run(stop.value, trace); }
    trace, stop := Attempt(a, w, m, 1, LoadConfig(true), trace);
    if stop.Some? { return Run(stop.value, trace); }
    trace, stop := Attempt(a, w, m, 2, Call(Revalidate), trace);
    if stop.Some? { return Run(stop.value, trace); }
    r := Conclude(a, w, m, trace);
  }

  method RunPreflight(a: Args, w: World, m: Mode) returns (r: Run)
    requires m == FinalPreflight || m == FreshnessPreflight
    ensures r == RunFrom(a, w, m, 0)
  {
    hide RunFrom, Reached;
    Begins(a, w, m);
    var trace, stop := Attempt(a, w, m, 0, ReadStdin, []);
    if stop.Some? { return Run(stop.value, trace); }
    trace, stop := Attempt(a, w, m, 1, LoadConfig(true), trace);
    if stop.Some? { return Run(stop.value, trace); }
    trace, stop := Attempt(a, w, m, 2, ReadClock, trace);
    if stop.Some? { return Run(stop.value, trace); }
    trace, stop := Attempt(a, w, m, 3, Call(if m == FinalPreflight then FinalCheck else QualifyEvidence), trace);
    if stop.Some? { return Run(stop.value, trace); }
    r := Conclude(a, w, m, trace);
  }

  method RunBuildIntent(a: Args, w: World) returns (r: Run)
    ensures r == RunFrom(a, w, BuildApprovalIntent, 0)
  {
    hide RunFrom, Reached;
    var m := BuildApprovalIntent;
    Begins(a, w, m);
    var trace, stop := Attempt(a, w, m, 0, ReadStdin, []);
    if stop.Some? { return Run(stop.value, trace); }
    trace, stop := Attempt(a, w, m, 1, LoadConfig(true), trace);
    if stop.Some? { return Run(stop.value, trace); }
    trace, stop := Attempt(a, w, m, 2, ReadClock, trace);
    if stop.Some? { return Run(stop.value, trace); }
    trace, stop := Attempt(a, w, m, 3, Call(QualifyEvidence), trace);
    if stop.Some? { return Run(stop.value, trace); }
    trace, stop := Attempt(a, w, m, 4, BuildIntent, trace);
    if stop.Some? { return Run(stop.value, trace); }
    r := Conclude(a, w, m, trace);
  }

  /** The modes that start from the configuration. */
  method RunConfigured(a: Args, w: World, m: Mode) returns (r: Run)
    requires m == PrecheckRuntime || m == InspectExisting || m == ValidateOnly || m == Replay
    ensures r == RunFrom(a, w, m, 0)
  {
    hide RunFrom, Reached;
    Begins(a, w, m);
    var trace, stop := Attempt(a, w, m, 0, LoadConfig(m == PrecheckRuntime), []);
    if stop.Some? { return Run(stop.value, trace); }
    if m == Replay {
      if FixtureUnknown(a, w) {
        UnknownFixture(a, w, trace);
        return Run(Exited(1), trace + [Emit(FAIL)]);
      }
      trace, stop := Attempt(a, w, m, 1, Call(ReplayOffline), trace);
      if stop.Some? { return Run(stop.value, trace); }
    } else {
      trace, stop := Attempt(a, w, m, 1, ReadClock, trace);
      if stop.Some? { return Run(stop.value, trace); }
      trace, stop := Attempt(a, w, m, 2, Call(if m == PrecheckRuntime then Precheck else if m == InspectExisting then Inspect else Plan), trace);
      if stop.Some? { return Run(stop.value, trace); }
    }
    r := Conclude(a, w, m, trace);
  }

  lemma UnknownFixture(a: Args, w: World, trace: seq<Effect>)
    requires Reached(a, w, Replay, 1, trace) && FixtureUnknown(a, w)
    ensures RunFrom(a, w, Replay, 0) == Run(Exited(1), trace + [Emit(FAIL)])
  {
  }

  /** The argument checks in the program's order, before any effect. */
  method CheckArguments(a: Args, w: World, m: Mode) returns (refused: Option<Outcome>)
    ensures refused == if ArgumentsFit(a, w, m) then None else Some(ArgumentOutcome(m, a))
  {
    if m == VerifyApprovalIntent && (!a.json || a.config.Some? || a.maxAge.Some? || Confirms(a)) {
      return Some(INVALID);
    }
    if m == VerifyEligibilityArtifact && (!a.json || a.config.Some? || a.maxAge.Some? || Confirms(a)) {
      return Some(FAIL);
    }
    if m != BuildApprovalIntent && Confirms(a) {
      return Some(FAIL);
    }
    if a.maxAge.Some? && m != FreshnessPreflight && m != BuildApprovalIntent {
      return Some(FAIL);
    }
    if m == BuildApprovalIntent && (!a.json || a.config.None?) {
      return Some(FAIL);
    }
    if m == FreshnessPreflight && !w.parsesMaxAge(a.maxAge) {
      return Some(NO_GO);
    }
    if m == BuildApprovalIntent && (!w.parsesMaxAge(a.maxAge) || !a.approvalDeclared || !a.writersStopped || !a.liveOrdersForbidden) {
      return Some(FAIL);
    }
    return None;
  }

  /** `main` */
  method RunCli(a: Args, w: World) returns (r: Run)
    ensures r == Meaning(a, w)
  {
    hide RunFrom, ArgumentsFit, ArgumentOutcome, MODE_ORDER, SelectedModes;
    if a.run {
      return Run(Exited(2), [Emit(NO_GO)]);
    }
    var resolved := ResolveMode(a);
    if resolved.None? {
      if a.verifyArtifact {
        return Run(Exited(1), [Emit(FAIL)]);
      }
      if a.buildIntent || a.verifyIntent {
        return Run(Exited(1), [Emit(if a.verifyIntent then INVALID else FAIL)]);
      }
      return Run(Exited(1), [Emit(FAIL)]);
    }
    var m := resolved.value;
    var refused := CheckArguments(a, w, m);
    if refused.Some? {
      return Run(Exited(1), [Emit(refused.value)]);
    }
    match m {
      case VerifyPrecheckReceipt => r := RunVerify(a, w, m);
      case VerifyApprovalIntent => r := RunVerify(a, w, m);
      case VerifyEligibilityArtifact => r := RunVerify(a, w, m);
      case RevalidateCandidate => r := RunRevalidate(a, w);
      case FinalPreflight => r := RunPreflight(a, w, m);
      case FreshnessPreflight => r := RunPreflight(a, w, m);
      case BuildApprovalIntent => r := RunBuildIntent(a, w);
      case _ => r := RunConfigured(a, w, m);
    }
  }

  // -------------------------------------------------------------- trace properties

  /** The effects before the summary, if there is one. */
  function Work(r: Run): seq<Effect> {
    if r.end.Exited? && r.trace != [] then r.trace[..|r.trace| - 1] else r.trace
  }

  predicate NoEmit(es: seq<Effect>) {
    forall i | 0 <= i < |es| :: !es[i].Emit?
  }

  lemma ScriptsDoNotEmit(m: Mode)
    ensures NoEmit(Script(m))
  {
  }

  /** Every effect of the script from `k` on goes well. */
  ghost predicate AllWell(w: World, m: Mode, k: nat) {
    forall i | k <= i < |Script(m)| :: GoesWell(w, Script(m)[i])
  }

  /** Script effects in order from `k` on, only the last of which may not have gone well; then one summary unless an error escaped. */
  ghost predicate InScriptOrder(r: Run, w: World, m: Mode, k: nat)
    requires k <= |Script(m)|
  {
    && (r.end.Exited? ==> r.trace != [] && r.trace[|r.trace| - 1].Emit?)
    && Work(r) <= Script(m)[k..]
    && forall i | 0 <= i < |Work(r)| - 1 :: GoesWell(w, Work(r)[i])
  }

  /** How a run ends: with success exactly when everything from `k` on goes well. */
  ghost predicate EndsRight(r: Run, a: Args, w: World, m: Mode, k: nat) {
    && (r.end.Exited? ==> r.trace != [] && r.trace[|r.trace| - 1].Emit?)
    && (r.end.Exited? ==> r.end.code == 0 || r.end.code == 1)
    && (r.end == Exited(0) <==> AllWell(w, m, k) && w.summary.None? && !(m == Replay && k <= 1 && FixtureUnknown(a, w)))
    && (r.end == Exited(0) ==> r.trace[|r.trace| - 1] == Emit(SuccessOutcome(m)))
    && (r.end == Exited(1) ==> r.trace[|r.trace| - 1].outcome in {FAIL, NO_GO, INVALID})
  }

  lemma {:induction false} OrderGrows(rest: Run, w: World, m: Mode, k: nat)
    requires k < |Script(m)| && InScriptOrder(rest, w, m, k + 1) && GoesWell(w, Script(m)[k])
    ensures InScriptOrder(Run(rest.end, [Script(m)[k]] + rest.trace), w, m, k)
  {
    hide Script, GoesWell;
    var e := Script(m)[k];
    var r := Run(rest.end, [e] + rest.trace);
    assert Work(r) == [e] + Work(rest);
    assert Script(m)[k..] == [e] + Script(m)[k + 1..];
  }

  lemma {:induction false} OrderStops(r: Run, w: World, m: Mode, k: nat, o: Outcome)
    requires k < |Script(m)|
    requires r == Run(Raised, [Script(m)[k]]) || r == Run(Exited(1), [Script(m)[k], Emit(o)])
    ensures InScriptOrder(r, w, m, k)
  {
    hide Script, GoesWell;
    assert Work(r) == [Script(m)[k]];
    assert Script(m)[k..] == [Script(m)[k]] + Script(m)[k + 1..];
  }

  lemma {:induction false} RunFromInScriptOrder(a: Args, w: World, m: Mode, k: nat)
    requires k <= |Script(m)|
    ensures InScriptOrder(RunFrom(a, w, m, k), w, m, k)
    decreases |Script(m)| - k
  {
    hide Script, GoesWell, Leaves, FixtureUnknown, FailureOutcome, SuccessOutcome;
    if k == |Script(m)| || (m == Replay && k == 1 && FixtureUnknown(a, w)) {
      assert Work(RunFrom(a, w, m, k)) == [];
    } else if GoesWell(w, Script(m)[k]) {
      hide InScriptOrder;
      RunFromInScriptOrder(a, w, m, k + 1);
      OrderGrows(RunFrom(a, w, m, k + 1), w, m, k);
    } else {
      hide InScriptOrder;
      OrderStops(RunFrom(a, w, m, k), w, m, k, FailureOutcome(m, w, Script(m)[k]));
    }
  }

  lemma {:induction false} AllWellNext(w: World, m: Mode, k: nat)
    requires k < |Script(m)|
    ensures AllWell(w, m, k) <==> GoesWell(w, Script(m)[k]) && AllWell(w, m, k + 1)
  {
    hide Script, GoesWell;
  }

  lemma EndGrows(rest: Run, a: Args, w: World, m: Mode, k: nat, e: Effect)
    requires EndsRight(rest, a, w, m, k + 1) && (AllWell(w, m, k) <==> AllWell(w, m, k + 1))
    requires m == Replay && FixtureUnknown(a, w) ==> k != 1
    ensures EndsRight(Run(rest.end, [e] + rest.trace), a, w, m, k)
  {
    hide AllWell, FixtureUnknown, SuccessOutcome;
  }

  lemma EndStops(a: Args, w: World, m: Mode, k: nat, e: Effect)
    requires !AllWell(w, m, k)
    ensures EndsRight(Run(Raised, [e]), a, w, m, k)
    ensures EndsRight(Run(Exited(1), [e, Emit(FailureOutcome(m, w, e))]), a, w, m, k)
  {
    hide AllWell, FixtureUnknown, SuccessOutcome;
  }

  lemma {:induction false} RunFromEndsRight(a: Args, w: World, m: Mode, k: nat)
    requires k <= |Script(m)|
    ensures EndsRight(RunFrom(a, w, m, k), a, w, m, k)
    decreases |Script(m)| - k
  {
    assert |Script(Replay)| == 2;
    hide Script, GoesWell, Leaves, FixtureUnknown, SuccessOutcome, FailureOutcome;
    if k == |Script(m)| {
      assert AllWell(w, m, k);
    } else if m == Replay && k == 1 && FixtureUnknown(a, w) {
    } else {
      hide AllWell, EndsRight;
      AllWellNext(w, m, k);
      if GoesWell(w, Script(m)[k]) {
        RunFromEndsRight(a, w, m, k + 1);
        EndGrows(RunFrom(a, w, m, k + 1), a, w, m, k, Script(m)[k]);
      } else {
        EndStops(a, w, m, k, Script(m)[k]);
      }
    }
  }

  /** Every run does a prefix of its mode's script, and only its last effect may not have gone well; refusals do nothing. */
  lemma {:induction false} WorkIsScriptPrefix(a: Args, w: World)
    ensures var r := Meaning(a, w); var work := Work(r);
      if a.run || ResolveMode(a).None? || !ArgumentsFit(a, w, ResolveMode(a).value) then work == []
      else work <= Script(ResolveMode(a).value) && forall i | 0 <= i < |work| - 1 :: GoesWell(w, work[i])
  {
    hide Script, GoesWell, RunFrom, ResolveMode, ArgumentsFit, ConflictOutcome, ArgumentOutcome, FixtureUnknown, SuccessOutcome;
    if !a.run && ResolveMode(a).Some? {
      RunFromInScriptOrder(a, w, ResolveMode(a).value, 0);
    }
  }

  /** A run that ends emits exactly one summary, as its last effect; a run that raises emits none. */
  lemma {:induction false} ExactlyOneSummary(a: Args, w: World)
    ensures var r := Meaning(a, w);
      && NoEmit(Work(r))
      && (r.end.Exited? ==> r.trace == Work(r) + [r.trace[|r.trace| - 1]] && r.trace[|r.trace| - 1].Emit?)
  {
    hide Script, GoesWell, RunFrom, ResolveMode, ArgumentsFit, ConflictOutcome, ArgumentOutcome, FixtureUnknown, SuccessOutcome;
    WorkIsScriptPrefix(a, w);
    if !a.run && ResolveMode(a).Some? {
      ScriptsDoNotEmit(ResolveMode(a).value);
      RunFromInScriptOrder(a, w, ResolveMode(a).value, 0);
    }
  }

  /** The exit code is 0 exactly for PASS and VALID, 2 exactly for the refused live run, 1 otherwise. */
  lemma {:induction false} ExitCodeTellsOutcome(a: Args, w: World)
    ensures var r := Meaning(a, w); r.end.Exited? ==>
      && r.trace != [] && r.trace[|r.trace| - 1].Emit?
      && (r.end.code == 0 <==> r.trace[|r.trace| - 1].outcome in {PASS, VALID})
      && (r.end.code == 2 <==> a.run)
      && r.end.code in {0, 1, 2}
  {
    hide Script, GoesWell, RunFrom, ResolveMode, ArgumentsFit, FixtureUnknown;
    if !a.run && ResolveMode(a).Some? {
      RunFromEndsRight(a, w, ResolveMode(a).value, 0);
    }
  }

  /** Success means: one mode, fitting arguments, every effect of its script going well, and a summary that can be made. */
  lemma {:induction false} SucceedsExactly(a: Args, w: World)
    ensures Meaning(a, w).end == Exited(0) <==>
      && !a.run && ResolveMode(a).Some?
      && var m := ResolveMode(a).value;
         && ArgumentsFit(a, w, m) && w.summary.None? && (m == Replay ==> !FixtureUnknown(a, w))
         && forall i | 0 <= i < |Script(m)| :: GoesWell(w, Script(m)[i])
  {
    hide Script, GoesWell, RunFrom, ResolveMode, ArgumentsFit, FixtureUnknown;
    if !a.run && ResolveMode(a).Some? {
      RunFromEndsRight(a, w, ResolveMode(a).value, 0);
    }
  }

  /** The verify modes touch standard input and their verifier, nothing else. */
  lemma {:induction false} VerifyTouchesOnlyStdin(a: Args, w: World)
    requires ResolveMode(a).Some? && IsVerify(ResolveMode(a).value)
    ensures forall e | e in Work(Meaning(a, w)) :: e == ReadStdin || e == Call(VerifierOf(ResolveMode(a).value))
  {
    hide GoesWell, Meaning, ResolveMode, ArgumentsFit;
    WorkIsScriptPrefix(a, w);
  }

  lemma IntentPosition(m: Mode, i: nat)
    requires i < |Script(m)| && Script(m)[i] == BuildIntent
    ensures m == BuildApprovalIntent && i == 4
  {
  }

  /**
   The approval intent is built at most once, and only after the required flags, a parsed maximum
   age, three confirmations, standard input, configuration with an empty environment, one clock
   reading and a PASS evidence result, in that order.
   */
  lemma {:induction false} IntentOnlyAfterEvidence(a: Args, w: World, i: nat)
    requires i < |Work(Meaning(a, w))| && Work(Meaning(a, w))[i] == BuildIntent
    ensures i == 4 && Work(Meaning(a, w)) == [ReadStdin, LoadConfig(true), ReadClock, Call(QualifyEvidence), BuildIntent]
    ensures !a.run && ResolveMode(a) == Some(BuildApprovalIntent)
    ensures a.json && a.config.Some? && w.parsesMaxAge(a.maxAge) && a.approvalDeclared && a.writersStopped && a.liveOrdersForbidden
    ensures w.stdin.Good? && w.config.Good? && w.clock.Tick? && w.call(QualifyEvidence).Good?
  {
    hide Meaning, ResolveMode;
    WorkIsScriptPrefix(a, w);
    var work, m := Work(Meaning(a, w)), ResolveMode(a).value;
    assert Script(m)[i] == work[i];
    IntentPosition(m, i);
    assert GoesWell(w, work[0]) && GoesWell(w, work[1]) && GoesWell(w, work[2]) && GoesWell(w, work[3]);
  }

  lemma ConfigPositions(m: Mode, i: nat)
    requires i < |Script(m)| && Script(m)[i] == LoadConfig(false)
    ensures m == ValidateOnly || m == InspectExisting || m == Replay
  {
  }

  lemma ClockPositions(m: Mode, i: nat, j: nat)
    requires i < |Script(m)| && j < |Script(m)| && Script(m)[i] == ReadClock && Script(m)[j] == ReadClock
    ensures i == j
  {
  }

  /** The process environment is read only by three modes, and the clock at most once by any. */
  lemma {:induction false} EnvironmentAndClock(a: Args, w: World)
    ensures LoadConfig(false) in Work(Meaning(a, w)) ==>
              ResolveMode(a).Some? && ResolveMode(a).value in {ValidateOnly, InspectExisting, Replay}
    ensures forall i, j | 0 <= i < |Work(Meaning(a, w))| && 0 <= j < |Work(Meaning(a, w))| ::
              Work(Meaning(a, w))[i] == ReadClock && Work(Meaning(a, w))[j] == ReadClock ==> i == j
  {
    hide Meaning, ResolveMode, Script, ArgumentsFit, GoesWell;
    WorkIsScriptPrefix(a, w);
    var work := Work(Meaning(a, w));
    if LoadConfig(false) in work {
      var i :| 0 <= i < |work| && work[i] == LoadConfig(false);
      ConfigPositions(ResolveMode(a).value, i);
    }
    forall i, j | 0 <= i < |work| && 0 <= j < |work| && work[i] == ReadClock && work[j] == ReadClock ensures i == j {
      ClockPositions(ResolveMode(a).value, i, j);
    }
  }

  // --------------------------------------------------------------- mode by mode

  /** The function of the composition layer each mode calls. */
  predicate Calls(m: Mode, c: Callee) {
    || (m == InspectExisting && c == Inspect) || (m == PrecheckRuntime && c == Precheck)
    || (m == VerifyPrecheckReceipt && c == VerifyReceipt) || (m == RevalidateCandidate && c == Revalidate)
    || (m == FinalPreflight && c == FinalCheck)
    || ((m == FreshnessPreflight || m == BuildApprovalIntent) && c == QualifyEvidence)
    || (m == VerifyApprovalIntent && c == VerifyIntent) || (m == VerifyEligibilityArtifact && c == VerifyArtifact)
    || (m == Replay && c == ReplayOffline) || (m == ValidateOnly && c == Plan)
  }

  lemma ScriptCalls(m: Mode, c: Callee)
    ensures Call(c) in Script(m) <==> Calls(m, c)
  {
    match m
    case InspectExisting =>
    case PrecheckRuntime =>
    case FinalPreflight =>
    case _ =>
  }

  /** A run calls no function but its mode's own, and a successful run has called it. */
  lemma {:induction false} CallsExactly(a: Args, w: World, c: Callee)
    ensures Call(c) in Work(Meaning(a, w)) ==> ResolveMode(a).Some? && Calls(ResolveMode(a).value, c)
    ensures Meaning(a, w).end == Exited(0) ==> ResolveMode(a).Some? && (Call(c) in Work(Meaning(a, w)) <==> Calls(ResolveMode(a).value, c))
  {
    hide Script, GoesWell, RunFrom, ResolveMode, ArgumentsFit, FixtureUnknown, Calls, ConflictOutcome, ArgumentOutcome, Work;
    WorkIsScriptPrefix(a, w);
    if Work(Meaning(a, w)) != [] {
      var m, work := ResolveMode(a).value, Work(Meaning(a, w));
      ScriptCalls(m, c);
      if Call(c) in work {
        var i :| 0 <= i < |work| && work[i] == Call(c);
        assert Script(m)[i] == Call(c);
      }
    }
    SucceedsExactly(a, w);
    if Meaning(a, w).end == Exited(0) {
      ScriptCalls(ResolveMode(a).value, c);
      RunFromWhole(a, w, ResolveMode(a).value, 0);
    }
  }

  /** A successful run does its whole script. */
  lemma {:induction false} RunFromWhole(a: Args, w: World, m: Mode, k: nat)
    requires k <= |Script(m)| && RunFrom(a, w, m, k).end == Exited(0)
    ensures Work(RunFrom(a, w, m, k)) == Script(m)[k..]
    decreases |Script(m)| - k
  {
    hide Script, GoesWell, Leaves, FixtureUnknown, SuccessOutcome, FailureOutcome;
    if k < |Script(m)| {
      RunFromWhole(a, w, m, k + 1);
      RunFromEndsRight(a, w, m, k + 1);
      assert Script(m)[k..] == [Script(m)[k]] + Script(m)[k + 1..];
    }
  }

  /** What a mode reports when `last` did not go well: its verdict word for what it could not read, could not do, or was told. */
  predicate Reports(m: Mode, w: World, last: Effect, o: Outcome) {
    match m
    case VerifyPrecheckReceipt => o == INVALID
    case VerifyApprovalIntent => o == INVALID
    case VerifyEligibilityArtifact => o == (if last == ReadStdin then FAIL else INVALID)
    case RevalidateCandidate => o == NO_GO
    case FinalPreflight => o == NO_GO
    case FreshnessPreflight => o == NO_GO
    case BuildApprovalIntent => o == (if last == ReadStdin || last == LoadConfig(true) then FAIL else NO_GO)
    case InspectExisting => o == (if last == Call(Inspect) && w.call(Inspect).Bad? then NO_GO else FAIL)
    case PrecheckRuntime => o == (if last == Call(Precheck) && w.call(Precheck).Bad? then NO_GO else FAIL)
    case Replay => o == FAIL
    case ValidateOnly => o == FAIL
  }

  lemma {:induction false} FailureReports(w: World, m: Mode, k: nat)
    requires k < |Script(m)| && !GoesWell(w, Script(m)[k])
    ensures Reports(m, w, Script(m)[k], FailureOutcome(m, w, Script(m)[k]))
  {
  }

  /** Why a run that exits with code 1 reports `o`, `last` being its last effect. */
  ghost predicate Explains(a: Args, w: World, m: Mode, last: Effect, o: Outcome) {
    if !GoesWell(w, last) then Reports(m, w, last, o)
    else if m == Replay && FixtureUnknown(a, w) then o == FAIL
    else m == VerifyEligibilityArtifact && w.summary == Some(Ordinary) && o == INVALID
  }

  /** The trace ends with a reported outcome that the effect before it explains. */
  ghost predicate Explained(a: Args, w: World, m: Mode, t: seq<Effect>) {
    |t| >= 2 && t[|t| - 1].Emit? && Explains(a, w, m, t[|t| - 2], t[|t| - 1].outcome)
  }

  lemma ExplainedGrows(a: Args, w: World, m: Mode, e: Effect, t: seq<Effect>)
    requires Explained(a, w, m, t)
    ensures Explained(a, w, m, [e] + t)
  {
    hide Explains;
    assert ([e] + t)[|t|] == t[|t| - 1] && ([e] + t)[|t| - 1] == t[|t| - 2];
  }

  lemma ConclusionExplained(a: Args, w: World, m: Mode, e: Effect)
    requires GoesWell(w, e) && Conclusion(w, m).end == Exited(1) && !(m == Replay && FixtureUnknown(a, w))
    ensures Explained(a, w, m, [e] + Conclusion(w, m).trace)
  {
    hide GoesWell, Reports, FixtureUnknown;
  }

  lemma ReplayLength()
    ensures |Script(Replay)| == 2
  {
  }

  lemma {:induction false} RunFromExplains(a: Args, w: World, m: Mode, k: nat)
    requires k < |Script(m)| && RunFrom(a, w, m, k).end == Exited(1) && (m == Replay && FixtureUnknown(a, w) ==> k == 0)
    ensures Explained(a, w, m, RunFrom(a, w, m, k).trace)
    decreases |Script(m)| - k
  {
    hide Script, GoesWell, Leaves, FixtureUnknown, Reports, FailureOutcome, Explained, Explains, Conclusion;
    ReplayLength();
    var e := Script(m)[k];
    if !GoesWell(w, e) {
      FailureReports(w, m, k);
      StopExplained(a, w, m, e, FailureOutcome(m, w, e));
    } else if m == Replay && FixtureUnknown(a, w) {
      UnknownExplained(a, w, e);
    } else if k + 1 == |Script(m)| {
      ConclusionExplained(a, w, m, e);
    } else {
      RunFromExplains(a, w, m, k + 1);
      ExplainedGrows(a, w, m, e, RunFrom(a, w, m, k + 1).trace);
    }
  }

  lemma StopExplained(a: Args, w: World, m: Mode, e: Effect, o: Outcome)
    requires !GoesWell(w, e) && Reports(m, w, e, o)
    ensures Explained(a, w, m, [e, Emit(o)])
  {
    hide GoesWell, Reports;
  }

  lemma UnknownExplained(a: Args, w: World, e: Effect)
    requires GoesWell(w, e) && FixtureUnknown(a, w)
    ensures Explained(a, w, Replay, [e] + [Emit(FAIL)])
  {
    hide GoesWell, Reports, FixtureUnknown;
  }

  /** A run that fails after doing something reports exactly the outcome its mode has for the effect it failed at. */
  lemma {:induction false} FailuresExplained(a: Args, w: World)
    requires Meaning(a, w).end == Exited(1) && Work(Meaning(a, w)) != []
    ensures ResolveMode(a).Some? && Explained(a, w, ResolveMode(a).value, Meaning(a, w).trace)
  {
    hide Script, GoesWell, RunFrom, ResolveMode, ArgumentsFit, FixtureUnknown, Explained, ConflictOutcome, ArgumentOutcome;
    WorkIsScriptPrefix(a, w);
    RunFromExplains(a, w, ResolveMode(a).value, 0);
  }

  /** What must go well for a mode to succeed, mode by mode. */
  predicate AllGoesWell(a: Args, w: World, m: Mode) {
    match m
    case VerifyPrecheckReceipt => w.stdin.Good? && w.call(VerifyReceipt).Good?
    case VerifyApprovalIntent => w.stdin.Good? && w.call(VerifyIntent).Good?
    case VerifyEligibilityArtifact => w.stdin.Good? && w.call(VerifyArtifact).Good?
    case RevalidateCandidate => w.stdin.Good? && w.config.Good? && w.call(Revalidate).Good?
    case FinalPreflight => w.stdin.Good? && w.config.Good? && w.clock.Tick? && w.call(FinalCheck).Good?
    case FreshnessPreflight => w.stdin.Good? && w.config.Good? && w.clock.Tick? && w.call(QualifyEvidence).Good?
    case BuildApprovalIntent => w.stdin.Good? && w.config.Good? && w.clock.Tick? && w.call(QualifyEvidence).Good? && w.intent.Good?
    case PrecheckRuntime => w.config.Good? && w.clock.Tick? && w.call(Precheck).Good?
    case InspectExisting => w.config.Good? && w.clock.Tick? && w.call(Inspect).Good?
    case ValidateOnly => w.config.Good? && w.clock.Tick? && w.call(Plan).Good?
    case Replay => w.config.Good? && a.replay.Some? && w.knowsFixture(a.replay.value) && !w.call(ReplayOffline).Raises?
  }

  lemma {:induction false} ScriptGoesWell(a: Args, w: World, m: Mode)
    ensures AllGoesWell(a, w, m) <==> AllWell(w, m, 0) && (m == Replay ==> !FixtureUnknown(a, w))
  {
    hide GoesWell;
    ScriptSteps(w, m);
    StepsGoWell(w);
  }

  lemma {:induction false} ScriptSteps(w: World, m: Mode)
    ensures AllWell(w, m, 0) <==>
      && (0 < |Script(m)| ==> GoesWell(w, Script(m)[0])) && (1 < |Script(m)| ==> GoesWell(w, Script(m)[1]))
      && (2 < |Script(m)| ==> GoesWell(w, Script(m)[2])) && (3 < |Script(m)| ==> GoesWell(w, Script(m)[3]))
      && (4 < |Script(m)| ==> GoesWell(w, Script(m)[4]))
  {
    hide GoesWell;
    assert |Script(m)| <= 5;
    hide Script;
  }

  lemma StepsGoWell(w: World)
    ensures GoesWell(w, ReadStdin) == w.stdin.Good? && GoesWell(w, ReadClock) == w.clock.Tick? && GoesWell(w, BuildIntent) == w.intent.Good?
    ensures forall b :: GoesWell(w, LoadConfig(b)) == w.config.Good?
    ensures forall c :: GoesWell(w, Call(c)) == if c == ReplayOffline then !w.call(c).Raises? else w.call(c).Good?
  {
  }

  /** A run succeeds exactly when one mode is asked for at most, its arguments fit, all it needs goes well and its summary can be made. */
  lemma {:induction false} SucceedsByMode(a: Args, w: World)
    ensures Meaning(a, w).end == Exited(0) <==>
      && !a.run && ResolveMode(a).Some? && w.summary.None?
      && ArgumentsFit(a, w, ResolveMode(a).value) && AllGoesWell(a, w, ResolveMode(a).value)
  {
    hide Meaning, ResolveMode, ArgumentsFit, AllGoesWell, Script, GoesWell, FixtureUnknown;
    SucceedsExactly(a, w);
    if ResolveMode(a).Some? {
      ScriptGoesWell(a, w, ResolveMode(a).value);
    }
  }

  /** The kinds of error a mode's guard lets through. */
  predicate LetsThrough(m: Mode, r: Raise) {
    r == Exit || (r == Memory && m in {BuildApprovalIntent, VerifyApprovalIntent, VerifyEligibilityArtifact})
  }

  /** A summary that cannot be made ends the program, except that of the artifact verifier for an ordinary error. */
  predicate CannotSummarize(w: World, m: Mode) {
    w.summary.Some? && (m == VerifyEligibilityArtifact ==> w.summary.value != Ordinary)
  }

  /** The effect ends the program with an error: reads are not guarded, nor is anything of the validation mode. */
  predicate EndsProgram(w: World, m: Mode, e: Effect) {
    match e
    case ReadStdin => w.stdin.Raises?
    case LoadConfig(_) => w.config.Raises?
    case ReadClock => w.clock.ClockRaises? && (m == ValidateOnly || LetsThrough(m, w.clock.reason))
    case Call(c) => if w.call(c).Raises? then m == ValidateOnly || LetsThrough(m, w.call(c).kind) else CannotSummarize(w, m)
    case BuildIntent => w.intent.Raises? && (m == ValidateOnly || LetsThrough(m, w.intent.kind))
    case Emit(_) => false
  }

  lemma LeavesExactly(w: World, m: Mode, e: Effect)
    ensures Leaves(w, m, e) <==> EndsProgram(w, m, e)
    ensures SummaryEscapes(w, m) <==> CannotSummarize(w, m)
  {
  }

  /** How a run that did something ends, by its last effect. */
  ghost predicate EndsBy(r: Run, w: World, m: Mode, last: Effect) {
    if !GoesWell(w, last) then r.end == Raised <==> EndsProgram(w, m, last)
    else r.end == Raised ==> CannotSummarize(w, m)
  }

  ghost predicate EndsByLast(r: Run, w: World, m: Mode) {
    Work(r) != [] && EndsBy(r, w, m, Work(r)[|Work(r)| - 1])
  }

  lemma {:induction false} RunFromEndsByLast(a: Args, w: World, m: Mode, k: nat)
    requires k < |Script(m)| && !(m == Replay && k == 1 && FixtureUnknown(a, w))
    ensures EndsByLast(RunFrom(a, w, m, k), w, m)
    decreases |Script(m)| - k
  {
    hide Script, GoesWell, Leaves, FixtureUnknown, FailureOutcome, SuccessOutcome, EndsProgram, EndsByLast, SummaryEscapes, CannotSummarize;
    var e, r := Script(m)[k], RunFrom(a, w, m, k);
    LeavesExactly(w, m, e);
    if !GoesWell(w, e) {
      StopEndsByLast(r, w, m, e, FailureOutcome(m, w, e));
    } else {
      RunFromEndsRight(a, w, m, k + 1);
      var rest := RunFrom(a, w, m, k + 1);
      if k + 1 < |Script(m)| && !(m == Replay && k + 1 == 1 && FixtureUnknown(a, w)) {
        RunFromEndsByLast(a, w, m, k + 1);
        EndsByLastGrows(rest, w, m, e);
      } else {
        NothingMoreEndsByLast(rest, r, w, m, e);
      }
    }
  }

  lemma StopEndsByLast(r: Run, w: World, m: Mode, e: Effect, o: Outcome)
    requires !GoesWell(w, e) && r == (if EndsProgram(w, m, e) then Run(Raised, [e]) else Run(Exited(1), [e, Emit(o)]))
    ensures EndsByLast(r, w, m)
  {
    hide GoesWell, EndsProgram;
    assert Work(r) == [e];
  }

  lemma EndsByLastGrows(rest: Run, w: World, m: Mode, e: Effect)
    requires EndsByLast(rest, w, m)
    ensures EndsByLast(Run(rest.end, [e] + rest.trace), w, m)
  {
    hide GoesWell, EndsProgram, CannotSummarize;
    assert Work(Run(rest.end, [e] + rest.trace)) == [e] + Work(rest);
  }

  lemma NothingMoreEndsByLast(rest: Run, r: Run, w: World, m: Mode, e: Effect)
    requires r == Run(rest.end, [e] + rest.trace) && GoesWell(w, e) && Work(rest) == [] && (rest.end.Exited? ==> rest.trace != [])
    requires rest.end == Raised ==> CannotSummarize(w, m)
    ensures EndsByLast(r, w, m)
  {
    hide GoesWell, EndsProgram, CannotSummarize;
    assert Work(r) == [e];
  }

  /** An error leaves the program exactly at an effect whose error nothing contains, or in making the last summary. */
  lemma {:induction false} RaisesExactly(a: Args, w: World)
    ensures Meaning(a, w).end == Raised ==> Work(Meaning(a, w)) != []
    ensures Work(Meaning(a, w)) != [] ==> ResolveMode(a).Some? && EndsByLast(Meaning(a, w), w, ResolveMode(a).value)
  {
    hide Script, GoesWell, RunFrom, ResolveMode, ArgumentsFit, FixtureUnknown, EndsByLast, ConflictOutcome, ArgumentOutcome;
    WorkIsScriptPrefix(a, w);
    if !a.run && ResolveMode(a).Some? {
      ScriptNotEmpty(ResolveMode(a).value);
      RunFromEndsByLast(a, w, ResolveMode(a).value, 0);
      LastNotEmpty(RunFrom(a, w, ResolveMode(a).value, 0), w, ResolveMode(a).value);
    }
  }

  lemma ScriptNotEmpty(m: Mode)
    ensures Script(m) != []
  {
  }

  lemma LastNotEmpty(r: Run, w: World, m: Mode)
    requires EndsByLast(r, w, m)
    ensures Work(r) != []
  {
    hide EndsBy;
  }
}
