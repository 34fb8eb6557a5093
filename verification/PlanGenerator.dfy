/** The follow-up plan generator, and how the independent validator receives its plans. */
module PlanGenerator {
  import opened Wrappers
  import opened PyText
  import opened PyJson
  import opened CanonicalOrder
  import opened PlanValidator
  import opened PlanScripts

  /** The part of a preflight manifest that shapes the plan. */
  datatype Preflight = Preflight(
    manifestPath: string, name: string, universe: string, providerMapping: string,
    day: Option<string>, combinedOutDir: Option<string>, priceSnapshotDir: Option<string>,
    dartSnapshotDir: Option<string>, scoutOutDir: Option<string>,
    store: Option<string>, dateMd: Option<string>,
    combinedJsonl: Option<string>, priceJsonl: Option<string>, dartJsonl: Option<string>,
    requireCoverage: bool, budgetProfile: string)

  predicate IsAbsolute(path: string) {
    path != "" && path[0] == '/'
  }

  predicate IsLoadedText(text: string) {
    text != "" && Strip(text) == text && !HasControl(text)
  }

  predicate IsLoadedPath(path: Option<string>) {
    path.Some? ==> IsAbsolute(path.value)
  }

  predicate IsLoadedOption(text: Option<string>) {
    text.Some? ==> IsLoadedText(text.value)
  }

  /** What loading a manifest guarantees: artifact paths are resolved, other texts are stripped, not blank and without control characters. */
  predicate IsLoaded(m: Preflight) {
    && IsAbsolute(m.manifestPath) && IsAbsolute(m.universe) && IsAbsolute(m.providerMapping)
    && IsLoadedPath(m.store) && IsLoadedPath(m.dateMd)
    && IsLoadedPath(m.combinedJsonl) && IsLoadedPath(m.priceJsonl) && IsLoadedPath(m.dartJsonl)
    && IsLoadedText(m.name) && IsLoadedText(m.budgetProfile)
    && IsLoadedOption(m.day) && IsLoadedOption(m.combinedOutDir) && IsLoadedOption(m.priceSnapshotDir)
    && IsLoadedOption(m.dartSnapshotDir) && IsLoadedOption(m.scoutOutDir)
  }

  datatype FollowupStep = FollowupStep(id: string, title: string, lines: seq<string>, script: Option<string>, notes: seq<string>)

  /** `value or fallback`: an empty text counts as absent. */
  function OrElse(value: Option<string>, fallback: string): string {
    if value.Some? && value.value != "" then value.value else fallback
  }

  function Given(value: Option<string>, fallback: string): string {
    if value.Some? then value.value else fallback
  }

  function Day(m: Preflight): string { OrElse(m.day, "YYYY-MM-DD") }
  function CombinedDir(m: Preflight): string { OrElse(m.combinedOutDir, "runtime/research/" + Day(m)) }
  function PriceDir(m: Preflight): string { OrElse(m.priceSnapshotDir, CombinedDir(m) + "/sources/price") }
  function DartDir(m: Preflight): string { OrElse(m.dartSnapshotDir, CombinedDir(m) + "/sources/dart") }
  function ScoutDir(m: Preflight): string { OrElse(m.scoutOutDir, CombinedDir(m) + "/scout") }
  function Store(m: Preflight): string { Given(m.store, CombinedDir(m) + "/date_id_sources.sqlite3") }
  function DateMd(m: Preflight): string { Given(m.dateMd, CombinedDir(m) + "/Date.md") }
  function CombinedJsonl(m: Preflight): string { Given(m.combinedJsonl, "/tmp/autostock_kr_combined_" + Day(m) + ".jsonl") }
  function PriceJsonl(m: Preflight): string { Given(m.priceJsonl, "/tmp/autostock_kr_price_" + Day(m) + ".jsonl") }
  function DartJsonl(m: Preflight): string { Given(m.dartJsonl, "/tmp/autostock_kr_dart_" + Day(m) + ".jsonl") }
  function CoverageFlag(m: Preflight): string { if m.requireCoverage then " \\\n  --require-symbol-coverage" else "" }

  const TITLE_MAPPING := "Validate provider mapping coverage"
  const TITLE_PRICE := "Run KR real PRICE smoke"
  const TITLE_DART := "Run KR real DART smoke"
  const TITLE_CONCATENATE := "Concatenate FRED + PRICE" + " " + "+ DART JSONL manually"
  const TITLE_INTAKE := "Validate combined research source JSONL"
  const TITLE_COMBINED := "Build KR real combined context smoke"
  const TITLE_DATE_MD := "Run Date.md smoke"
  const TITLE_SCOUT := "Build Scout manual packet"

  const PYTHON := "PYTHONPATH=src uv run python "

  /** One `--flag value \` line. */
  function Arg(flag: string, value: string): string {
    "  " + flag + " " + value + " \\"
  }

  function ArgLines(args: seq<(string, string)>): (r: seq<string>)
    ensures |r| == |args| && forall i | 0 <= i < |args| :: r[i] == Arg(args[i].0, args[i].1)
  {
    seq(|args|, i requires 0 <= i < |args| => Arg(args[i].0, args[i].1))
  }

  /** The line that starts a script. */
  function Head(script: string): string {
    PYTHON + script + " \\"
  }

  /** A step that runs a script: its head line, one line for each argument, and flags without value. */
  function ScriptStep(id: string, title: string, script: string, args: seq<(string, string)>, flags: seq<string>): FollowupStep {
    FollowupStep(id, title, [Head(script)] + ArgLines(args) + flags, Some(script), [])
  }

  const JSON_FLAG := "  --json"
  const FORCE_FLAG := "  --force \\"
  const VALIDATE_FLAG := "  --validate-only \\"
  const FORCE_DATE_MD_FLAG := "  --force-date-md \\"
  const FORCE_SCOUT_FLAG := "  --force-scout \\"
  const SCOPE_FLAG := "  --market-scope KR \\"
  const COVERAGE_FLAG := "  --require-symbol-coverage \\"

  function MappingArgs(m: Preflight): seq<(string, string)> {
    [("--universe", m.universe), ("--provider-mapping", m.providerMapping)]
  }

  function PriceArgs(m: Preflight): seq<(string, string)> {
    [("--universe", m.universe), ("--provider-mapping", m.providerMapping), ("--store", Store(m)),
     ("--snapshot-dir", PriceDir(m)), ("--out-jsonl", PriceJsonl(m))]
  }

  function DartArgs(m: Preflight): seq<(string, string)> {
    [("--universe", m.universe), ("--provider-mapping", m.providerMapping), ("--store", Store(m)),
     ("--snapshot-dir", DartDir(m)), ("--out-jsonl", DartJsonl(m))]
  }

  function IntakeArgs(m: Preflight): seq<(string, string)> {
    [("--source-jsonl", CombinedJsonl(m))]
  }

  function CombinedArgs(m: Preflight): seq<(string, string)> {
    [("--universe", m.universe), ("--source-jsonl", CombinedJsonl(m)), ("--store", Store(m)), ("--date-md-out", DateMd(m)),
     ("--scout-out-dir", ScoutDir(m)), ("--context-budget-profile", m.budgetProfile)]
  }

  function DateMdArgs(m: Preflight): seq<(string, string)> {
    [("--universe", m.universe), ("--date-md", DateMd(m)), ("--store", Store(m) + CoverageFlag(m))]
  }

  function ScoutArgs(m: Preflight): seq<(string, string)> {
    [("--universe", m.universe), ("--date-md", DateMd(m)), ("--store", Store(m)), ("--out-dir", ScoutDir(m))]
  }

  function ScoutFlags(m: Preflight): seq<string> {
    [SCOPE_FLAG] + (if m.requireCoverage then [COVERAGE_FLAG] else []) + [FORCE_FLAG, JSON_FLAG]
  }

  function MappingStep(m: Preflight): FollowupStep {
    ScriptStep(ID_MAPPING, TITLE_MAPPING, MAPPING_SCRIPT, MappingArgs(m), [JSON_FLAG])
  }

  function PriceStep(m: Preflight): FollowupStep {
    ScriptStep(ID_PRICE, TITLE_PRICE, PRICE_SCRIPT, PriceArgs(m), [FORCE_FLAG, JSON_FLAG])
  }

  function DartStep(m: Preflight): FollowupStep {
    ScriptStep(ID_DART, TITLE_DART, DART_SCRIPT, DartArgs(m), [FORCE_FLAG, JSON_FLAG])
  }

  const CAT_NOTE := "# Concatenate FRED + PRICE" + " " + "+ DART JSONL explicitly" + " " + "(operator-run):"

  /** The line that shows the operator what to concatenate. */
  function CatLine(m: Preflight): string {
    "# cat /tmp/autostock_fred_" + Day(m) + ".jsonl " + PriceJsonl(m) + " " + DartJsonl(m) + " > " + CombinedJsonl(m)
  }

  function ConcatenateStep(m: Preflight): FollowupStep {
    FollowupStep(ID_CONCATENATE, TITLE_CONCATENATE, [CAT_NOTE, CatLine(m)],
      None, ["Operator-run shell concatenation only; preflight does not execute."])
  }

  function IntakeStep(m: Preflight): FollowupStep {
    ScriptStep(ID_INTAKE, TITLE_INTAKE, INTAKE_SCRIPT, IntakeArgs(m), [VALIDATE_FLAG, JSON_FLAG])
  }

  function CombinedStep(m: Preflight): FollowupStep {
    ScriptStep(ID_COMBINED, TITLE_COMBINED, COMBINED_SCRIPT, CombinedArgs(m), [FORCE_DATE_MD_FLAG, FORCE_SCOUT_FLAG, JSON_FLAG])
  }

  function DateMdStep(m: Preflight): FollowupStep {
    ScriptStep(ID_DATE_MD, TITLE_DATE_MD, DATE_MD_SCRIPT, DateMdArgs(m), [JSON_FLAG])
  }

  function ScoutStep(m: Preflight): FollowupStep {
    ScriptStep(ID_SCOUT, TITLE_SCOUT, SCOUT_SCRIPT, ScoutArgs(m), ScoutFlags(m))
  }

  /** All steps in canonical order, each with the condition under which it is planned. */
  function Candidates(m: Preflight): seq<(bool, FollowupStep)> {
    [(true, MappingStep(m)), (m.priceJsonl.None?, PriceStep(m)), (m.dartJsonl.None?, DartStep(m)),
     (m.combinedJsonl.None?, ConcatenateStep(m)), (true, IntakeStep(m)), (true, CombinedStep(m)), (true, DateMdStep(m)), (true, ScoutStep(m))]
  }

  function Planned(cs: seq<(bool, FollowupStep)>): seq<FollowupStep> {
    if cs == [] then [] else Planned(cs[..|cs| - 1]) + (if cs[|cs| - 1].0 then [cs[|cs| - 1].1] else [])
  }

  lemma PlannedNext(cs: seq<(bool, FollowupStep)>, k: nat)
    requires k < |cs|
    ensures Planned(cs[..k + 1]) == Planned(cs[..k]) + (if cs[k].0 then [cs[k].1] else [])
  {
    assert cs[..k + 1][..k] == cs[..k];
  }

  /** `_build_followup_steps`: a step is left out when its product is already given. */
  method BuildFollowupSteps(m: Preflight) returns (steps: seq<FollowupStep>)
    ensures steps == Planned(Candidates(m))
  {
    hide MappingStep, PriceStep, DartStep, ConcatenateStep, IntakeStep, CombinedStep, DateMdStep, ScoutStep, Planned;
    ghost var cs := Candidates(m);
    NothingPlanned(cs);
    PlannedNext(cs, 0);
    steps := [MappingStep(m)];
    assert steps == Planned(cs[..1]);
    PlannedNext(cs, 1);
    if m.priceJsonl.None? {
      steps := steps + [PriceStep(m)];
    }
    assert steps == Planned(cs[..2]);
    PlannedNext(cs, 2);
    if m.dartJsonl.None? {
      steps := steps + [DartStep(m)];
    }
    assert steps == Planned(cs[..3]);
    PlannedNext(cs, 3);
    if m.combinedJsonl.None? {
      steps := steps + [ConcatenateStep(m)];
    }
    assert steps == Planned(cs[..4]);
    PlannedNext(cs, 4);
    PlannedNext(cs, 5);
    PlannedNext(cs, 6);
    steps := steps + [IntakeStep(m), CombinedStep(m), DateMdStep(m)];
    assert steps == Planned(cs[..7]);
    PlannedNext(cs, 7);
    steps := steps + [ScoutStep(m)];
    assert cs[..8] == cs;
  }

  lemma NothingPlanned(cs: seq<(bool, FollowupStep)>)
    ensures Planned(cs[..0]) == []
  {
  }

  // ------------------------------------------------------------ the plan as JSON

  function StepBase(s: FollowupStep): map<string, Json> {
    map["id" := Str(s.id), "label" := Str(s.title), "command" := List(TextList(s.lines)),
        "script" := if s.script.Some? then Str(s.script.value) else Null,
        "allowed" := Bool(true), "requires_operator_review" := Bool(true), "executes_in_preflight" := Bool(false)]
  }

  /** `_step_to_structured_dict` */
  function StepFields(s: FollowupStep): map<string, Json> {
    if s.notes == [] then StepBase(s) else StepBase(s)["notes" := List(TextList(s.notes))]
  }

  function StepList(steps: seq<FollowupStep>): (r: seq<Json>)
    ensures |r| == |steps| && forall i | 0 <= i < |steps| :: r[i] == Obj(StepFields(steps[i]))
  {
    seq(|steps|, i requires 0 <= i < |steps| => Obj(StepFields(steps[i])))
  }

  const FORBIDDEN_SHORTCUTS: seq<string> := [
    "Do not auto-promote generated universe/provider mapping into checked-in config.",
    "Do not treat ranking/factor scores as trading or allocation guidance.",
    "Do not forward Scout output to broker/PaperLoop/KIS or any write/execution path.",
    "Do not run live fetches from this preflight helper."]

  /** The payload of `_render_structured_plan_json`. */
  function PlanFields(m: Preflight, steps: seq<FollowupStep>, warnings: seq<string>): map<string, Json> {
    map["version" := Int(1), "mode" := Str(PLAN_MODE), "manifest" := Str(m.manifestPath), "name" := Str(m.name),
        "generated_by" := Str(PLAN_GENERATOR), "review_only" := Bool(true), "steps" := List(StepList(steps)),
        "forbidden_shortcuts" := List(TextList(FORBIDDEN_SHORTCUTS)), "warnings" := List(TextList(warnings))]
  }

  // ------------------------------------------------------- well-formed steps

  /** Printable ASCII that begins and ends with a visible character. */
  predicate IsPlain(s: string) {
    s != "" && s[0] > ' ' && s[|s| - 1] > ' ' && forall i | 0 <= i < |s| :: ' ' <= s[i] <= '~'
  }

  lemma {:induction false} PlainPasses(s: string)
    requires IsPlain(s)
    ensures Strip(s) == s && !HasControl(s)
  {
    assert Trimmed(s);
    TrimmedStrips(s);
  }

  lemma PlainWords(a: string, b: string)
    requires IsPlain(a) && IsPlain(b)
    ensures IsPlain(a + " " + b)
  {
  }

  ghost predicate WellFormed(s: FollowupStep) {
    IsPlain(s.id) && IsPlain(s.title) && s.lines != [] && (s.script.Some? ==> s.script.value in ALLOWLIST && IsPlain(s.script.value))
  }

  function Ids(steps: seq<FollowupStep>): (r: seq<string>)
    ensures |r| == |steps| && forall i | 0 <= i < |steps| :: r[i] == steps[i].id
  {
    seq(|steps|, i requires 0 <= i < |steps| => steps[i].id)
  }

  function CandidateIds(cs: seq<(bool, FollowupStep)>): (r: seq<string>)
    ensures |r| == |cs| && forall i | 0 <= i < |cs| :: r[i] == cs[i].1.id
  {
    seq(|cs|, i requires 0 <= i < |cs| => cs[i].1.id)
  }

  /** Leaving out candidates leaves a subsequence of their ids. */
  lemma {:induction false} PlannedIsSubsequence(cs: seq<(bool, FollowupStep)>)
    ensures IsSubsequence(Ids(Planned(cs)), CandidateIds(cs))
  {
    hide IsSubsequence;
    if cs == [] {
      EmptyIsSubsequence(CandidateIds(cs));
      assert Ids(Planned(cs)) == [];
    } else {
      var init, last := cs[..|cs| - 1], cs[|cs| - 1];
      PlannedIsSubsequence(init);
      SubsequenceGrows(Ids(Planned(init)), CandidateIds(init), last.1.id);
      assert CandidateIds(cs) == CandidateIds(init) + [last.1.id];
      if last.0 {
        assert Ids(Planned(cs)) == Ids(Planned(init)) + [last.1.id];
      } else {
        assert Planned(cs) == Planned(init);
      }
    }
  }

  lemma {:induction false} PlannedAreCandidates(cs: seq<(bool, FollowupStep)>, s: FollowupStep)
    requires s in Planned(cs)
    ensures (true, s) in cs
  {
    var init, last := cs[..|cs| - 1], cs[|cs| - 1];
    if s in Planned(init) {
      PlannedAreCandidates(init, s);
    }
  }

  lemma EmptyIsSubsequence(c: seq<string>)
    ensures IsSubsequence([], c)
  {
  }

  lemma PlainIds()
    ensures IsPlain(ID_MAPPING) && IsPlain(ID_PRICE) && IsPlain(ID_DART) && IsPlain(ID_CONCATENATE)
  {
  }

  lemma PlainLaterIds()
    ensures IsPlain(ID_COMBINED) && IsPlain(ID_DATE_MD) && IsPlain(ID_SCOUT)
  {
  }

  lemma PlainIntakeId()
    ensures IsPlain(ID_INTAKE)
  {
  }

  lemma PlainScripts()
    ensures IsPlain(MAPPING_SCRIPT) && IsPlain(PRICE_SCRIPT) && IsPlain(DART_SCRIPT)
  {
  }

  lemma PlainLaterScripts()
    ensures IsPlain(INTAKE_SCRIPT) && IsPlain(DATE_MD_SCRIPT) && IsPlain(SCOUT_SCRIPT)
  {
  }

  lemma PlainCombinedScript()
    ensures IsPlain(COMBINED_SCRIPT)
  {
  }

  lemma PlainTitles()
    ensures IsPlain(TITLE_PRICE) && IsPlain(TITLE_DART) && IsPlain(TITLE_DATE_MD) && IsPlain(TITLE_SCOUT)
  {
  }

  lemma PlainLongerTitles()
    ensures IsPlain(TITLE_MAPPING) && IsPlain(TITLE_COMBINED)
  {
  }

  lemma PlainIntakeTitle()
    ensures IsPlain(TITLE_INTAKE)
  {
  }

  lemma PlainConcatenateTitle()
    ensures IsPlain(TITLE_CONCATENATE)
  {
    PlainWords("Concatenate FRED + PRICE", "+ DART JSONL manually");
  }

  lemma {:induction false} FirstStepsWellFormed(m: Preflight)
    ensures WellFormed(MappingStep(m)) && WellFormed(PriceStep(m)) && WellFormed(DartStep(m)) && WellFormed(ConcatenateStep(m))
    ensures MappingStep(m).id == ID_MAPPING && PriceStep(m).id == ID_PRICE && DartStep(m).id == ID_DART
    ensures ConcatenateStep(m).id == ID_CONCATENATE
  {
    hide IsPlain, ID_MAPPING, ID_PRICE, ID_DART, ID_CONCATENATE, ID_INTAKE, ID_COMBINED, ID_DATE_MD, ID_SCOUT,
         TITLE_MAPPING, TITLE_PRICE, TITLE_DART, TITLE_CONCATENATE, TITLE_INTAKE, TITLE_COMBINED, TITLE_DATE_MD, TITLE_SCOUT,
         MAPPING_SCRIPT, PRICE_SCRIPT, DART_SCRIPT, INTAKE_SCRIPT, COMBINED_SCRIPT, DATE_MD_SCRIPT, SCOUT_SCRIPT, Head,
         MappingArgs, PriceArgs, DartArgs, IntakeArgs, CombinedArgs, DateMdArgs, ScoutArgs, ScoutFlags, CatLine, CAT_NOTE,
         JSON_FLAG, FORCE_FLAG, VALIDATE_FLAG, FORCE_DATE_MD_FLAG, FORCE_SCOUT_FLAG;
    PlainIds();
    PlainScripts();
    PlainTitles();
    PlainLongerTitles();
    PlainConcatenateTitle();
  }

  lemma {:induction false} LastStepsWellFormed(m: Preflight)
    ensures WellFormed(IntakeStep(m)) && WellFormed(CombinedStep(m)) && WellFormed(DateMdStep(m)) && WellFormed(ScoutStep(m))
    ensures IntakeStep(m).id == ID_INTAKE && CombinedStep(m).id == ID_COMBINED && DateMdStep(m).id == ID_DATE_MD
    ensures ScoutStep(m).id == ID_SCOUT
  {
    hide IsPlain, ID_MAPPING, ID_PRICE, ID_DART, ID_CONCATENATE, ID_INTAKE, ID_COMBINED, ID_DATE_MD, ID_SCOUT,
         TITLE_MAPPING, TITLE_PRICE, TITLE_DART, TITLE_CONCATENATE, TITLE_INTAKE, TITLE_COMBINED, TITLE_DATE_MD, TITLE_SCOUT,
         MAPPING_SCRIPT, PRICE_SCRIPT, DART_SCRIPT, INTAKE_SCRIPT, COMBINED_SCRIPT, DATE_MD_SCRIPT, SCOUT_SCRIPT, Head,
         MappingArgs, PriceArgs, DartArgs, IntakeArgs, CombinedArgs, DateMdArgs, ScoutArgs, ScoutFlags, CatLine, CAT_NOTE,
         JSON_FLAG, FORCE_FLAG, VALIDATE_FLAG, FORCE_DATE_MD_FLAG, FORCE_SCOUT_FLAG;
    PlainLaterIds();
    PlainIntakeId();
    PlainLaterScripts();
    PlainCombinedScript();
    PlainTitles();
    PlainLongerTitles();
    PlainIntakeTitle();
  }

  lemma {:induction false} CandidatesWellFormed(m: Preflight)
    ensures forall c | c in Candidates(m) :: WellFormed(c.1)
    ensures CandidateIds(Candidates(m)) == CANONICAL_STEP_IDS
  {
    hide WellFormed, MappingStep, PriceStep, DartStep, ConcatenateStep, IntakeStep, CombinedStep, DateMdStep, ScoutStep,
         ID_MAPPING, ID_PRICE, ID_DART, ID_CONCATENATE, ID_INTAKE, ID_COMBINED, ID_DATE_MD, ID_SCOUT;
    FirstStepsWellFormed(m);
    LastStepsWellFormed(m);
  }

  /** Every generated list of steps is well formed, with known ids in canonical order. */
  lemma {:induction false} GeneratedSteps(m: Preflight)
    ensures var steps := Planned(Candidates(m));
      && steps != []
      && (forall i | 0 <= i < |steps| :: WellFormed(steps[i]))
      && IsSubsequence(Ids(steps), CANONICAL_STEP_IDS)
  {
    hide WellFormed, IsSubsequence, CANONICAL_STEP_IDS, MappingStep, PriceStep, DartStep, ConcatenateStep, IntakeStep, CombinedStep, DateMdStep, ScoutStep;
    var cs := Candidates(m);
    CandidatesWellFormed(m);
    PlannedIsSubsequence(cs);
    var steps := Planned(cs);
    forall i | 0 <= i < |steps| ensures WellFormed(steps[i]) {
      PlannedAreCandidates(cs, steps[i]);
    }
    assert cs[..8] == cs;
    PlannedNext(cs, 7);
  }

  // ----------------------------------------------------------- field readings

  lemma StepReads(s: FollowupStep)
    ensures var f := StepBase(s);
      && Get(f, "id") == Str(s.id) && Get(f, "label") == Str(s.title) && Get(f, "command") == List(TextList(s.lines))
      && Get(f, "script") == (if s.script.Some? then Str(s.script.value) else Null) && "script" in f
  {
    hide TextList;
  }

  lemma StepReadsFlags(s: FollowupStep)
    ensures var f := StepBase(s);
      && Get(f, "allowed") == Bool(true) && Get(f, "requires_operator_review") == Bool(true)
      && Get(f, "executes_in_preflight") == Bool(false) && "notes" !in f
  {
    hide TextList;
  }

  lemma StepKeys(s: FollowupStep)
    ensures StepBase(s).Keys == STEP_KEYS
  {
    hide TextList;
  }

  /** `notes` is a name of its own, so adding it changes no other field. */
  lemma NotesApart()
    ensures "notes" !in STEP_KEYS
  {
  }

  lemma {:induction false} NotesKeepOthers(s: FollowupStep, key: string)
    requires key in STEP_KEYS
    ensures key in StepFields(s) && Get(StepFields(s), key) == Get(StepBase(s), key)
  {
    hide StepBase, STEP_KEYS, TextList;
    NotesApart();
    StepKeys(s);
  }

  lemma NamesAreStepKeys()
    ensures "id" in STEP_KEYS && "label" in STEP_KEYS && "command" in STEP_KEYS && "script" in STEP_KEYS && "allowed" in STEP_KEYS
    ensures "requires_operator_review" in STEP_KEYS && "executes_in_preflight" in STEP_KEYS
  {
  }

  lemma {:induction false} StepFieldsRead(s: FollowupStep)
    ensures var f := StepFields(s);
      && f.Keys - STEP_KEYS - {"notes"} == {}
      && Get(f, "id") == Str(s.id) && Get(f, "label") == Str(s.title) && Get(f, "command") == List(TextList(s.lines))
      && Get(f, "script") == (if s.script.Some? then Str(s.script.value) else Null) && "script" in f
      && Get(f, "allowed") == Bool(true) && Get(f, "requires_operator_review") == Bool(true)
      && Get(f, "executes_in_preflight") == Bool(false)
      && Get(f, "notes") == (if s.notes == [] then Null else List(TextList(s.notes)))
  {
    StepReads(s);
    StepReadsFlags(s);
    StepKeys(s);
    hide StepBase, STEP_KEYS, TextList;
    NamesAreStepKeys();
    NotesKeepOthers(s, "id");
    NotesKeepOthers(s, "label");
    NotesKeepOthers(s, "command");
    NotesKeepOthers(s, "script");
    NotesKeepOthers(s, "allowed");
    NotesKeepOthers(s, "requires_operator_review");
    NotesKeepOthers(s, "executes_in_preflight");
  }

  lemma PlanKeys(m: Preflight, steps: seq<FollowupStep>, warnings: seq<string>)
    ensures PlanFields(m, steps, warnings).Keys == PLAN_KEYS
  {
    hide StepList, TextList, PLAN_MODE, PLAN_GENERATOR, FORBIDDEN_SHORTCUTS;
  }

  lemma PlanReads(m: Preflight, steps: seq<FollowupStep>, warnings: seq<string>)
    ensures var f := PlanFields(m, steps, warnings);
      && Get(f, "version") == Int(1) && Get(f, "mode") == Str(PLAN_MODE) && Get(f, "manifest") == Str(m.manifestPath)
      && Get(f, "name") == Str(m.name) && Get(f, "generated_by") == Str(PLAN_GENERATOR)
  {
    hide StepList, TextList, PLAN_MODE, PLAN_GENERATOR, FORBIDDEN_SHORTCUTS, PLAN_KEYS;
  }

  lemma PlanReadsLists(m: Preflight, steps: seq<FollowupStep>, warnings: seq<string>)
    ensures var f := PlanFields(m, steps, warnings);
      && Get(f, "review_only") == Bool(true) && Get(f, "steps") == List(StepList(steps))
      && Get(f, "forbidden_shortcuts") == List(TextList(FORBIDDEN_SHORTCUTS)) && Get(f, "warnings") == List(TextList(warnings))
  {
    hide StepList, TextList, PLAN_MODE, PLAN_GENERATOR, FORBIDDEN_SHORTCUTS, PLAN_KEYS;
  }

  // -------------------------------------------------------- no blocked names

  predicate IsName(s: string) {
    forall i | 0 <= i < |s| :: IsNameChar(s[i])
  }

  lemma NamesLowerToThemselves(key: string)
    requires IsName(key) && key !in BLOCKED_KEYS
    ensures !IsBlocked(key)
  {
    hide BLOCKED_KEYS;
    assert Lower(key) == key;
  }

  lemma StepNames()
    ensures forall k | k in STEP_KEYS :: IsName(k)
    ensures IsName("notes")
  {
  }

  lemma PlanNames()
    ensures forall k | k in PLAN_KEYS :: IsName(k)
  {
  }

  lemma StepKeysUnblocked()
    ensures STEP_KEYS !! BLOCKED_KEYS && "notes" !in BLOCKED_KEYS
  {
  }

  lemma PlanKeysUnblocked()
    ensures PLAN_KEYS !! BLOCKED_KEYS
  {
  }

  lemma {:induction false} TextsHaveNoKeys(xs: seq<string>)
    ensures !HasBlockedKey(List(TextList(xs)))
  {
    hide IsBlocked;
    forall i | 0 <= i < |xs| ensures !HasBlockedKey(TextList(xs)[i]) {}
  }

  lemma {:induction false} StepHasNoBlockedKey(s: FollowupStep)
    ensures forall k | k in StepFields(s) :: !IsBlocked(k)
    ensures !HasBlockedKey(Obj(StepFields(s)))
  {
    hide STEP_KEYS, BLOCKED_KEYS, IsBlocked, IsName;
    var f := StepFields(s);
    StepKeys(s);
    StepNames();
    StepKeysUnblocked();
    TextsHaveNoKeys(s.lines);
    TextsHaveNoKeys(s.notes);
    forall k | k in f ensures !IsBlocked(k) && !HasBlockedKey(f[k]) {
      NamesLowerToThemselves(k);
    }
  }

  /** No generated plan has a blocked field name at any depth. */
  lemma {:induction false} PlanHasNoBlockedKey(m: Preflight, steps: seq<FollowupStep>, warnings: seq<string>)
    ensures forall k | k in PlanFields(m, steps, warnings) :: !IsBlocked(k)
    ensures !HasBlockedKey(Obj(PlanFields(m, steps, warnings)))
  {
    hide PLAN_KEYS, BLOCKED_KEYS, IsBlocked, IsName, FORBIDDEN_SHORTCUTS, PLAN_MODE, PLAN_GENERATOR, StepFields;
    var f := PlanFields(m, steps, warnings);
    PlanKeys(m, steps, warnings);
    PlanNames();
    PlanKeysUnblocked();
    TextsHaveNoKeys(FORBIDDEN_SHORTCUTS);
    TextsHaveNoKeys(warnings);
    forall i | 0 <= i < |steps| ensures !HasBlockedKey(StepList(steps)[i]) {
      StepHasNoBlockedKey(steps[i]);
    }
    assert !HasBlockedKey(List(StepList(steps)));
    forall k | k in f ensures !IsBlocked(k) && !HasBlockedKey(f[k]) {
      NamesLowerToThemselves(k);
    }
  }

  // -------------------------------------------------- generator and validator

  predicate StepPasses(isWord: char -> bool, s: FollowupStep) {
    forall l | l in s.lines :: LinePasses(isWord, s.script, l)
  }

  predicate FieldPasses(s: string) {
    Strip(s) != "" && !HasControl(s) && !IsSensitive(Strip(s), false)
  }

  /** Errors about the text of a line or field, never about the plan's structure. */
  predicate IsTextError(e: PlanError) {
    e in {UnsafeLine, ScriptNotAllowed, ScriptMismatch, ManualStepHasScript, FieldRequired, ControlCharacter, SensitiveField}
  }

  lemma {:induction false} TextItemsOfList(xs: seq<string>)
    ensures TextItems(TextList(xs)) == xs
  {
    if xs != [] {
      var init := xs[..|xs| - 1];
      TextItemsOfList(init);
      assert TextList(xs)[..|xs| - 1] == TextList(init);
      assert xs == init + [xs[|xs| - 1]];
    }
  }

  lemma {:induction false} StepShapeHolds(s: FollowupStep)
    requires WellFormed(s)
    ensures StepShapeFault(StepFields(s)).None?
  {
    hide StepFields, Get, STEP_KEYS, IsBlocked, Strip, HasControl, IsPlain, ALLOWLIST, HasBlockedKey;
    StepFieldsRead(s);
    StepHasNoBlockedKey(s);
    PlainPasses(s.id);
    PlainPasses(s.title);
    PlainIsNotEmpty(s.id);
    PlainIsNotEmpty(s.title);
    if s.script.Some? {
      PlainPasses(s.script.value);
      PlainIsNotEmpty(s.script.value);
    }
  }

  lemma PlainIsNotEmpty(s: string)
    requires IsPlain(s)
    ensures s != ""
  {
  }

  lemma {:induction false} ScriptFaultExactly(own: Option<string>, lines: seq<string>)
    requires own.Some? ==> own.value in ALLOWLIST
    ensures ScriptFault(own, ScriptsOf(lines)).None? <==> forall l | l in lines :: LineScript(l).None? || LineScript(l) == own
    ensures ScriptFault(own, ScriptsOf(lines)).Some? ==> IsTextError(ScriptFault(own, ScriptsOf(lines)).value)
  {
    hide ALLOWLIST, LineScript, FirstScriptFault;
    var found := ScriptsOf(lines);
    if own.Some? {
      FirstScriptFaultExactly(own.value, found);
    } else if found != [] {
      assert found[0] in found;
    }
  }

  lemma {:induction false} StepExactly(isWord: char -> bool, s: FollowupStep)
    requires WellFormed(s)
    ensures var r := CheckStep(isWord, Obj(StepFields(s)));
      && (r.Ok? <==> StepPasses(isWord, s))
      && (r.Ok? ==> r.value == s.id)
      && (r.Err? ==> IsTextError(r.error))
    ensures IsListedScript(Obj(StepFields(s))) <==> s.script.Some?
  {
    hide StepFields, Get, Strip, IsPlain, ALLOWLIST, IsSafeLine, LineScript, StepShapeFault, ScriptFault, ScriptsOf, TextItems;
    StepShapeHolds(s);
    StepFieldsRead(s);
    TextItemsOfList(s.lines);
    ScriptFaultExactly(s.script, s.lines);
    PlainPasses(s.id);
  }

  /** The scripts of the steps that have one. */
  function StepScripts(steps: seq<FollowupStep>): seq<string> {
    if steps == [] then []
    else StepScripts(steps[..|steps| - 1]) + (if steps[|steps| - 1].script.Some? then [steps[|steps| - 1].script.value] else [])
  }

  function ManualSteps(steps: seq<FollowupStep>): seq<FollowupStep> {
    if steps == [] then []
    else ManualSteps(steps[..|steps| - 1]) + (if steps[|steps| - 1].script.None? then [steps[|steps| - 1]] else [])
  }

  lemma {:induction false} ScriptsAndManualSteps(steps: seq<FollowupStep>)
    ensures |StepScripts(steps)| + |ManualSteps(steps)| == |steps|
  {
    if steps != [] {
      ScriptsAndManualSteps(steps[..|steps| - 1]);
    }
  }

  lemma {:induction false} StepsExactly(isWord: char -> bool, steps: seq<FollowupStep>)
    requires forall i | 0 <= i < |steps| :: WellFormed(steps[i])
    ensures var r := CheckSteps(isWord, StepList(steps));
      && (r.Ok? <==> forall i | 0 <= i < |steps| :: StepPasses(isWord, steps[i]))
      && (r.Ok? ==> r.value == Checked(Ids(steps), StepScripts(steps)))
      && (r.Err? ==> IsTextError(r.error))
  {
    hide CheckStep, StepPasses, WellFormed, IsListedScript, StepFields, IsTextError;
    if steps != [] {
      var init, last := steps[..|steps| - 1], steps[|steps| - 1];
      StepsExactly(isWord, init);
      StepExactly(isWord, last);
      assert StepList(steps)[..|steps| - 1] == StepList(init);
      assert Ids(steps) == Ids(init) + [last.id];
      assert forall i | 0 <= i < |init| :: init[i] == steps[i];
      if last.script.Some? { ListedScriptRead(last); }
    }
  }

  lemma {:induction false} ListedScriptRead(s: FollowupStep)
    requires s.script.Some?
    ensures Get(StepFields(s), "script") == Str(s.script.value)
  {
    hide StepFields, Get;
    StepFieldsRead(s);
  }

  lemma {:induction false} HeadExactly(m: Preflight, steps: seq<FollowupStep>, warnings: seq<string>)
    requires steps != []
    ensures var e := HeadFault(PlanFields(m, steps, warnings));
      && (e.None? <==> Strip(m.manifestPath) != "" && !HasControl(m.manifestPath) && Strip(m.name) != "" && !HasControl(m.name))
      && (e.Some? ==> IsTextError(e.value))
  {
    hide PlanFields, Get, PLAN_KEYS, PLAN_MODE, PLAN_GENERATOR, FORBIDDEN_SHORTCUTS, IsBlocked, Strip, HasControl, HasBlockedKey;
    PlanKeys(m, steps, warnings);
    PlanReads(m, steps, warnings);
    PlanReadsLists(m, steps, warnings);
    PlanHasNoBlockedKey(m, steps, warnings);
  }

  /**
   Generator against validator: every generated plan is structurally valid, so it is accepted
   exactly when the manifest path, the name and the command lines pass the text screens and each
   line names no script first but its own step's. An accepted plan reports the planned ids and
   scripts; a refused one is refused for the text of a field or line.
   */
  lemma {:induction false} GeneratedPlanAcceptedExactly(isWord: char -> bool, m: Preflight, warnings: seq<string>)
    ensures var steps := Planned(Candidates(m)); var r := CheckPlan(isWord, PlanFields(m, steps, warnings));
      && (r.Ok? <==> FieldPasses(m.manifestPath) && FieldPasses(m.name) && forall i | 0 <= i < |steps| :: StepPasses(isWord, steps[i]))
      && (r.Ok? ==> r.value == Checked(Ids(steps), StepScripts(steps)) && |r.value.scripts| + |ManualSteps(steps)| == |steps|)
      && (r.Err? ==> IsTextError(r.error))
  {
    hide PlanFields, Get, HeadFault, CheckSteps, IsSensitive, HasControl, Strip, HasBlockedKey, StepPasses, WellFormed, IsSubsequence,
         CANONICAL_STEP_IDS, Candidates, PLAN_MODE, PLAN_GENERATOR, FORBIDDEN_SHORTCUTS, IsBlocked, StepList;
    var steps := Planned(Candidates(m));
    GeneratedSteps(m);
    HeadExactly(m, steps, warnings);
    PlanReads(m, steps, warnings);
    PlanReadsLists(m, steps, warnings);
    PlanHasNoBlockedKey(m, steps, warnings);
    StepsExactly(isWord, steps);
    ScriptsAndManualSteps(steps);
  }
}
