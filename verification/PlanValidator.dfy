/** The structured follow-up plan validator: text screens, step schema, blocked field names. */
module PlanValidator {
  import opened Wrappers
  import opened PyText
  import opened PyJson
  import opened CanonicalOrder

  // Long literals are joined from short ones, which the verifier can look into.
  const PLAN_MODE := "kr-end-to-end" + "-intake-followup-plan"
  const PLAN_GENERATOR := "ops/preflight_kr" + "_end_to_end_intake.py"

  const MAPPING_SCRIPT := "ops/validate_provider_mapping.py"
  const PRICE_SCRIPT := "ops/run_kr_real_price_smoke.py"
  const DART_SCRIPT := "ops/run_kr_real_dart_smoke.py"
  const INTAKE_SCRIPT := "ops/research_source_intake.py"
  const COMBINED_SCRIPT := "ops/build_kr_real_combined" + "_context_smoke.py"
  const DATE_MD_SCRIPT := "ops/run_date_md_smoke.py"
  const SCOUT_SCRIPT := "ops/build_scout_manual_packet.py"

  const ALLOWLIST: set<string> := {
    MAPPING_SCRIPT, PRICE_SCRIPT, DART_SCRIPT, INTAKE_SCRIPT, COMBINED_SCRIPT, DATE_MD_SCRIPT, SCOUT_SCRIPT}

  const ID_MAPPING := "validate-provider-mapping"
  const ID_PRICE := "price-smoke"
  const ID_DART := "dart-smoke"
  const ID_CONCATENATE := "concatenate-jsonl"
  const ID_INTAKE := "research-source-intake-validate-only"
  const ID_COMBINED := "combined-context-smoke"
  const ID_DATE_MD := "date-md-smoke"
  const ID_SCOUT := "scout-manual-packet"

  const CANONICAL_STEP_IDS: seq<string> := [
    ID_MAPPING, ID_PRICE, ID_DART, ID_CONCATENATE, ID_INTAKE, ID_COMBINED, ID_DATE_MD, ID_SCOUT]

  const PLAN_KEYS: set<string> := {
    "version", "mode", "manifest", "name", "generated_by", "review_only", "steps", "forbidden_shortcuts", "warnings"}

  const STEP_KEYS: set<string> := {
    "id", "label", "command", "script", "allowed", "requires_operator_review", "executes_in_preflight"}

  const BLOCKED_KEYS: set<string> := {
    "action", "side", "buy", "sell", "hold", "target_weight", "target_allocation", "quantity", "order", "order_type",
    "price_target", "stop_loss", "take_profit", "allocation",
    "api_key", "env", "endpoint_url", "endpoint", "broker", "kis", "paperbroker", "paperlooprunner", "secret", "token"}

  datatype PlanError =
    | UnknownFields | ForbiddenField | BadVersion | BadMode | BadGenerator | NotReviewOnly | NoSteps | BadShortcuts | BadWarnings
    | StepNotObject | UnknownStepFields | StepFieldRequired | StepControlCharacter | BadCommand | NoScriptField | BadScript
    | NotAllowed | NoReview | Executes | BadNotes | StepOrder(fault: OrderError)
    | UnsafeLine | ScriptNotAllowed | ScriptMismatch | ManualStepHasScript
    | FieldRequired | ControlCharacter | SensitiveField

  // ------------------------------------------------------------- text screens

  predicate HasControl(s: string) {
    exists i | 0 <= i < |s| :: s[i] < ' ' || s[i] == '\U{7f}'
  }

  /** `_validate_sensitive_string` refuses the text. */
  predicate IsSensitive(s: string, command: bool) {
    var t := Lower(s);
    || Contains(t, "https://") || Contains(t, "http://")
    || Contains(t, "api_key") || Contains(t, "fred_api_key") || Contains(t, "dart_api_key")
    || Contains(t, "ops/run_3h0")
    || Contains(t, "preflight_kr_end" + "_to_end_intake.py")
    || (command && (Contains(t, "cp ") || Contains(t, "config/universe")))
  }

  /** Case-insensitive match of one pattern letter under Python's Unicode rules. */
  predicate MatchesIgnoringCase(c: char, letter: char) {
    || LowerChar(c) == letter
    || (letter == 's' && c == '\U{17f}')
    || (letter == 'i' && (c == '\U{130}' || c == '\U{131}'))
  }

  const ORDER_TOKEN := "submit_order"

  /** `\bsubmit_order\b` occurs, ignoring case; `isWord` is the class `\w`. */
  predicate HasOrderToken(isWord: char -> bool, s: string) {
    exists i | 0 <= i <= |s| - |ORDER_TOKEN| :: OrderTokenAt(isWord, s, i)
  }

  predicate OrderTokenAt(isWord: char -> bool, s: string, i: nat)
    requires i + |ORDER_TOKEN| <= |s|
  {
    var n := |ORDER_TOKEN|;
    && (forall k | 0 <= k < n :: MatchesIgnoringCase(s[i + k], ORDER_TOKEN[k]))
    && (i == 0 || isWord(s[i - 1]) != isWord(s[i])) && (i > 0 || isWord(s[i]))
    && (i + n == |s| || isWord(s[i + n - 1]) != isWord(s[i + n])) && (i + n < |s| || isWord(s[i + n - 1]))
  }

  predicate IsSafeLine(isWord: char -> bool, line: string) {
    !IsSensitive(line, true) && !HasOrderToken(isWord, line)
  }

  predicate IsNameChar(c: char) {
    'a' <= c <= 'z' || c == '_'
  }

  function NameLength(s: string): (n: nat)
    ensures n <= |s| && (forall i | 0 <= i < n :: IsNameChar(s[i])) && (n < |s| ==> !IsNameChar(s[n]))
  {
    if s != "" && IsNameChar(s[0]) then 1 + NameLength(s[1..]) else 0
  }

  /** Length of a match of `ops/[a-z_]+\.py` at the start of `s`. */
  function ScriptLength(s: string): (n: Option<nat>)
    ensures n.Some? ==> n.value <= |s|
  {
    if "ops/" <= s then
      var k := NameLength(s[4..]);
      if k > 0 && ".py" <= s[4 + k..] then Some(4 + k + 3) else None
    else None
  }

  /** The leftmost script path a line mentions. */
  function FirstScript(s: string): (r: Option<string>)
    ensures r.Some? ==> Contains(s, r.value)
  {
    if ScriptLength(s).Some? then
      assert OccursAt(s, s[..ScriptLength(s).value], 0);
      Some(s[..ScriptLength(s).value])
    else if s == "" then None
    else
      var r := FirstScript(s[1..]);
      if r.Some? then
        var i :| 0 <= i <= |s[1..]| && OccursAt(s[1..], r.value, i);
        assert OccursAt(s, r.value, i + 1);
        r
      else r
  }

  /** The script of a command line; blank lines and comments mention none. */
  function LineScript(line: string): Option<string> {
    var t := Strip(line);
    if t == "" || t[0] == '#' then None else FirstScript(t)
  }

  function ScriptsOf(lines: seq<string>): (r: seq<string>)
    ensures forall x | x in r :: exists l | l in lines :: LineScript(l) == Some(x)
    ensures forall l | l in lines :: LineScript(l).Some? ==> LineScript(l).value in r
  {
    if lines == [] then []
    else
      var last := LineScript(lines[|lines| - 1]);
      assert lines == lines[..|lines| - 1] + [lines[|lines| - 1]];
      ScriptsOf(lines[..|lines| - 1]) + (if last.Some? then [last.value] else [])
  }

  /** `_extract_followup_command_scripts` */
  method ExtractScripts(lines: seq<string>) returns (scripts: seq<string>)
    ensures scripts == ScriptsOf(lines)
  {
    hide LineScript;
    scripts := [];
    for i := 0 to |lines|
      invariant scripts == ScriptsOf(lines[..i])
    {
      assert lines[..i + 1][..i] == lines[..i];
      var found := LineScript(lines[i]);
      if found.Some? {
        scripts := scripts + [found.value];
      }
    }
    assert lines[..|lines|] == lines;
  }

  // --------------------------------------------------------- blocked field names

  predicate IsBlocked(key: string) {
    Lower(key) in BLOCKED_KEYS
  }

  /** `_walk_forbidden_field_names`: a blocked name occurs at some depth. */
  predicate HasBlockedKey(j: Json) {
    match j
    case Obj(f) => exists k | k in f :: IsBlocked(k) || HasBlockedKey(f[k])
    case List(items) => exists i | 0 <= i < |items| :: HasBlockedKey(items[i])
    case _ => false
  }

  // -------------------------------------------------------------- step schema

  predicate IsBlank(j: Json) {
    !j.Str? || Strip(j.text) == ""
  }

  predicate IsTextList(j: Json) {
    j.List? && forall x | x in j.items :: x.Str?
  }

  /** The strings of a list; other items are skipped. */
  function TextItems(items: seq<Json>): seq<string> {
    if items == [] then []
    else TextItems(items[..|items| - 1]) + (if items[|items| - 1].Str? then [items[|items| - 1].text] else [])
  }

  function ScriptFault(script: Option<string>, extracted: seq<string>): Option<PlanError> {
    if script.None? then if extracted != [] then Some(ManualStepHasScript) else None
    else if script.value !in ALLOWLIST then Some(ScriptNotAllowed)
    else FirstScriptFault(script.value, extracted)
  }

  function FirstScriptFault(script: string, extracted: seq<string>): Option<PlanError> {
    if extracted == [] then None
    else if extracted[0] !in ALLOWLIST then Some(ScriptNotAllowed)
    else if extracted[0] != script then Some(ScriptMismatch)
    else FirstScriptFault(script, extracted[1..])
  }

  lemma {:induction false} FirstScriptFaultExactly(script: string, extracted: seq<string>)
    requires script in ALLOWLIST
    ensures FirstScriptFault(script, extracted).None? <==> forall x | x in extracted :: x == script
    ensures FirstScriptFault(script, extracted) in {None, Some(ScriptNotAllowed), Some(ScriptMismatch)}
  {
    hide ALLOWLIST;
    if extracted != [] {
      FirstScriptFaultExactly(script, extracted[1..]);
      assert extracted[0] in extracted;
      assert forall x :: x in extracted <==> x == extracted[0] || x in extracted[1..];
      if forall x | x in extracted :: x == script {
        assert extracted[0] == script;
      }
    }
  }

  /** The flags and types of a step, before its command lines are read. */
  function StepShapeFault(f: map<string, Json>): Option<PlanError> {
    if f.Keys - STEP_KEYS - {"notes"} != {} then Some(UnknownStepFields)
    else if exists k | k in f :: IsBlocked(k) then Some(ForbiddenField)
    else if IsBlank(Get(f, "id")) then Some(StepFieldRequired)
    else if HasControl(Get(f, "id").text) then Some(StepControlCharacter)
    else if IsBlank(Get(f, "label")) then Some(StepFieldRequired)
    else if HasControl(Get(f, "label").text) then Some(StepControlCharacter)
    else if !Get(f, "command").List? || Get(f, "command").items == [] then Some(BadCommand)
    else if "script" !in f then Some(NoScriptField)
    else if !Get(f, "script").Null? && IsBlank(Get(f, "script")) then Some(BadScript)
    else if Get(f, "allowed") != Bool(true) then Some(NotAllowed)
    else if Get(f, "requires_operator_review") != Bool(true) then Some(NoReview)
    else if Get(f, "executes_in_preflight") != Bool(false) then Some(Executes)
    else if !Get(f, "notes").Null? && !IsTextList(Get(f, "notes")) then Some(BadNotes)
    else None
  }

  function ScriptOf(j: Json): Option<string> {
    if j.Str? then Some(j.text) else None
  }

  /** `_validate_step_object` */
  function CheckStep(isWord: char -> bool, j: Json): Result<string, PlanError> {
    if !j.Obj? then Err(StepNotObject)
    else if StepShapeFault(j.fields).Some? then Err(StepShapeFault(j.fields).value)
    else
      var command := Get(j.fields, "command");
      var id := Get(j.fields, "id");
      if !command.List? || !id.Str? then Err(BadCommand)
      else
        var lines := TextItems(command.items);
        if exists l | l in lines :: !IsSafeLine(isWord, l) then Err(UnsafeLine)
        else
          match ScriptFault(ScriptOf(Get(j.fields, "script")), ScriptsOf(lines))
          case Some(e) => Err(e)
          case None => Ok(Strip(id.text))
  }

  datatype Checked = Checked(stepIds: seq<string>, scripts: seq<string>)

  predicate IsListedScript(j: Json) {
    j.Obj? && Get(j.fields, "script").Str? && Get(j.fields, "script").text in ALLOWLIST
  }

  function CheckSteps(isWord: char -> bool, steps: seq<Json>): Result<Checked, PlanError> {
    if steps == [] then Ok(Checked([], []))
    else
      match CheckSteps(isWord, steps[..|steps| - 1])
      case Err(e) => Err(e)
      case Ok(done) =>
        var last := steps[|steps| - 1];
        match CheckStep(isWord, last)
        case Err(e) => Err(e)
        case Ok(id) =>
          Ok(Checked(done.stepIds + [id],
                     done.scripts + (if IsListedScript(last) then [Get(last.fields, "script").text] else [])))
  }

  // ------------------------------------------------------------- whole payload

  function HeadFault(f: map<string, Json>): Option<PlanError> {
    if f.Keys - PLAN_KEYS != {} then Some(UnknownFields)
    else if exists k | k in f :: IsBlocked(k) then Some(ForbiddenField)
    else if !(IsNumber(Get(f, "version")) && Number(Get(f, "version")) == 1.0) then Some(BadVersion)
    else if Get(f, "mode") != Str(PLAN_MODE) then Some(BadMode)
    else if IsBlank(Get(f, "manifest")) then Some(FieldRequired)
    else if HasControl(Get(f, "manifest").text) then Some(ControlCharacter)
    else if IsBlank(Get(f, "name")) then Some(FieldRequired)
    else if HasControl(Get(f, "name").text) then Some(ControlCharacter)
    else if Get(f, "generated_by") != Str(PLAN_GENERATOR) then Some(BadGenerator)
    else if Get(f, "review_only") != Bool(true) then Some(NotReviewOnly)
    else if !Get(f, "steps").List? || Get(f, "steps").items == [] then Some(NoSteps)
    else if !IsTextList(Get(f, "forbidden_shortcuts")) then Some(BadShortcuts)
    else if !IsTextList(Get(f, "warnings")) then Some(BadWarnings)
    else None
  }

  lemma HeadHolds(f: map<string, Json>)
    requires HeadFault(f).None?
    ensures Get(f, "steps").List? && Get(f, "manifest").Str? && Get(f, "name").Str?
  {
    hide Strip, IsBlocked, HasControl, PLAN_MODE, PLAN_GENERATOR, IsTextList;
  }

  /** `_validate_top_level` */
  ghost function CheckPlan(isWord: char -> bool, f: map<string, Json>): Result<Checked, PlanError> {
    if HeadFault(f).Some? then Err(HeadFault(f).value)
    else
      HeadHolds(f);
      match CheckSteps(isWord, Get(f, "steps").items)
      case Err(e) => Err(e)
      case Ok(checked) =>
        match OrderFault(checked.stepIds, CANONICAL_STEP_IDS)
        case Some(e) => Err(StepOrder(e))
        case None =>
          if HasBlockedKey(Obj(f)) then Err(ForbiddenField)
          else if IsSensitive(Strip(Get(f, "manifest").text), false) || IsSensitive(Strip(Get(f, "name").text), false)
            then Err(SensitiveField)
          else Ok(checked)
  }

  lemma StepIdLengths()
    ensures |ID_MAPPING| == 25 && |ID_PRICE| == 11 && |ID_DART| == 10 && |ID_CONCATENATE| == 17
    ensures |ID_INTAKE| == 36 && |ID_COMBINED| == 22 && |ID_DATE_MD| == 13 && |ID_SCOUT| == 19
  {
  }

  lemma StepIdsDistinct()
    ensures Distinct(CANONICAL_STEP_IDS)
  {
    hide ID_MAPPING, ID_PRICE, ID_DART, ID_CONCATENATE, ID_INTAKE, ID_COMBINED, ID_DATE_MD, ID_SCOUT;
    StepIdLengths();
  }

  method ValidatePlan(isWord: char -> bool, f: map<string, Json>) returns (r: Result<Checked, PlanError>)
    ensures r == CheckPlan(isWord, f)
  {
    hide HeadFault, CheckStep, OrderFault, IsSubsequence, CANONICAL_STEP_IDS, ALLOWLIST, HasBlockedKey, IsSensitive, Strip, IsListedScript;
    var head := HeadFault(f);
    if head.Some? {
      return Err(head.value);
    }
    HeadHolds(f);
    var steps := Get(f, "steps").items;
    var checked := Checked([], []);
    for i := 0 to |steps|
      invariant CheckSteps(isWord, steps[..i]) == Ok(checked)
    {
      assert steps[..i + 1][..i] == steps[..i];
      var step := CheckStep(isWord, steps[i]);
      if step.Err? {
        FirstBadStep(isWord, steps, i + 1);
        return Err(step.error);
      }
      ListedIsObject(steps[i]);
      checked := Checked(checked.stepIds + [step.value],
                         checked.scripts + (if IsListedScript(steps[i]) then [Get(steps[i].fields, "script").text] else []));
    }
    assert steps[..|steps|] == steps;
    StepIdsDistinct();
    var order := CheckOrder(checked.stepIds, CANONICAL_STEP_IDS);
    if order.Some? {
      return Err(StepOrder(order.value));
    }
    if HasBlockedKey(Obj(f)) {
      return Err(ForbiddenField);
    }
    if IsSensitive(Strip(Get(f, "manifest").text), false) || IsSensitive(Strip(Get(f, "name").text), false) {
      return Err(SensitiveField);
    }
    return Ok(checked);
  }

  lemma ListedIsObject(j: Json)
    ensures IsListedScript(j) ==> j.Obj? && Get(j.fields, "script").Str?
  {
    hide ALLOWLIST;
  }

  lemma {:induction false} FirstBadStep(isWord: char -> bool, steps: seq<Json>, i: nat)
    requires i <= |steps| && CheckSteps(isWord, steps[..i]).Err?
    ensures CheckSteps(isWord, steps) == CheckSteps(isWord, steps[..i])
    decreases |steps|
  {
    hide CheckStep;
    if i == |steps| {
      assert steps[..i] == steps;
    } else {
      var init := steps[..|steps| - 1];
      assert init[..i] == steps[..i];
      FirstBadStep(isWord, init, i);
    }
  }

  // ------------------------------------------------------- what acceptance means

  /** A step that waits for the operator, and whose lines are safe and name no script first that is not allowlisted. */
  predicate IsSafeStep(isWord: char -> bool, j: Json) {
    && j.Obj? && Get(j.fields, "command").List?
    && Get(j.fields, "requires_operator_review") == Bool(true) && Get(j.fields, "executes_in_preflight") == Bool(false)
    && forall l | l in TextItems(Get(j.fields, "command").items) ::
         IsSafeLine(isWord, l) && (LineScript(l).Some? ==> LineScript(l).value in ALLOWLIST)
  }

  lemma ShapeSound(f: map<string, Json>)
    requires StepShapeFault(f).None?
    ensures Get(f, "requires_operator_review") == Bool(true) && Get(f, "executes_in_preflight") == Bool(false)
    ensures Get(f, "command").List?
  {
    hide Strip, IsBlocked, HasControl, STEP_KEYS, IsTextList, Get;
  }

  lemma {:induction false} ScriptsAllowlisted(script: Option<string>, lines: seq<string>)
    requires ScriptFault(script, ScriptsOf(lines)).None?
    ensures forall l | l in lines :: LineScript(l).Some? ==> LineScript(l).value in ALLOWLIST
  {
    hide ALLOWLIST, LineScript, FirstScriptFault;
    if script.Some? {
      FirstScriptFaultExactly(script.value, ScriptsOf(lines));
    }
  }

  lemma {:induction false} AcceptedStepIsSafe(isWord: char -> bool, j: Json)
    requires CheckStep(isWord, j).Ok?
    ensures IsSafeStep(isWord, j)
  {
    hide StepShapeFault, ScriptFault, ScriptsOf, LineScript, IsSafeLine, TextItems, ALLOWLIST, Get, Strip;
    ShapeSound(j.fields);
    var lines := TextItems(Get(j.fields, "command").items);
    ScriptsAllowlisted(ScriptOf(Get(j.fields, "script")), lines);
  }

  lemma {:induction false} AcceptedStepsAreSafe(isWord: char -> bool, steps: seq<Json>)
    requires CheckSteps(isWord, steps).Ok?
    ensures forall i | 0 <= i < |steps| :: IsSafeStep(isWord, steps[i])
    ensures |CheckSteps(isWord, steps).value.stepIds| == |steps|
  {
    hide CheckStep, IsSafeStep, IsListedScript;
    if steps != [] {
      AcceptedStepsAreSafe(isWord, steps[..|steps| - 1]);
      AcceptedStepIsSafe(isWord, steps[|steps| - 1]);
    }
  }

  /**
   Whatever plan is accepted, generated or not: its steps are a subsequence of the canonical steps,
   each waits for the operator, the first script of each line is allowlisted, and no field name is
   blocked at any depth. Scripts behind the first one of a line are not looked at.
   */
  lemma {:induction false} AcceptedPlanIsSafe(isWord: char -> bool, f: map<string, Json>)
    requires CheckPlan(isWord, f).Ok?
    ensures !HasBlockedKey(Obj(f))
    ensures Get(f, "steps").List? && forall i | 0 <= i < |Get(f, "steps").items| :: IsSafeStep(isWord, Get(f, "steps").items[i])
    ensures IsSubsequence(CheckPlan(isWord, f).value.stepIds, CANONICAL_STEP_IDS)
    ensures |CheckPlan(isWord, f).value.stepIds| == |Get(f, "steps").items|
  {
    hide HeadFault, CheckSteps, IsSafeStep, HasBlockedKey, IsSensitive, Strip, IsSubsequence, CANONICAL_STEP_IDS, Get;
    HeadHolds(f);
    AcceptedStepsAreSafe(isWord, Get(f, "steps").items);
  }
}
