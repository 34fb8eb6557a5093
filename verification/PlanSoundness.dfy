/** What an accepted follow-up plan says, field by field, without the validator's own checks. */
module PlanSoundness {
  import opened Wrappers
  import opened PyText
  import opened PyJson
  import opened CanonicalOrder
  import opened PlanValidator

  /** A text that is not blank and holds no control character. */
  predicate IsLabel(f: map<string, Json>, key: string) {
    key in f && f[key].Str? && Strip(f[key].text) != "" && forall i | 0 <= i < |f[key].text| :: f[key].text[i] >= ' ' && f[key].text[i] != '\U{7f}'
  }

  predicate HoldsTexts(j: Json) {
    j.List? && forall x | x in j.items :: x.Str?
  }

  predicate IsKnownScript(s: string) {
    s in {"ops/validate_provider_mapping.py", "ops/run_kr_real_price_smoke.py", "ops/run_kr_real_dart_smoke.py", "ops/research_source_intake.py",
          "ops/build_kr_real_combined" + "_context_smoke.py", "ops/run_date_md_smoke.py", "ops/build_scout_manual_packet.py"}
  }

  // ------------------------------------------------------------------- texts

  /** No address, key name or other forbidden text stands in the text, in either case; command lines have two more. */
  predicate IsCleanText(s: string, command: bool) {
    && !Contains(Lower(s), "http://") && !Contains(Lower(s), "https://")
    && !Contains(Lower(s), "api_key")
    && !Contains(Lower(s), "ops/run_3h0") && !Contains(Lower(s), "preflight_kr_end" + "_to_end_intake.py")
    && (command ==> !Contains(Lower(s), "cp ") && !Contains(Lower(s), "config/universe"))
  }

  lemma ContainsTail(s: string, p: string, q: string)
    requires Contains(s, p + q)
    ensures Contains(s, q)
  {
    var i :| 0 <= i <= |s| && OccursAt(s, p + q, i);
    var k := i + |p|;
    assert s[k..k + |q|] == (p + q)[|p|..] == q by {
      assert s[k..k + |q|] == s[i..i + |p + q|][|p|..];
    }
    assert OccursAt(s, q, k);
  }

  lemma KeyNames()
    ensures "fred_" + "api_key" == "fred_api_key" && "dart_" + "api_key" == "dart_api_key"
  {
  }

  lemma {:induction false} CleanExactly(s: string, command: bool)
    ensures IsSensitive(s, command) <==> !IsCleanText(s, command)
  {
    hide Contains, Lower;
    KeyNames();
    var t := Lower(s);
    if Contains(t, "fred_" + "api_key") { ContainsTail(t, "fred_", "api_key"); }
    if Contains(t, "dart_" + "api_key") { ContainsTail(t, "dart_", "api_key"); }
  }

  // ------------------------------------------------------- blocked field names

  predicate IsBlockedName(name: string) {
    name in {"action", "side", "buy", "sell", "hold", "target_weight", "target_allocation", "quantity", "order", "order_type",
             "price_target", "stop_loss", "take_profit", "allocation",
             "api_key", "env", "endpoint_url", "endpoint", "broker", "kis", "paperbroker", "paperlooprunner", "secret", "token"}
  }

  /** One turn of a path into a JSON value. */
  datatype Turn = Field(name: string) | Item(index: nat)

  /** The value a path leads to, if it leads anywhere. */
  function Reached(j: Json, path: seq<Turn>): Option<Json> {
    if path == [] then Some(j)
    else
      match path[0]
      case Field(k) => if j.Obj? && k in j.fields then Reached(j.fields[k], path[1..]) else None
      case Item(i) => if j.List? && i < |j.items| then Reached(j.items[i], path[1..]) else None
  }

  /** The object at the end of the path has a field of this name. */
  predicate NameAt(j: Json, path: seq<Turn>, name: string) {
    Reached(j, path).Some? && Reached(j, path).value.Obj? && name in Reached(j, path).value.fields
  }

  lemma BlockedNames(key: string)
    ensures IsBlocked(key) <==> IsBlockedName(Lower(key))
  {
    hide Lower;
  }

  lemma {:induction false} BlockedFound(j: Json) returns (path: seq<Turn>, name: string)
    requires HasBlockedKey(j)
    ensures NameAt(j, path, name) && IsBlocked(name)
  {
    hide IsBlocked;
    match j
    case Obj(f) =>
      var k :| k in f && (IsBlocked(k) || HasBlockedKey(f[k]));
      if IsBlocked(k) {
        path, name := [], k;
      } else {
        var rest;
        rest, name := BlockedFound(f[k]);
        path := [Field(k)] + rest;
        assert path[1..] == rest;
      }
    case List(items) =>
      var i :| 0 <= i < |items| && HasBlockedKey(items[i]);
      var rest;
      rest, name := BlockedFound(items[i]);
      path := [Item(i)] + rest;
      assert path[1..] == rest;
  }

  lemma {:induction false} FoundIsBlocked(j: Json, path: seq<Turn>, name: string)
    requires NameAt(j, path, name) && IsBlocked(name)
    ensures HasBlockedKey(j)
    decreases path
  {
    hide IsBlocked;
    if path != [] {
      match path[0]
      case Field(k) => FoundIsBlocked(j.fields[k], path[1..], name);
      case Item(i) => FoundIsBlocked(j.items[i], path[1..], name);
    }
  }

  /** The walk refuses a value exactly when some path in it leads to a blocked field name, in either case. */
  lemma {:induction false} BlockedExactly(j: Json)
    ensures HasBlockedKey(j) <==> exists path, name :: NameAt(j, path, name) && IsBlockedName(Lower(name))
  {
    hide IsBlocked, IsBlockedName, HasBlockedKey, NameAt;
    if HasBlockedKey(j) {
      var path, name := BlockedFound(j);
      BlockedNames(name);
    }
    if path, name :| NameAt(j, path, name) && IsBlockedName(Lower(name)) {
      BlockedNames(name);
      FoundIsBlocked(j, path, name);
    }
  }

  // -------------------------------------------------------------------- steps

  /** Every text of the command is clean and orders nothing. */
  predicate HasCleanLines(isWord: char -> bool, items: seq<Json>) {
    forall x | x in items :: x.Str? ==> IsCleanText(x.text, true) && !HasOrderToken(isWord, x.text)
  }

  /** The step's lines start no script but its own; a step without one starts none. */
  predicate StartsOnly(items: seq<Json>, script: Json) {
    forall x | x in items :: x.Str? ==> LineScript(x.text).None? || (script.Str? && LineScript(x.text) == Some(script.text))
  }

  /** A JSON value is a plan step with this id. */
  predicate IsPlanStep(isWord: char -> bool, j: Json, id: string) {
    && j.Obj?
    && var f := j.fields;
       && f.Keys <= {"id", "label", "command", "script", "allowed", "requires_operator_review", "executes_in_preflight", "notes"}
       && (forall k | k in f :: !IsBlocked(k))
       && IsLabel(f, "id") && Strip(f["id"].text) == id && IsLabel(f, "label")
       && Has(f, "allowed", Bool(true)) && Has(f, "requires_operator_review", Bool(true)) && Has(f, "executes_in_preflight", Bool(false))
       && ("notes" in f ==> f["notes"].Null? || HoldsTexts(f["notes"]))
       && "script" in f && (f["script"].Null? || (f["script"].Str? && IsKnownScript(f["script"].text)))
       && "command" in f && f["command"].List? && f["command"].items != []
       && HasCleanLines(isWord, f["command"].items) && StartsOnly(f["command"].items, f["script"])
  }

  lemma {:induction false} TextsAre(items: seq<Json>, t: string)
    ensures t in TextItems(items) <==> Str(t) in items
  {
    if items != [] {
      var init, last := items[..|items| - 1], items[|items| - 1];
      assert items == init + [last];
      TextsAre(init, t);
    }
  }

  lemma {:induction false} LinesExactly(isWord: char -> bool, items: seq<Json>)
    ensures (forall l | l in TextItems(items) :: IsSafeLine(isWord, l)) <==> HasCleanLines(isWord, items)
  {
    hide IsSensitive, IsCleanText, HasOrderToken, TextItems;
    forall t ensures t in TextItems(items) <==> Str(t) in items { TextsAre(items, t); }
    forall t ensures IsSensitive(t, true) <==> !IsCleanText(t, true) { CleanExactly(t, true); }
    if forall l | l in TextItems(items) :: IsSafeLine(isWord, l) {
      forall x | x in items && x.Str? ensures IsCleanText(x.text, true) && !HasOrderToken(isWord, x.text) {
        assert x == Str(x.text) && x.text in TextItems(items);
      }
    }
  }

  lemma KnownScripts(s: string)
    ensures s in ALLOWLIST <==> IsKnownScript(s)
  {
  }

  lemma {:induction false} ScriptExactly(script: Json, items: seq<Json>)
    requires script.Null? || (script.Str? && Strip(script.text) != "")
    ensures ScriptFault(ScriptOf(script), ScriptsOf(TextItems(items))).None? <==>
            (script.Null? || (script.Str? && IsKnownScript(script.text))) && StartsOnly(items, script)
  {
    hide ALLOWLIST, IsKnownScript, LineScript, TextItems, FirstScriptFault, Strip, ScriptsOf;
    var lines := TextItems(items);
    forall t ensures t in lines <==> Str(t) in items { TextsAre(items, t); }
    var extracted := ScriptsOf(lines);
    if script.Str? {
      KnownScripts(script.text);
      if IsKnownScript(script.text) {
        FirstScriptFaultExactly(script.text, extracted);
      }
    } else if extracted != [] {
      assert extracted[0] in extracted;
    }
    StartedScripts(items, script, extracted);
  }

  /** The extracted scripts are those the command's texts start. */
  lemma {:induction false} StartedScripts(items: seq<Json>, script: Json, extracted: seq<string>)
    requires extracted == ScriptsOf(TextItems(items))
    ensures StartsOnly(items, script) <==> forall s | s in extracted :: script.Str? && s == script.text
  {
    hide LineScript, TextItems, ScriptsOf;
    var lines := TextItems(items);
    forall t ensures t in lines <==> Str(t) in items { TextsAre(items, t); }
    if StartsOnly(items, script) {
      forall s | s in extracted ensures script.Str? && s == script.text {
        var l :| l in lines && LineScript(l) == Some(s);
        assert Str(l) in items;
      }
    }
    if forall s | s in extracted :: script.Str? && s == script.text {
      forall x | x in items && x.Str? ensures LineScript(x.text).None? || (script.Str? && LineScript(x.text) == Some(script.text)) {
        assert x == Str(x.text) && x.text in lines;
      }
    }
  }

  lemma StepKeysAre()
    ensures STEP_KEYS + {"notes"} ==
            {"id", "label", "command", "script", "allowed", "requires_operator_review", "executes_in_preflight", "notes"}
  {
  }

  lemma KnownKeys(a: set<string>, b: set<string>, c: set<string>)
    ensures a - b - c == {} <==> a <= b + c
  {
    if a - b - c == {} {
      forall x | x in a ensures x in b + c { assert x !in a - b - c; }
    }
  }

  lemma {:induction false} LabelExactly(f: map<string, Json>, key: string)
    ensures IsLabel(f, key) <==> !IsBlank(Get(f, key)) && !HasControl(Get(f, key).text)
  {
    hide Strip;
  }

  /** The part of a step before its lines are read. */
  predicate IsStepShape(f: map<string, Json>) {
    && f.Keys <= {"id", "label", "command", "script", "allowed", "requires_operator_review", "executes_in_preflight", "notes"}
    && (forall k | k in f :: !IsBlocked(k))
    && IsLabel(f, "id") && IsLabel(f, "label")
    && "command" in f && f["command"].List? && f["command"].items != []
    && "script" in f && (f["script"].Null? || (f["script"].Str? && Strip(f["script"].text) != ""))
    && Has(f, "allowed", Bool(true)) && Has(f, "requires_operator_review", Bool(true)) && Has(f, "executes_in_preflight", Bool(false))
    && ("notes" in f ==> f["notes"].Null? || HoldsTexts(f["notes"]))
  }

  lemma {:induction false} ShapeExactly(f: map<string, Json>)
    ensures StepShapeFault(f).None? <==> IsStepShape(f)
  {
    hide STEP_KEYS, Strip, IsBlocked, HasControl, IsLabel;
    StepKeysAre();
    KnownKeys(f.Keys, STEP_KEYS, {"notes"});
    LabelExactly(f, "id");
    LabelExactly(f, "label");
  }

  lemma KnownScriptIsText(s: string)
    requires IsKnownScript(s)
    ensures Strip(s) != ""
  {
    assert s[0] == 'o';
    StripFromNonSpace(s);
    RStripKeepsThrough(s, 0);
  }

  lemma {:induction false} StepExactly(isWord: char -> bool, j: Json, id: string)
    ensures CheckStep(isWord, j) == Ok(id) <==> IsPlanStep(isWord, j, id)
  {
    hide StepShapeFault, IsStepShape, IsSafeLine, ScriptFault, ScriptsOf, TextItems, HasCleanLines, StartsOnly, IsKnownScript, Strip;
    if j.Obj? {
      var f := j.fields;
      ShapeExactly(f);
      if IsPlanStep(isWord, j, id) { StepIsShaped(isWord, j, id); }
      if IsStepShape(f) {
        ShapedStep(isWord, f, id);
      }
    }
  }

  lemma StepIsShaped(isWord: char -> bool, j: Json, id: string)
    requires IsPlanStep(isWord, j, id)
    ensures IsStepShape(j.fields)
  {
    hide HasCleanLines, StartsOnly, IsKnownScript, Strip, IsBlocked, IsLabel;
    var script := j.fields["script"];
    if script.Str? { KnownScriptIsText(script.text); }
  }

  lemma {:induction false} ShapedStep(isWord: char -> bool, f: map<string, Json>, id: string)
    requires IsStepShape(f)
    ensures CheckStep(isWord, Obj(f)) == Ok(id) <==> IsPlanStep(isWord, Obj(f), id)
  {
    hide StepShapeFault, IsSafeLine, ScriptFault, ScriptsOf, TextItems, HasCleanLines, StartsOnly, IsKnownScript, Strip, IsBlocked;
    ShapeExactly(f);
    var items := f["command"].items;
    LinesExactly(isWord, items);
    ScriptExactly(f["script"], items);
  }

  // --------------------------------------------------------------- whole plans

  /** The steps of a plan with their ids, and the scripts of those that have one. */
  predicate ArePlanSteps(isWord: char -> bool, steps: seq<Json>, c: Checked) {
    && |c.stepIds| == |steps| && (forall i | 0 <= i < |steps| :: IsPlanStep(isWord, steps[i], c.stepIds[i]))
    && c.scripts == ScriptsOfSteps(steps)
  }

  function ScriptsOfSteps(steps: seq<Json>): seq<string> {
    if steps == [] then []
    else
      var last := steps[|steps| - 1];
      ScriptsOfSteps(steps[..|steps| - 1]) + (if last.Obj? && Get(last.fields, "script").Str? then [Get(last.fields, "script").text] else [])
  }

  lemma {:induction false} StepsExactly(isWord: char -> bool, steps: seq<Json>, c: Checked)
    ensures CheckSteps(isWord, steps) == Ok(c) <==> ArePlanSteps(isWord, steps, c)
  {
    hide CheckStep, IsPlanStep, IsListedScript, ALLOWLIST;
    if steps != [] && c.stepIds != [] {
      var init, last := steps[..|steps| - 1], steps[|steps| - 1];
      var id := c.stepIds[|c.stepIds| - 1];
      var before := Checked(c.stepIds[..|c.stepIds| - 1], ScriptsOfSteps(init));
      StepsExactly(isWord, init, before);
      StepExactly(isWord, last, id);
      if IsPlanStep(isWord, last, id) { StepScriptListed(isWord, last, id); }
      assert c.stepIds == before.stepIds + [id];
      if CheckSteps(isWord, steps) == Ok(c) {
        StepsGiveScripts(isWord, init);
      }
      if ArePlanSteps(isWord, steps, c) {
        forall i | 0 <= i < |init| ensures IsPlanStep(isWord, init[i], before.stepIds[i]) { assert steps[i] == init[i]; }
      }
    }
  }

  lemma {:induction false} StepsGiveScripts(isWord: char -> bool, steps: seq<Json>)
    requires CheckSteps(isWord, steps).Ok?
    ensures CheckSteps(isWord, steps).value.scripts == ScriptsOfSteps(steps)
  {
    hide CheckStep, IsPlanStep, IsListedScript, ALLOWLIST;
    if steps != [] {
      var last := steps[|steps| - 1];
      StepsGiveScripts(isWord, steps[..|steps| - 1]);
      var id := CheckStep(isWord, last).value;
      StepExactly(isWord, last, id);
      StepScriptListed(isWord, last, id);
    }
  }

  lemma StepScriptListed(isWord: char -> bool, j: Json, id: string)
    requires IsPlanStep(isWord, j, id)
    ensures j.Obj? && (IsListedScript(j) <==> Get(j.fields, "script").Str?)
  {
    hide HasCleanLines, StartsOnly, IsKnownScript, Strip, IsBlocked, IsLabel, ALLOWLIST;
    var script := j.fields["script"];
    if script.Str? { KnownScripts(script.text); }
  }

  /** The fixed part of a plan. */
  predicate IsPlanHead(f: map<string, Json>) {
    && f.Keys <= {"version", "mode", "manifest", "name", "generated_by", "review_only", "steps", "forbidden_shortcuts", "warnings"}
    && (forall k | k in f :: !IsBlocked(k))
    && "version" in f && PyEq(f["version"], Int(1))
    && Has(f, "mode", Str("kr-end-to-end" + "-intake-followup-plan")) && Has(f, "generated_by", Str("ops/preflight_kr" + "_end_to_end_intake.py"))
    && IsLabel(f, "manifest") && IsLabel(f, "name")
    && Has(f, "review_only", Bool(true))
    && "steps" in f && f["steps"].List? && f["steps"].items != []
    && "forbidden_shortcuts" in f && HoldsTexts(f["forbidden_shortcuts"]) && "warnings" in f && HoldsTexts(f["warnings"])
  }

  lemma PlanTexts()
    ensures PLAN_MODE == "kr-end-to-end" + "-intake-followup-plan" && PLAN_GENERATOR == "ops/preflight_kr" + "_end_to_end_intake.py"
    ensures PLAN_KEYS == {"version", "mode", "manifest", "name", "generated_by", "review_only", "steps", "forbidden_shortcuts", "warnings"}
  {
  }

  lemma {:induction false} PlanHeadExactly(f: map<string, Json>)
    ensures HeadFault(f).None? <==> IsPlanHead(f)
  {
    hide PLAN_KEYS, PLAN_MODE, PLAN_GENERATOR, Strip, IsBlocked, HasControl, IsLabel;
    PlanTexts();
    KnownKeys(f.Keys, PLAN_KEYS, {});
    assert PLAN_KEYS + {} == PLAN_KEYS && f.Keys - PLAN_KEYS - {} == f.Keys - PLAN_KEYS;
    LabelExactly(f, "manifest");
    LabelExactly(f, "name");
  }

  /** Ids come from the eight known steps, each at most once and in their order. */
  predicate InStepOrder(ids: seq<string>) {
    IsSubsequence(ids, ["validate-provider-mapping", "price-smoke", "dart-smoke", "concatenate-jsonl",
                        "research-source-intake-validate-only", "combined-context-smoke", "date-md-smoke", "scout-manual-packet"])
  }

  lemma StepIdsAre()
    ensures CANONICAL_STEP_IDS == ["validate-provider-mapping", "price-smoke", "dart-smoke", "concatenate-jsonl",
                                   "research-source-intake-validate-only", "combined-context-smoke", "date-md-smoke", "scout-manual-packet"]
  {
  }

  /** A JSON object is an acceptable plan with these step ids and scripts. */
  ghost predicate IsPlan(isWord: char -> bool, f: map<string, Json>, c: Checked) {
    && IsPlanHead(f) && ArePlanSteps(isWord, f["steps"].items, c) && InStepOrder(c.stepIds)
    && (forall path, name | NameAt(Obj(f), path, name) :: !IsBlockedName(Lower(name)))
    && IsCleanText(Strip(f["manifest"].text), false) && IsCleanText(Strip(f["name"].text), false)
  }

  lemma HeadParts(f: map<string, Json>)
    requires IsPlanHead(f)
    ensures "steps" in f && f["steps"].List? && "manifest" in f && f["manifest"].Str? && "name" in f && f["name"].Str?
  {
    hide IsBlocked, Strip;
  }

  /** The validator accepts exactly the acceptable plans, and reports their step ids and scripts. */
  lemma {:induction false} AcceptedExactly(isWord: char -> bool, f: map<string, Json>, c: Checked)
    ensures CheckPlan(isWord, f) == Ok(c) <==> IsPlan(isWord, f, c)
  {
    hide HeadFault, IsPlanHead, CheckSteps, ArePlanSteps, OrderFault, IsSubsequence, CANONICAL_STEP_IDS, HasBlockedKey, IsSensitive,
         IsCleanText, NameAt, IsBlockedName, Strip, Lower;
    PlanHeadExactly(f);
    if IsPlanHead(f) {
      HeadParts(f);
      StepsExactly(isWord, f["steps"].items, c);
      StepIdsAre();
      BlockedExactly(Obj(f));
      CleanExactly(Strip(f["manifest"].text), false);
      CleanExactly(Strip(f["name"].text), false);
    }
  }
}
