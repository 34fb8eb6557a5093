/** What acceptance of a plan does not exclude: a second script on a line, and a manifest that brings it about. */
module PlanForeignScript {
  import opened Wrappers
  import opened PyText
  import opened PyJson
  import opened CanonicalOrder
  import opened PlanValidator
  import opened PlanScripts
  import opened PlanGenerator
  import opened PlanLiterals
  import opened PlanAcceptance

  /** A value that no screen can object to. */
  predicate IsPlainValue(value: string) {
    value != "" && IsPlainLine(value)
  }

  lemma NonEmptyFlag(flag: string)
    requires IsFlag(flag)
    ensures flag != ""
  {
  }

  /** An argument line with a plain value passes for every step. */
  lemma {:induction false} PlainArgPasses(isWord: char -> bool, own: Option<string>, flag: string, value: string)
    requires IsFlag(flag) && IsPlainValue(value)
    ensures LinePasses(isWord, own, Arg(flag, value))
  {
    FlagIsPlain(flag);
    hide IsPlainLine, LinePasses, IsFlag;
    NonEmptyFlag(flag);
    Ends();
    PlainJoin("  ", flag);
    PlainJoin("  " + flag, " ");
    PlainJoin("  " + flag + " ", value);
    PlainJoin("  " + flag + " " + value, " \\");
    var line := Arg(flag, value);
    PlainIsBoth(line);
    PlainLinePasses(isWord, own, line);
  }

  const FOREIGN_SCRIPT := "ops/other.py"

  /** Text after a script path that mentions another script. */
  const FOREIGN_TAIL := " " + FOREIGN_SCRIPT

  lemma ForeignScript()
    ensures IsScriptPath(FOREIGN_SCRIPT) && IsClean(FOREIGN_SCRIPT) && FOREIGN_SCRIPT != ""
    ensures |FOREIGN_SCRIPT| == 12 && |PRICE_SCRIPT| == 30
  {
    forall i | 0 <= i < |FOREIGN_SCRIPT| - 1 ensures !IsScreenedPair(FOREIGN_SCRIPT[i], FOREIGN_SCRIPT[i + 1]) {
      if i < 6 {} else {}
    }
  }

  /** The directory argument of the price step that names the step's own script and then another. */
  function ForeignLine(flag: string): string {
    Arg(flag, PRICE_SCRIPT + FOREIGN_TAIL)
  }

  lemma {:induction false} ForeignLineClean(flag: string)
    requires IsFlag(flag)
    ensures IsClean(ForeignLine(flag))
  {
    hide IsClean, PRICE_SCRIPT, FOREIGN_SCRIPT, NoScriptSlash, NoSlash;
    Ends();
    CleanEnd();
    ForeignScript();
    PriceScriptClean();
    CleanJoin(" ", FOREIGN_SCRIPT);
    CleanJoin(PRICE_SCRIPT, FOREIGN_TAIL);
    CleanJoin("  ", flag);
    CleanJoin("  " + flag, " ");
    CleanJoin("  " + flag + " ", PRICE_SCRIPT + FOREIGN_TAIL);
    CleanJoin("  " + flag + " " + (PRICE_SCRIPT + FOREIGN_TAIL), " \\");
  }

  /** The failing line: it passes, and it mentions a script that is not the step's own. */
  lemma {:induction false} ForeignLinePasses(isWord: char -> bool, flag: string)
    requires IsFlag(flag)
    ensures LinePasses(isWord, Some(PRICE_SCRIPT), ForeignLine(flag))
    ensures IsLive(ForeignLine(flag)) && Mentions(Strip(ForeignLine(flag)), FOREIGN_SCRIPT)
  {
    hide IsClean, IsSafeLine, IsScriptPath, FirstScript, AfterFirst, Strip, PRICE_SCRIPT, FOREIGN_SCRIPT, Mentions;
    var line, value, tail := ForeignLine(flag), PRICE_SCRIPT + FOREIGN_TAIL, FOREIGN_TAIL + " \\";
    var t := Strip(line);
    ForeignScript();
    PriceScriptPath();
    ArgStripped(flag, value);
    assert t == (flag + " ") + (PRICE_SCRIPT + tail);
    PrefixSkipped(flag + " ", PRICE_SCRIPT + tail);
    OwnScriptFirst(PRICE_SCRIPT, tail);
    assert t[0] == '-' && LineScript(line) == Some(PRICE_SCRIPT);
    ForeignLineClean(flag);
    CleanIsSafe(isWord, line);
    ArgMentions(flag, value, FOREIGN_SCRIPT);
    MentionsAreOccurrences(value, FOREIGN_SCRIPT);
    assert value[|PRICE_SCRIPT| + 1..] == FOREIGN_SCRIPT;
    assert OccursAt(value, FOREIGN_SCRIPT, |PRICE_SCRIPT| + 1);
  }

  /** A manifest as it is loaded, with short plain values, whose price snapshot directory names a second script. */
  const FOREIGN_MANIFEST := Preflight(
    "/x", "n", "/u", "/m", Some("t"), Some("o"), Some(PRICE_SCRIPT + FOREIGN_TAIL), Some("x"), Some("p"),
    Some("/s"), Some("/d"), Some("/c"), None, Some("/x"), false, "b")

  lemma ShortValues()
    ensures IsPlainValue("/u") && IsPlainValue("/m") && IsPlainValue("/s") && IsPlainValue("/d") && IsPlainValue("/c")
    ensures IsPlainValue("p") && IsPlainValue("b") && IsPlainValue("/x") && IsPlainValue("n")
  {
  }

  const PRICE_OUT := "/tmp/autostock_kr_price_" + "t" + ".jsonl"

  lemma PriceOutIsPlain()
    ensures IsPlainValue(PRICE_OUT)
  {
    forall i | 0 <= i < |PRICE_OUT| - 1 ensures !IsScreenedPair(PRICE_OUT[i], PRICE_OUT[i + 1]) && !(PRICE_OUT[i] == 's' && PRICE_OUT[i + 1] == '/') {
      if i < 6 {} else if i < 12 {} else if i < 18 {} else if i < 23 {} else if i < 26 {} else {}
    }
  }

  lemma ForeignValues()
    ensures var m := FOREIGN_MANIFEST;
      && m.universe == "/u" && m.providerMapping == "/m" && Store(m) == "/s" && PriceDir(m) == PRICE_SCRIPT + FOREIGN_TAIL
      && PriceJsonl(m) == PRICE_OUT && CombinedJsonl(m) == "/c" && DateMd(m) == "/d" && ScoutDir(m) == "p" && m.budgetProfile == "b"
      && Store(m) + CoverageFlag(m) == "/s"
  {
    ForeignScript();
  }

  predicate ArePlainArgs(args: seq<(string, string)>) {
    forall i | 0 <= i < |args| :: IsFlag(args[i].0) && IsPlainValue(args[i].1)
  }

  lemma {:induction false} PlainArgsPass(isWord: char -> bool, script: string, args: seq<(string, string)>)
    requires ArePlainArgs(args)
    ensures ArgsPass(isWord, script, args)
  {
    hide IsFlag, IsPlainValue, LinePasses, Arg;
    forall i | 0 <= i < |args| ensures LinePasses(isWord, Some(script), Arg(args[i].0, args[i].1)) {
      PlainArgPasses(isWord, Some(script), args[i].0, args[i].1);
    }
  }

  lemma {:induction false} ForeignArgsPlain()
    ensures var m := FOREIGN_MANIFEST;
      && ArePlainArgs(MappingArgs(m)) && ArePlainArgs(IntakeArgs(m)) && ArePlainArgs(CombinedArgs(m))
      && ArePlainArgs(DateMdArgs(m)) && ArePlainArgs(ScoutArgs(m))
      && ArePlainArgs(PriceArgs(m)[3 := ("--store", Store(m))])
  {
    hide IsFlag, IsPlainValue, Store, PriceDir, PriceJsonl, CombinedJsonl, DateMd, ScoutDir, CoverageFlag, PRICE_SCRIPT, FOREIGN_TAIL, PRICE_OUT;
    ForeignValues();
    ShortValues();
    FlagsOfPlans();
    PriceOutIsPlain();
  }

  lemma {:induction false} ForeignArgsPass(isWord: char -> bool)
    ensures ValuesPass(isWord, FOREIGN_MANIFEST)
  {
    hide ArePlainArgs, LinePasses, Arg, MappingArgs, IntakeArgs, CombinedArgs, DateMdArgs, ScoutArgs, DartArgs,
         Store, PriceDir, PriceJsonl, PRICE_SCRIPT, MAPPING_SCRIPT, INTAKE_SCRIPT, COMBINED_SCRIPT, DATE_MD_SCRIPT, SCOUT_SCRIPT, DART_SCRIPT,
         FOREIGN_TAIL, IsSafeLine, CatLine;
    var m := FOREIGN_MANIFEST;
    ForeignValues();
    ForeignArgsPlain();
    PlainArgsPass(isWord, MAPPING_SCRIPT, MappingArgs(m));
    PlainArgsPass(isWord, INTAKE_SCRIPT, IntakeArgs(m));
    PlainArgsPass(isWord, COMBINED_SCRIPT, CombinedArgs(m));
    PlainArgsPass(isWord, DATE_MD_SCRIPT, DateMdArgs(m));
    PlainArgsPass(isWord, SCOUT_SCRIPT, ScoutArgs(m));
    var args := PriceArgs(m);
    var plain := args[3 := ("--store", Store(m))];
    PlainArgsPass(isWord, PRICE_SCRIPT, plain);
    SnapshotFlag(isWord);
    hide ArgsPass;
    OneArgChanged(isWord, PRICE_SCRIPT, plain, args, 3);
  }

  lemma OneArgChanged(isWord: char -> bool, script: string, plain: seq<(string, string)>, args: seq<(string, string)>, k: nat)
    requires k < |args| == |plain| && args == plain[k := args[k]] && ArgsPass(isWord, script, plain)
    requires LinePasses(isWord, Some(script), Arg(args[k].0, args[k].1))
    ensures ArgsPass(isWord, script, args)
  {
    hide LinePasses, Arg;
  }

  /** A live line mentions the foreign script. */
  ghost predicate MentionsForeign(line: string) {
    IsLive(line) && Mentions(Strip(line), FOREIGN_SCRIPT)
  }

  lemma ForeignIsNotAllowlisted()
    ensures FOREIGN_SCRIPT !in ALLOWLIST
  {
    assert |FOREIGN_SCRIPT| == 12 && |MAPPING_SCRIPT| == 32 && |PRICE_SCRIPT| == 30 && |DART_SCRIPT| == 29 && |INTAKE_SCRIPT| == 29;
    assert |COMBINED_SCRIPT| == 43 && |DATE_MD_SCRIPT| == 24 && |SCOUT_SCRIPT| == 32;
    hide FOREIGN_SCRIPT, MAPPING_SCRIPT, PRICE_SCRIPT, DART_SCRIPT, INTAKE_SCRIPT, COMBINED_SCRIPT, DATE_MD_SCRIPT, SCOUT_SCRIPT;
  }

  lemma {:induction false} SnapshotFlag(isWord: char -> bool)
    ensures LinePasses(isWord, Some(PRICE_SCRIPT), Arg("--snapshot-dir", PRICE_SCRIPT + FOREIGN_TAIL))
    ensures MentionsForeign(Arg("--snapshot-dir", PRICE_SCRIPT + FOREIGN_TAIL))
  {
    hide IsFlag, LinePasses, Mentions, IsLive, PRICE_SCRIPT, FOREIGN_TAIL, Arg;
    FlagsOfPlans();
    ForeignLinePasses(isWord, "--snapshot-dir");
  }

  lemma ShortFieldsPass()
    ensures FieldPasses("/x") && FieldPasses("n")
  {
    hide IsSensitive;
    assert Trimmed("/x") && Trimmed("n");
    TrimmedStrips("/x");
    TrimmedStrips("n");
    ShortValues();
    CleanIsNotSensitive("/x", false);
    CleanIsNotSensitive("n", false);
  }

  lemma {:induction false} ForeignManifestLoads()
    ensures IsLoaded(FOREIGN_MANIFEST)
  {
    hide PRICE_SCRIPT, FOREIGN_SCRIPT, IsPlain, Strip, HasControl;
    assert IsPlain("n") && IsPlain("t") && IsPlain("o") && IsPlain("x") && IsPlain("p") && IsPlain("b") && IsPlain(FOREIGN_SCRIPT) by {
      ShortTextsPlain();
    }
    PlainScripts();
    PlainWords(PRICE_SCRIPT, FOREIGN_SCRIPT);
    assert PRICE_SCRIPT + FOREIGN_TAIL == PRICE_SCRIPT + " " + FOREIGN_SCRIPT;
    PlainPasses("n");
    PlainPasses("t");
    PlainPasses("o");
    PlainPasses("x");
    PlainPasses("p");
    PlainPasses("b");
    PlainPasses(PRICE_SCRIPT + FOREIGN_TAIL);
  }

  lemma ShortTextsPlain()
    ensures IsPlain("n") && IsPlain("t") && IsPlain("o") && IsPlain("x") && IsPlain("p") && IsPlain("b") && IsPlain(FOREIGN_SCRIPT)
  {
  }

  /**
   A manifest the loader can yield, whose generated plan the validator accepts although a line of its price step mentions
   a script that is neither the step's own nor allowlisted.
   */
  lemma {:induction false} ForeignManifestAccepted(isWord: char -> bool, warnings: seq<string>)
    ensures IsLoaded(FOREIGN_MANIFEST)
    ensures var m := FOREIGN_MANIFEST;
      && CheckPlan(isWord, PlanFields(m, Planned(Candidates(m)), warnings)).Ok?
      && PriceStep(m) in Planned(Candidates(m))
      && exists l | l in PriceStep(m).lines :: MentionsForeign(l)
    ensures FOREIGN_SCRIPT !in ALLOWLIST
  {
    hide CheckPlan, PlanFields, FieldPasses, ValuesPass, MentionsForeign, IsLoaded, PRICE_SCRIPT, FOREIGN_SCRIPT, FOREIGN_TAIL, Arg, Head, Planned,
         MappingStep, DartStep, ConcatenateStep, IntakeStep, CombinedStep, DateMdStep, ScoutStep, Store, PriceDir, PriceJsonl, ALLOWLIST;
    var m := FOREIGN_MANIFEST;
    ForeignManifestLoads();
    ForeignIsNotAllowlisted();
    ShortFieldsPass();
    ForeignArgsPass(isWord);
    AcceptedByValues(isWord, m, warnings);
    ForeignValues();
    SnapshotFlag(isWord);
    var cs := Candidates(m);
    assert cs[1] == (true, PriceStep(m)) && cs[1] in cs;
    PlannedHolds(cs, cs[1]);
    var lines := PriceStep(m).lines;
    assert lines[4] == Arg("--snapshot-dir", PRICE_SCRIPT + FOREIGN_TAIL) && lines[4] in lines;
  }
}
