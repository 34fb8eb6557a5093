/**
 Generated plans in terms of the manifest's own values: every line without such a value passes the
 screens and mentions its step's own script at most, so acceptance and the scripts a plan mentions
 depend on those values alone.
 */
module PlanAcceptance {
  import opened Wrappers
  import opened PyText
  import opened PyJson
  import opened CanonicalOrder
  import opened PlanValidator
  import opened PlanScripts
  import opened PlanGenerator
  import opened PlanLiterals

  // ------------------------------------------------------------- fixed lines pass

  lemma {:induction false} HeadIsClean(script: string)
    requires IsClean(script)
    ensures IsClean(Head(script))
  {
    hide IsClean, PYTHON;
    PythonPrefix();
    CleanEnd();
    CleanJoin(PYTHON, script);
    CleanJoin(PYTHON + script, " \\");
  }

  /** The head line of a step names exactly its own script. */
  lemma {:induction false} HeadNamesScript(script: string)
    requires IsScriptPath(script)
    ensures LineScript(Head(script)) == Some(script)
  {
    hide IsScriptPath, PYTHON, FirstScript, Strip, IsClean;
    PythonPrefix();
    CleanEnd();
    var t := Head(script);
    assert t[0] == 'P' && t[|t| - 1] == '\\';
    NotSpaces();
    TrimmedStrips(t);
    assert t == PYTHON + (script + " \\");
    PrefixSkipped(PYTHON, script + " \\");
    OwnScriptFirst(script, " \\");
  }

  lemma {:induction false} HeadPasses(isWord: char -> bool, script: string)
    requires IsScriptPath(script) && IsClean(script)
    ensures LinePasses(isWord, Some(script), Head(script))
  {
    hide IsScriptPath, IsClean, IsSafeLine, LineScript, Head;
    HeadNamesScript(script);
    HeadIsClean(script);
    CleanIsSafe(isWord, Head(script));
  }

  lemma {:induction false} StrippedHasNoScript(s: string)
    requires NoScriptSlash(s)
    ensures LineScript(s).None?
  {
    hide IsSpace, FirstScript;
    var l := LStrip(s);
    var r := RStrip(l);
    forall i | 0 <= i < |r| - 1 ensures !(r[i] == 's' && r[i + 1] == '/') {
      var d := |s| - |l|;
      assert r[i] == s[d + i] && r[i + 1] == s[d + i + 1];
    }
    NoScriptWithout(r);
  }

  /** A clean line without `s/` passes for every step. */
  lemma {:induction false} PlainLinePasses(isWord: char -> bool, own: Option<string>, line: string)
    requires IsClean(line) && NoScriptSlash(line)
    ensures LinePasses(isWord, own, line)
  {
    hide IsClean, NoScriptSlash, IsSafeLine, LineScript;
    CleanIsSafe(isWord, line);
    StrippedHasNoScript(line);
  }

  predicate ArePlainLines(flags: seq<string>) {
    forall f | f in flags :: IsPlainLine(f)
  }

  // ------------------------------------------------------------- steps by argument

  /** Each argument line of a step passes the screens and names no script first but the step's own. */
  predicate ArgsPass(isWord: char -> bool, script: string, args: seq<(string, string)>) {
    forall i | 0 <= i < |args| :: LinePasses(isWord, Some(script), Arg(args[i].0, args[i].1))
  }

  lemma {:induction false} ScriptStepExactly(
    isWord: char -> bool, id: string, title: string, script: string, args: seq<(string, string)>, flags: seq<string>)
    requires IsCleanScript(script) && ArePlainLines(flags)
    ensures StepPasses(isWord, ScriptStep(id, title, script, args, flags)) <==> ArgsPass(isWord, script, args)
  {
    hide IsScriptPath, IsClean, LinePasses, Arg, Head, IsPlainLine;
    var s := ScriptStep(id, title, script, args, flags);
    HeadPasses(isWord, script);
    forall f | f in flags ensures LinePasses(isWord, Some(script), f) {
      PlainIsBoth(f);
      PlainLinePasses(isWord, Some(script), f);
    }
    var lines := ArgLines(args);
    assert s.lines == [Head(script)] + lines + flags;
    if StepPasses(isWord, s) {
      forall i | 0 <= i < |args| ensures LinePasses(isWord, Some(script), Arg(args[i].0, args[i].1)) {
        assert s.lines[1 + i] == lines[i] && s.lines[1 + i] in s.lines;
      }
    }
  }

  lemma {:induction false} CommentHasNoScript(s: string)
    requires s != "" && s[0] == '#'
    ensures LineScript(s).None?
  {
    hide IsSpace, FirstScript, LStrip, RStrip;
    NotSpaces();
    StripFromNonSpace(s);
    RStripKeepsThrough(s, 0);
  }

  lemma {:induction false} ConcatenateExactly(isWord: char -> bool, m: Preflight)
    ensures StepPasses(isWord, ConcatenateStep(m)) <==> IsSafeLine(isWord, CatLine(m))
  {
    CatIsComment(m);
    hide IsSafeLine, CAT_NOTE, CatLine, LineScript, IsPlainLine, TITLE_CONCATENATE, ID_CONCATENATE;
    FixedNote();
    PlainIsBoth(CAT_NOTE);
    PlainLinePasses(isWord, None, CAT_NOTE);
    CommentHasNoScript(CatLine(m));
    var s := ConcatenateStep(m);
    assert s.lines == [CAT_NOTE, CatLine(m)];
    assert s.lines[1] in s.lines;
  }

  lemma CatIsComment(m: Preflight)
    ensures CatLine(m) != "" && CatLine(m)[0] == '#'
  {
    hide Day, PriceJsonl, DartJsonl, CombinedJsonl;
  }

  /** The values a manifest supplies pass, step by step, for the steps that are planned. */
  predicate ValuesPass(isWord: char -> bool, m: Preflight) {
    && ArgsPass(isWord, MAPPING_SCRIPT, MappingArgs(m))
    && (m.priceJsonl.None? ==> ArgsPass(isWord, PRICE_SCRIPT, PriceArgs(m)))
    && (m.dartJsonl.None? ==> ArgsPass(isWord, DART_SCRIPT, DartArgs(m)))
    && (m.combinedJsonl.None? ==> IsSafeLine(isWord, CatLine(m)))
    && ArgsPass(isWord, INTAKE_SCRIPT, IntakeArgs(m))
    && ArgsPass(isWord, COMBINED_SCRIPT, CombinedArgs(m))
    && ArgsPass(isWord, DATE_MD_SCRIPT, DateMdArgs(m))
    && ArgsPass(isWord, SCOUT_SCRIPT, ScoutArgs(m))
  }

  lemma {:induction false} FirstStepsExactly(isWord: char -> bool, m: Preflight)
    ensures StepPasses(isWord, MappingStep(m)) <==> ArgsPass(isWord, MAPPING_SCRIPT, MappingArgs(m))
    ensures StepPasses(isWord, PriceStep(m)) <==> ArgsPass(isWord, PRICE_SCRIPT, PriceArgs(m))
    ensures StepPasses(isWord, DartStep(m)) <==> ArgsPass(isWord, DART_SCRIPT, DartArgs(m))
  {
    hide IsCleanScript, ArgsPass, StepPasses, MAPPING_SCRIPT, PRICE_SCRIPT, DART_SCRIPT, MappingArgs, PriceArgs, DartArgs,
         IsPlainLine, ScriptStep, ID_MAPPING, ID_PRICE, ID_DART, TITLE_MAPPING, TITLE_PRICE, TITLE_DART, JSON_FLAG, FORCE_FLAG;
    ScriptsAreClean();
    FlagsArePlain();
    ScriptStepExactly(isWord, ID_MAPPING, TITLE_MAPPING, MAPPING_SCRIPT, MappingArgs(m), [JSON_FLAG]);
    ScriptStepExactly(isWord, ID_PRICE, TITLE_PRICE, PRICE_SCRIPT, PriceArgs(m), [FORCE_FLAG, JSON_FLAG]);
    ScriptStepExactly(isWord, ID_DART, TITLE_DART, DART_SCRIPT, DartArgs(m), [FORCE_FLAG, JSON_FLAG]);
  }

  lemma {:induction false} MiddleStepsExactly(isWord: char -> bool, m: Preflight)
    ensures StepPasses(isWord, IntakeStep(m)) <==> ArgsPass(isWord, INTAKE_SCRIPT, IntakeArgs(m))
    ensures StepPasses(isWord, CombinedStep(m)) <==> ArgsPass(isWord, COMBINED_SCRIPT, CombinedArgs(m))
  {
    hide IsCleanScript, ArgsPass, StepPasses, INTAKE_SCRIPT, COMBINED_SCRIPT, IntakeArgs, CombinedArgs, IsPlainLine, ScriptStep,
         ID_INTAKE, ID_COMBINED, TITLE_INTAKE, TITLE_COMBINED, JSON_FLAG, VALIDATE_FLAG, FORCE_DATE_MD_FLAG, FORCE_SCOUT_FLAG;
    ScriptsAreClean();
    FlagsArePlain();
    ScriptStepExactly(isWord, ID_INTAKE, TITLE_INTAKE, INTAKE_SCRIPT, IntakeArgs(m), [VALIDATE_FLAG, JSON_FLAG]);
    ScriptStepExactly(isWord, ID_COMBINED, TITLE_COMBINED, COMBINED_SCRIPT, CombinedArgs(m), [FORCE_DATE_MD_FLAG, FORCE_SCOUT_FLAG, JSON_FLAG]);
  }

  lemma {:induction false} LastStepsExactly(isWord: char -> bool, m: Preflight)
    ensures StepPasses(isWord, DateMdStep(m)) <==> ArgsPass(isWord, DATE_MD_SCRIPT, DateMdArgs(m))
    ensures StepPasses(isWord, ScoutStep(m)) <==> ArgsPass(isWord, SCOUT_SCRIPT, ScoutArgs(m))
  {
    hide IsCleanScript, ArgsPass, StepPasses, DATE_MD_SCRIPT, SCOUT_SCRIPT, DateMdArgs, ScoutArgs, IsPlainLine, ScriptStep,
         ID_DATE_MD, ID_SCOUT, TITLE_DATE_MD, TITLE_SCOUT, JSON_FLAG, FORCE_FLAG, SCOPE_FLAG, COVERAGE_FLAG;
    ScriptsAreClean();
    FlagsArePlain();
    ScriptStepExactly(isWord, ID_DATE_MD, TITLE_DATE_MD, DATE_MD_SCRIPT, DateMdArgs(m), [JSON_FLAG]);
    ScriptStepExactly(isWord, ID_SCOUT, TITLE_SCOUT, SCOUT_SCRIPT, ScoutArgs(m), ScoutFlags(m));
  }

  lemma {:induction false} PlannedHolds(cs: seq<(bool, FollowupStep)>, c: (bool, FollowupStep))
    requires c in cs && c.0
    ensures c.1 in Planned(cs)
  {
    var init, last := cs[..|cs| - 1], cs[|cs| - 1];
    assert cs == init + [last];
    if c in init {
      PlannedHolds(init, c);
    }
  }

  /** A property holds of every planned step exactly when it holds of every candidate whose condition is met. */
  lemma {:induction false} PlannedAllExactly(cs: seq<(bool, FollowupStep)>, p: FollowupStep -> bool)
    ensures (forall i | 0 <= i < |Planned(cs)| :: p(Planned(cs)[i])) <==> forall k | 0 <= k < |cs| && cs[k].0 :: p(cs[k].1)
  {
    hide Planned;
    var steps := Planned(cs);
    if forall i | 0 <= i < |steps| :: p(steps[i]) {
      forall k | 0 <= k < |cs| && cs[k].0 ensures p(cs[k].1) {
        PlannedHolds(cs, cs[k]);
        var i :| 0 <= i < |steps| && steps[i] == cs[k].1;
      }
    }
    if forall k | 0 <= k < |cs| && cs[k].0 :: p(cs[k].1) {
      forall i | 0 <= i < |steps| ensures p(steps[i]) {
        PlannedAreCandidates(cs, steps[i]);
        var k :| 0 <= k < |cs| && cs[k] == (true, steps[i]);
      }
    }
  }

  lemma {:induction false} CandidatesPassExactly(isWord: char -> bool, m: Preflight)
    ensures (forall k | 0 <= k < |Candidates(m)| && Candidates(m)[k].0 :: StepPasses(isWord, Candidates(m)[k].1)) <==> ValuesPass(isWord, m)
  {
    hide StepPasses, ArgsPass, IsSafeLine, MappingStep, PriceStep, DartStep, ConcatenateStep, IntakeStep, CombinedStep, DateMdStep, ScoutStep,
         MAPPING_SCRIPT, PRICE_SCRIPT, DART_SCRIPT, INTAKE_SCRIPT, COMBINED_SCRIPT, DATE_MD_SCRIPT, SCOUT_SCRIPT,
         MappingArgs, PriceArgs, DartArgs, IntakeArgs, CombinedArgs, DateMdArgs, ScoutArgs, CatLine;
    FirstStepsExactly(isWord, m);
    MiddleStepsExactly(isWord, m);
    LastStepsExactly(isWord, m);
    ConcatenateExactly(isWord, m);
    var cs := Candidates(m);
    assert cs[0].1 == MappingStep(m) && cs[1].1 == PriceStep(m) && cs[2].1 == DartStep(m) && cs[3].1 == ConcatenateStep(m);
    assert cs[4].1 == IntakeStep(m) && cs[5].1 == CombinedStep(m) && cs[6].1 == DateMdStep(m) && cs[7].1 == ScoutStep(m);
  }

  /**
   A generated plan is accepted exactly when the manifest's path and name pass, and so do the values
   it supplies for the arguments of the planned steps: no fixed line is ever refused.
   */
  lemma {:induction false} AcceptedByValues(isWord: char -> bool, m: Preflight, warnings: seq<string>)
    ensures CheckPlan(isWord, PlanFields(m, Planned(Candidates(m)), warnings)).Ok? <==>
            FieldPasses(m.manifestPath) && FieldPasses(m.name) && ValuesPass(isWord, m)
  {
    hide CheckPlan, PlanFields, StepPasses, FieldPasses, ValuesPass, Candidates, Planned;
    GeneratedPlanAcceptedExactly(isWord, m, warnings);
    PlannedAllExactly(Candidates(m), s => StepPasses(isWord, s));
    CandidatesPassExactly(isWord, m);
  }

  lemma SpaceStripped(r: string)
    ensures Strip(" " + r) == Strip(r)
  {
    assert (" " + r)[1..] == r && IsSpace((" " + r)[0]);
  }

  lemma StripIndent(r: string)
    requires r != "" && Trimmed(r)
    ensures Strip("  " + r) == r
  {
    hide Strip, IsSpace;
    SpaceStripped(" " + r);
    SpaceStripped(r);
    assert "  " + r == " " + (" " + r);
    TrimmedStrips(r);
  }

  // ------------------------------------------------ scripts that a plan mentions

  /** Every live line of the step mentions the step's own script only. */
  ghost predicate StepMentionsOwnOnly(s: FollowupStep) {
    forall l | l in s.lines :: MentionsOwnOnly(s.script, l)
  }

  lemma {:induction false} ArgStripped(flag: string, value: string)
    requires IsFlag(flag)
    ensures Strip(Arg(flag, value)) == flag + " " + value + " \\"
  {
    hide Strip, IsClean, NoSlash;
    NotSpaces();
    CleanEnd();
    var r := flag + " " + value + " \\";
    assert r[0] == '-' && r[|r| - 1] == '\\';
    StripIndent(r);
    assert Arg(flag, value) == "  " + r;
  }

  /** An argument line is live and mentions exactly what its value mentions. */
  lemma {:induction false} ArgMentions(flag: string, value: string, s: string)
    requires IsFlag(flag)
    ensures IsLive(Arg(flag, value)) && (Mentions(Strip(Arg(flag, value)), s) <==> Mentions(value, s))
  {
    hide Strip, IsClean, Mentions, Arg;
    ArgStripped(flag, value);
    assert flag + " " + value + " \\" == (flag + " ") + (value + " \\");
    PrefixAddsNone(flag + " ", value + " \\", s);
    EndHasNoSlash();
    SuffixAddsNone(value, " \\", s);
  }

  lemma EndHasNoSlash()
    ensures NoSlash(" \\") && " \\" != "" && " \\"[0] == ' '
  {
  }

  /** The head line of a step mentions its own script only. */
  lemma {:induction false} HeadMentionsOwnOnly(script: string)
    requires IsScriptPath(script)
    ensures MentionsOwnOnly(Some(script), Head(script))
  {
    hide IsScriptPath, PYTHON, Strip, IsClean, Mentions, NoSlash;
    PythonPrefix();
    CleanEnd();
    EndHasNoSlash();
    NotSpaces();
    var t := Head(script);
    assert t[0] == 'P' && t[|t| - 1] == '\\';
    TrimmedStrips(t);
    assert t == PYTHON + (script + " \\");
    forall s ensures Mentions(t, s) <==> s == script {
      PrefixAddsNone(PYTHON, script + " \\", s);
      SuffixAddsNone(script, " \\", s);
      PathMentionsItself(script, s);
    }
  }

  lemma {:induction false} PlainLineMentionsNone(own: Option<string>, line: string)
    requires IsPlainLine(line)
    ensures MentionsOwnOnly(own, line)
  {
    hide IsClean, NoScriptSlash, Mentions, FirstScript, Strip;
    StrippedHasNoScript(line);
    forall s | IsLive(line) ensures !Mentions(Strip(line), s) {
      MentionsExactly(Strip(line), s);
    }
  }

  ghost predicate ValueMentionsOnly(script: string, value: string) {
    forall s | Mentions(value, s) :: s == script
  }

  /** Every script mentioned in the value of an argument is the step's own. */
  ghost predicate ArgsMentionOnly(script: string, args: seq<(string, string)>) {
    forall i | 0 <= i < |args| :: ValueMentionsOnly(script, args[i].1)
  }

  predicate AreNamed(args: seq<(string, string)>) {
    forall i | 0 <= i < |args| :: IsFlag(args[i].0)
  }

  lemma {:induction false} ArgOwnExactly(script: string, flag: string, value: string)
    requires IsFlag(flag)
    ensures MentionsOwnOnly(Some(script), Arg(flag, value)) <==> ValueMentionsOnly(script, value)
  {
    hide IsFlag, Mentions, IsLive, Strip, Arg;
    forall s ensures IsLive(Arg(flag, value)) && (Mentions(Strip(Arg(flag, value)), s) <==> Mentions(value, s)) {
      ArgMentions(flag, value, s);
    }
  }

  lemma {:induction false} ScriptStepOwnExactly(id: string, title: string, script: string, args: seq<(string, string)>, flags: seq<string>)
    requires IsCleanScript(script) && ArePlainLines(flags) && AreNamed(args)
    ensures StepMentionsOwnOnly(ScriptStep(id, title, script, args, flags)) <==> ArgsMentionOnly(script, args)
  {
    hide IsClean, IsScriptPath, MentionsOwnOnly, ValueMentionsOnly, Arg, Head, IsPlainLine, IsFlag;
    var s := ScriptStep(id, title, script, args, flags);
    HeadMentionsOwnOnly(script);
    forall f | f in flags ensures MentionsOwnOnly(Some(script), f) {
      PlainLineMentionsNone(Some(script), f);
    }
    var lines := ArgLines(args);
    forall i | 0 <= i < |args| ensures MentionsOwnOnly(Some(script), lines[i]) <==> ValueMentionsOnly(script, args[i].1) {
      ArgOwnExactly(script, args[i].0, args[i].1);
    }
    assert s.lines == [Head(script)] + lines + flags;
    if StepMentionsOwnOnly(s) {
      forall i | 0 <= i < |args| ensures ValueMentionsOnly(script, args[i].1) {
        assert s.lines[1 + i] == lines[i] && s.lines[1 + i] in s.lines;
      }
    }
  }

  lemma {:induction false} CommentIsNotLive(s: string)
    requires s != "" && s[0] == '#'
    ensures !IsLive(s)
  {
    hide IsSpace, LStrip, RStrip;
    NotSpaces();
    StripFromNonSpace(s);
    RStripKeepsThrough(s, 0);
  }

  lemma {:induction false} ConcatenateMentionsNone(m: Preflight)
    ensures StepMentionsOwnOnly(ConcatenateStep(m))
  {
    CatIsComment(m);
    hide CAT_NOTE, CatLine, IsLive, Mentions, Strip, TITLE_CONCATENATE, ID_CONCATENATE, IsPlainLine;
    CommentIsNotLive(CatLine(m));
    FixedNote();
    PlainLineMentionsNone(None, CAT_NOTE);
  }

  /** The arguments of the Date.md step as the manifest gives them, without the flag appended to the store. */
  function DateMdSupplied(m: Preflight): seq<(string, string)> {
    [("--universe", m.universe), ("--date-md", DateMd(m)), ("--store", Store(m))]
  }

  /** For each planned script step, every script mentioned in a value the manifest supplies is the step's own. */
  ghost predicate ValuesMentionOwnOnly(m: Preflight) {
    && ArgsMentionOnly(MAPPING_SCRIPT, MappingArgs(m))
    && (m.priceJsonl.None? ==> ArgsMentionOnly(PRICE_SCRIPT, PriceArgs(m)))
    && (m.dartJsonl.None? ==> ArgsMentionOnly(DART_SCRIPT, DartArgs(m)))
    && ArgsMentionOnly(INTAKE_SCRIPT, IntakeArgs(m))
    && ArgsMentionOnly(COMBINED_SCRIPT, CombinedArgs(m))
    && ArgsMentionOnly(DATE_MD_SCRIPT, DateMdSupplied(m))
    && ArgsMentionOnly(SCOUT_SCRIPT, ScoutArgs(m))
  }

  lemma {:induction false} CoverageMentionsNone(m: Preflight)
    ensures ArgsMentionOnly(DATE_MD_SCRIPT, DateMdArgs(m)) <==> ArgsMentionOnly(DATE_MD_SCRIPT, DateMdSupplied(m))
  {
    hide Mentions, DATE_MD_SCRIPT, Store, DateMd, CoverageFlag, NoSlash;
    CoverageHasNoSlash(m);
    forall s ensures Mentions(Store(m) + CoverageFlag(m), s) <==> Mentions(Store(m), s) {
      if CoverageFlag(m) == "" {
        assert Store(m) + CoverageFlag(m) == Store(m);
      } else {
        SuffixAddsNone(Store(m), CoverageFlag(m), s);
      }
    }
    var (a, b) := (DateMdArgs(m), DateMdSupplied(m));
    assert a[0] == b[0] && a[1] == b[1];
    assert ValueMentionsOnly(DATE_MD_SCRIPT, a[2].1) <==> ValueMentionsOnly(DATE_MD_SCRIPT, b[2].1);
    hide ValueMentionsOnly;
  }

  lemma {:induction false} ArgumentsAreNamed(m: Preflight)
    ensures AreNamed(MappingArgs(m)) && AreNamed(PriceArgs(m)) && AreNamed(DartArgs(m)) && AreNamed(IntakeArgs(m))
    ensures AreNamed(CombinedArgs(m)) && AreNamed(DateMdArgs(m)) && AreNamed(ScoutArgs(m))
  {
    hide IsFlag, Store, DateMd, PriceDir, DartDir, PriceJsonl, DartJsonl, CombinedJsonl, ScoutDir, CoverageFlag;
    FlagsOfPlans();
  }

  lemma {:induction false} FirstStepsOwnExactly(m: Preflight)
    ensures StepMentionsOwnOnly(MappingStep(m)) <==> ArgsMentionOnly(MAPPING_SCRIPT, MappingArgs(m))
    ensures StepMentionsOwnOnly(PriceStep(m)) <==> ArgsMentionOnly(PRICE_SCRIPT, PriceArgs(m))
    ensures StepMentionsOwnOnly(DartStep(m)) <==> ArgsMentionOnly(DART_SCRIPT, DartArgs(m))
  {
    hide IsCleanScript, ArgsMentionOnly, StepMentionsOwnOnly, AreNamed, MAPPING_SCRIPT, PRICE_SCRIPT, DART_SCRIPT, MappingArgs, PriceArgs, DartArgs,
         IsPlainLine, ScriptStep, ID_MAPPING, ID_PRICE, ID_DART, TITLE_MAPPING, TITLE_PRICE, TITLE_DART, JSON_FLAG, FORCE_FLAG;
    ScriptsAreClean();
    FlagsArePlain();
    ArgumentsAreNamed(m);
    ScriptStepOwnExactly(ID_MAPPING, TITLE_MAPPING, MAPPING_SCRIPT, MappingArgs(m), [JSON_FLAG]);
    ScriptStepOwnExactly(ID_PRICE, TITLE_PRICE, PRICE_SCRIPT, PriceArgs(m), [FORCE_FLAG, JSON_FLAG]);
    ScriptStepOwnExactly(ID_DART, TITLE_DART, DART_SCRIPT, DartArgs(m), [FORCE_FLAG, JSON_FLAG]);
  }

  lemma {:induction false} LaterStepsOwnExactly(m: Preflight)
    ensures StepMentionsOwnOnly(IntakeStep(m)) <==> ArgsMentionOnly(INTAKE_SCRIPT, IntakeArgs(m))
    ensures StepMentionsOwnOnly(CombinedStep(m)) <==> ArgsMentionOnly(COMBINED_SCRIPT, CombinedArgs(m))
  {
    hide IsCleanScript, ArgsMentionOnly, StepMentionsOwnOnly, AreNamed, INTAKE_SCRIPT, COMBINED_SCRIPT, IntakeArgs, CombinedArgs, IsPlainLine, ScriptStep,
         ID_INTAKE, ID_COMBINED, TITLE_INTAKE, TITLE_COMBINED, JSON_FLAG, VALIDATE_FLAG, FORCE_DATE_MD_FLAG, FORCE_SCOUT_FLAG;
    ScriptsAreClean();
    FlagsArePlain();
    ArgumentsAreNamed(m);
    ScriptStepOwnExactly(ID_INTAKE, TITLE_INTAKE, INTAKE_SCRIPT, IntakeArgs(m), [VALIDATE_FLAG, JSON_FLAG]);
    ScriptStepOwnExactly(ID_COMBINED, TITLE_COMBINED, COMBINED_SCRIPT, CombinedArgs(m), [FORCE_DATE_MD_FLAG, FORCE_SCOUT_FLAG, JSON_FLAG]);
  }

  lemma {:induction false} LastStepsOwnExactly(m: Preflight)
    ensures StepMentionsOwnOnly(DateMdStep(m)) <==> ArgsMentionOnly(DATE_MD_SCRIPT, DateMdSupplied(m))
    ensures StepMentionsOwnOnly(ScoutStep(m)) <==> ArgsMentionOnly(SCOUT_SCRIPT, ScoutArgs(m))
  {
    hide IsCleanScript, ArgsMentionOnly, StepMentionsOwnOnly, AreNamed, DATE_MD_SCRIPT, SCOUT_SCRIPT, DateMdArgs, DateMdSupplied, ScoutArgs, IsPlainLine,
         ScriptStep, ID_DATE_MD, ID_SCOUT, TITLE_DATE_MD, TITLE_SCOUT, JSON_FLAG, FORCE_FLAG, SCOPE_FLAG, COVERAGE_FLAG;
    ScriptsAreClean();
    FlagsArePlain();
    ArgumentsAreNamed(m);
    CoverageMentionsNone(m);
    ScriptStepOwnExactly(ID_DATE_MD, TITLE_DATE_MD, DATE_MD_SCRIPT, DateMdArgs(m), [JSON_FLAG]);
    ScriptStepOwnExactly(ID_SCOUT, TITLE_SCOUT, SCOUT_SCRIPT, ScoutArgs(m), ScoutFlags(m));
  }

  lemma {:induction false} CandidatesOwnExactly(m: Preflight)
    ensures (forall k | 0 <= k < |Candidates(m)| && Candidates(m)[k].0 :: StepMentionsOwnOnly(Candidates(m)[k].1)) <==> ValuesMentionOwnOnly(m)
  {
    hide StepMentionsOwnOnly, ArgsMentionOnly, MappingStep, PriceStep, DartStep, ConcatenateStep, IntakeStep, CombinedStep, DateMdStep, ScoutStep,
         MAPPING_SCRIPT, PRICE_SCRIPT, DART_SCRIPT, INTAKE_SCRIPT, COMBINED_SCRIPT, DATE_MD_SCRIPT, SCOUT_SCRIPT,
         MappingArgs, PriceArgs, DartArgs, IntakeArgs, CombinedArgs, DateMdSupplied, ScoutArgs;
    FirstStepsOwnExactly(m);
    LaterStepsOwnExactly(m);
    LastStepsOwnExactly(m);
    ConcatenateMentionsNone(m);
    var cs := Candidates(m);
    assert cs[0].1 == MappingStep(m) && cs[1].1 == PriceStep(m) && cs[2].1 == DartStep(m) && cs[3].1 == ConcatenateStep(m);
    assert cs[4].1 == IntakeStep(m) && cs[5].1 == CombinedStep(m) && cs[6].1 == DateMdStep(m) && cs[7].1 == ScoutStep(m);
  }

  /**
   In every generated plan each live line mentions its step's own script only, if and only if, for
   each planned script step, every script mentioned in a value the manifest supplies is that step's.
   */
  lemma {:induction false} OwnScriptsOnlyExactly(m: Preflight)
    ensures (forall i | 0 <= i < |Planned(Candidates(m))| :: StepMentionsOwnOnly(Planned(Candidates(m))[i])) <==> ValuesMentionOwnOnly(m)
  {
    hide StepMentionsOwnOnly, ValuesMentionOwnOnly, Candidates, Planned;
    PlannedAllExactly(Candidates(m), s => StepMentionsOwnOnly(s));
    CandidatesOwnExactly(m);
  }
}
