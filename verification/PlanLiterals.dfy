/**
 Facts about the fixed text of a plan, one literal at a time: scripts are script paths, and neither
 they nor flags nor notes contain a screened pair of characters.
 */
module PlanLiterals {
  import opened PyText
  import opened PlanValidator
  import opened PlanScripts
  import opened PlanGenerator

  lemma MappingScriptPath()
    ensures IsScriptPath(MAPPING_SCRIPT)
  {
    forall i | 4 <= i < |MAPPING_SCRIPT| - 3 ensures IsNameChar(MAPPING_SCRIPT[i]) {
      if i < 8 {} else if i < 16 {} else if i < 24 {} else {}
    }
  }

  lemma MappingScriptClean()
    ensures IsClean(MAPPING_SCRIPT)
  {
    forall i | 0 <= i < |MAPPING_SCRIPT| - 1 ensures !IsScreenedPair(MAPPING_SCRIPT[i], MAPPING_SCRIPT[i + 1]) {
      if i < 8 {} else if i < 16 {} else if i < 24 {} else {}
    }
  }

  lemma PriceScriptPath()
    ensures IsScriptPath(PRICE_SCRIPT)
  {
    forall i | 4 <= i < |PRICE_SCRIPT| - 3 ensures IsNameChar(PRICE_SCRIPT[i]) {
      if i < 8 {} else if i < 16 {} else if i < 24 {} else {}
    }
  }

  lemma PriceScriptClean()
    ensures IsClean(PRICE_SCRIPT)
  {
    forall i | 0 <= i < |PRICE_SCRIPT| - 1 ensures !IsScreenedPair(PRICE_SCRIPT[i], PRICE_SCRIPT[i + 1]) {
      if i < 8 {} else if i < 16 {} else if i < 24 {} else {}
    }
  }

  lemma DartScriptPath()
    ensures IsScriptPath(DART_SCRIPT)
  {
    forall i | 4 <= i < |DART_SCRIPT| - 3 ensures IsNameChar(DART_SCRIPT[i]) {
      if i < 8 {} else if i < 16 {} else if i < 24 {} else {}
    }
  }

  lemma DartScriptClean()
    ensures IsClean(DART_SCRIPT)
  {
    forall i | 0 <= i < |DART_SCRIPT| - 1 ensures !IsScreenedPair(DART_SCRIPT[i], DART_SCRIPT[i + 1]) {
      if i < 8 {} else if i < 16 {} else if i < 24 {} else {}
    }
  }

  lemma IntakeScriptPath()
    ensures IsScriptPath(INTAKE_SCRIPT)
  {
    forall i | 4 <= i < |INTAKE_SCRIPT| - 3 ensures IsNameChar(INTAKE_SCRIPT[i]) {
      if i < 8 {} else if i < 16 {} else if i < 24 {} else {}
    }
  }

  lemma IntakeScriptClean()
    ensures IsClean(INTAKE_SCRIPT)
  {
    forall i | 0 <= i < |INTAKE_SCRIPT| - 1 ensures !IsScreenedPair(INTAKE_SCRIPT[i], INTAKE_SCRIPT[i + 1]) {
      if i < 8 {} else if i < 16 {} else if i < 24 {} else {}
    }
  }

  lemma CombinedScriptPath()
    ensures IsScriptPath(COMBINED_SCRIPT)
  {
    forall i | 4 <= i < |COMBINED_SCRIPT| - 3 ensures IsNameChar(COMBINED_SCRIPT[i]) {
      if i < 8 {} else if i < 16 {} else if i < 24 {} else if i < 32 {} else if i < 40 {} else {}
    }
  }

  const COMBINED_START := "ops/build_kr_real_combined"
  const COMBINED_END := "_context_smoke.py"

  lemma CombinedStartClean()
    ensures IsClean(COMBINED_START)
  {
    forall i | 0 <= i < |COMBINED_START| - 1 ensures !IsScreenedPair(COMBINED_START[i], COMBINED_START[i + 1]) {
      if i < 8 {} else if i < 16 {} else {}
    }
  }

  lemma CombinedEndClean()
    ensures IsClean(COMBINED_END)
  {
    forall i | 0 <= i < |COMBINED_END| - 1 ensures !IsScreenedPair(COMBINED_END[i], COMBINED_END[i + 1]) {
      if i < 8 {} else {}
    }
  }

  lemma CombinedPieces()
    ensures COMBINED_SCRIPT == COMBINED_START + COMBINED_END
    ensures |COMBINED_START| == 26 && COMBINED_END != "" && COMBINED_END[0] == '_'
  {
  }

  lemma {:induction false} CombinedScriptClean()
    ensures IsClean(COMBINED_SCRIPT)
  {
    hide IsClean, COMBINED_SCRIPT, COMBINED_START, COMBINED_END;
    CombinedPieces();
    CombinedStartClean();
    CombinedEndClean();
    CleanJoin(COMBINED_START, COMBINED_END);
  }

  lemma DateMdScriptPath()
    ensures IsScriptPath(DATE_MD_SCRIPT)
  {
    forall i | 4 <= i < |DATE_MD_SCRIPT| - 3 ensures IsNameChar(DATE_MD_SCRIPT[i]) {
      if i < 8 {} else if i < 16 {} else {}
    }
  }

  lemma DateMdScriptClean()
    ensures IsClean(DATE_MD_SCRIPT)
  {
    forall i | 0 <= i < |DATE_MD_SCRIPT| - 1 ensures !IsScreenedPair(DATE_MD_SCRIPT[i], DATE_MD_SCRIPT[i + 1]) {
      if i < 8 {} else if i < 16 {} else {}
    }
  }

  lemma ScoutScriptPath()
    ensures IsScriptPath(SCOUT_SCRIPT)
  {
    forall i | 4 <= i < |SCOUT_SCRIPT| - 3 ensures IsNameChar(SCOUT_SCRIPT[i]) {
      if i < 8 {} else if i < 16 {} else if i < 24 {} else {}
    }
  }

  lemma ScoutScriptClean()
    ensures IsClean(SCOUT_SCRIPT)
  {
    forall i | 0 <= i < |SCOUT_SCRIPT| - 1 ensures !IsScreenedPair(SCOUT_SCRIPT[i], SCOUT_SCRIPT[i + 1]) {
      if i < 8 {} else if i < 16 {} else if i < 24 {} else {}
    }
  }

  /** A script path that passes the screens. */
  predicate IsCleanScript(s: string) {
    IsScriptPath(s) && IsClean(s)
  }

  lemma {:induction false} ScriptsAreClean()
    ensures IsCleanScript(MAPPING_SCRIPT) && IsCleanScript(PRICE_SCRIPT) && IsCleanScript(DART_SCRIPT) && IsCleanScript(INTAKE_SCRIPT)
    ensures IsCleanScript(COMBINED_SCRIPT) && IsCleanScript(DATE_MD_SCRIPT) && IsCleanScript(SCOUT_SCRIPT)
  {
    hide IsScriptPath, IsClean;
    MappingScriptPath();
    MappingScriptClean();
    PriceScriptPath();
    PriceScriptClean();
    DartScriptPath();
    DartScriptClean();
    IntakeScriptPath();
    IntakeScriptClean();
    CombinedScriptPath();
    CombinedScriptClean();
    DateMdScriptPath();
    DateMdScriptClean();
    ScoutScriptPath();
    ScoutScriptClean();
  }

  lemma PythonIsClean()
    ensures IsClean(PYTHON)
  {
    forall i | 0 <= i < |PYTHON| - 1 ensures !IsScreenedPair(PYTHON[i], PYTHON[i + 1]) {
      if i < 8 {} else if i < 16 {} else if i < 24 {} else {}
    }
  }

  lemma PythonPrefix()
    ensures PYTHON != "" && PYTHON[0] == 'P' && PYTHON[|PYTHON| - 1] == ' ' && NoSlash(PYTHON) && IsClean(PYTHON)
  {
    hide IsClean;
    PythonIsClean();
    forall i | 0 <= i < |PYTHON| ensures PYTHON[i] != '/' {
      if i < 8 {} else if i < 16 {} else if i < 24 {} else {}
    }
  }

  lemma CleanEnd()
    ensures IsClean(" \\") && |" \\"| == 2 && " \\"[0] == ' ' && " \\"[1] == '\\'
  {
  }

  lemma NotSpaces()
    ensures !IsSpace('P') && !IsSpace('\\') && !IsSpace('#') && !IsSpace('-')
  {
  }

  predicate IsPlainLine(s: string) {
    IsClean(s) && NoScriptSlash(s)
  }

  lemma PlainIsBoth(s: string)
    requires IsPlainLine(s)
    ensures IsClean(s) && NoScriptSlash(s)
  {
    hide IsClean, NoScriptSlash;
  }

  lemma JsonFlagIsPlain()
    ensures IsPlainLine(JSON_FLAG)
  {
    forall i | 0 <= i < |JSON_FLAG| - 1 ensures !IsScreenedPair(JSON_FLAG[i], JSON_FLAG[i + 1]) && !(JSON_FLAG[i] == 's' && JSON_FLAG[i + 1] == '/') {
      if i < 6 {} else {}
    }
  }

  lemma ForceFlagIsPlain()
    ensures IsPlainLine(FORCE_FLAG)
  {
    forall i | 0 <= i < |FORCE_FLAG| - 1 ensures !IsScreenedPair(FORCE_FLAG[i], FORCE_FLAG[i + 1]) && !(FORCE_FLAG[i] == 's' && FORCE_FLAG[i + 1] == '/') {
      if i < 6 {} else {}
    }
  }

  lemma ValidateFlagIsPlain()
    ensures IsPlainLine(VALIDATE_FLAG)
  {
    forall i | 0 <= i < |VALIDATE_FLAG| - 1 ensures !IsScreenedPair(VALIDATE_FLAG[i], VALIDATE_FLAG[i + 1]) && !(VALIDATE_FLAG[i] == 's' && VALIDATE_FLAG[i + 1] == '/') {
      if i < 6 {} else if i < 12 {} else if i < 18 {} else {}
    }
  }

  lemma ForceDateMdFlagIsPlain()
    ensures IsPlainLine(FORCE_DATE_MD_FLAG)
  {
    forall i | 0 <= i < |FORCE_DATE_MD_FLAG| - 1 ensures !IsScreenedPair(FORCE_DATE_MD_FLAG[i], FORCE_DATE_MD_FLAG[i + 1]) && !(FORCE_DATE_MD_FLAG[i] == 's' && FORCE_DATE_MD_FLAG[i + 1] == '/') {
      if i < 6 {} else if i < 12 {} else if i < 18 {} else {}
    }
  }

  lemma ForceScoutFlagIsPlain()
    ensures IsPlainLine(FORCE_SCOUT_FLAG)
  {
    forall i | 0 <= i < |FORCE_SCOUT_FLAG| - 1 ensures !IsScreenedPair(FORCE_SCOUT_FLAG[i], FORCE_SCOUT_FLAG[i + 1]) && !(FORCE_SCOUT_FLAG[i] == 's' && FORCE_SCOUT_FLAG[i + 1] == '/') {
      if i < 6 {} else if i < 12 {} else {}
    }
  }

  lemma ScopeFlagIsPlain()
    ensures IsPlainLine(SCOPE_FLAG)
  {
    forall i | 0 <= i < |SCOPE_FLAG| - 1 ensures !IsScreenedPair(SCOPE_FLAG[i], SCOPE_FLAG[i + 1]) && !(SCOPE_FLAG[i] == 's' && SCOPE_FLAG[i + 1] == '/') {
      if i < 6 {} else if i < 12 {} else if i < 18 {} else {}
    }
  }

  lemma CoverageFlagIsPlain()
    ensures IsPlainLine(COVERAGE_FLAG)
  {
    forall i | 0 <= i < |COVERAGE_FLAG| - 1 ensures !IsScreenedPair(COVERAGE_FLAG[i], COVERAGE_FLAG[i + 1]) && !(COVERAGE_FLAG[i] == 's' && COVERAGE_FLAG[i + 1] == '/') {
      if i < 6 {} else if i < 12 {} else if i < 18 {} else if i < 24 {} else {}
    }
  }

  lemma {:induction false} FlagsArePlain()
    ensures IsPlainLine(JSON_FLAG) && IsPlainLine(FORCE_FLAG) && IsPlainLine(VALIDATE_FLAG) && IsPlainLine(FORCE_DATE_MD_FLAG)
    ensures IsPlainLine(FORCE_SCOUT_FLAG) && IsPlainLine(SCOPE_FLAG) && IsPlainLine(COVERAGE_FLAG)
  {
    hide IsPlainLine;
    JsonFlagIsPlain();
    ForceFlagIsPlain();
    ValidateFlagIsPlain();
    ForceDateMdFlagIsPlain();
    ForceScoutFlagIsPlain();
    ScopeFlagIsPlain();
    CoverageFlagIsPlain();
  }

  lemma PlainJoin(a: string, b: string)
    requires IsPlainLine(a) && IsPlainLine(b) && a != "" && b != ""
    requires a[|a| - 1] == ' ' || b[0] == ' '
    ensures IsPlainLine(a + b)
  {
    hide IsClean;
    CleanJoin(a, b);
  }

  const NOTE_START := "# Concatenate FRED + PRICE"
  const NOTE_MIDDLE := "+ DART JSONL explicitly"
  const NOTE_END := "(operator-run):"

  lemma NoteStartIsPlain()
    ensures IsPlainLine(NOTE_START)
  {
    forall i | 0 <= i < |NOTE_START| - 1 ensures !IsScreenedPair(NOTE_START[i], NOTE_START[i + 1]) && !(NOTE_START[i] == 's' && NOTE_START[i + 1] == '/') {
      if i < 6 {} else if i < 12 {} else if i < 18 {} else if i < 24 {} else {}
    }
  }

  lemma NoteMiddleIsPlain()
    ensures IsPlainLine(NOTE_MIDDLE)
  {
    forall i | 0 <= i < |NOTE_MIDDLE| - 1 ensures !IsScreenedPair(NOTE_MIDDLE[i], NOTE_MIDDLE[i + 1]) && !(NOTE_MIDDLE[i] == 's' && NOTE_MIDDLE[i + 1] == '/') {
      if i < 6 {} else if i < 12 {} else if i < 18 {} else {}
    }
  }

  lemma NoteEndIsPlain()
    ensures IsPlainLine(NOTE_END)
  {
    forall i | 0 <= i < |NOTE_END| - 1 ensures !IsScreenedPair(NOTE_END[i], NOTE_END[i + 1]) && !(NOTE_END[i] == 's' && NOTE_END[i + 1] == '/') {
      if i < 6 {} else if i < 12 {} else {}
    }
  }

  lemma SpaceIsPlain()
    ensures IsPlainLine(" ")
  {
  }

  lemma NotePieces()
    ensures NOTE_START != "" && NOTE_MIDDLE != "" && NOTE_END != ""
    ensures CAT_NOTE == NOTE_START + " " + NOTE_MIDDLE + " " + NOTE_END
  {
  }

  lemma {:induction false} FixedNote()
    ensures IsPlainLine(CAT_NOTE)
  {
    hide IsPlainLine, NOTE_START, NOTE_MIDDLE, NOTE_END, CAT_NOTE;
    NotePieces();
    NoteStartIsPlain();
    NoteMiddleIsPlain();
    NoteEndIsPlain();
    SpaceIsPlain();
    PlainJoin(NOTE_START, " ");
    PlainJoin(NOTE_START + " ", NOTE_MIDDLE);
    PlainJoin(NOTE_START + " " + NOTE_MIDDLE, " ");
    PlainJoin(NOTE_START + " " + NOTE_MIDDLE + " ", NOTE_END);
  }

  lemma Ends()
    ensures IsPlainLine("  ") && IsPlainLine(" ") && IsPlainLine(" \\")
  {
  }

  /** The name of an argument: plain, slash-free, starting with a dash. */
  predicate IsFlag(flag: string) {
    flag != "" && flag[0] == '-' && IsClean(flag) && NoSlash(flag)
  }

  lemma FlagIsPlain(flag: string)
    requires IsFlag(flag)
    ensures IsPlainLine(flag)
  {
    hide IsClean;
  }

  lemma UniverseFlag()
    ensures IsFlag("--universe")
  {
    var f := "--universe";
    forall i | 0 <= i < |f| - 1 ensures !IsScreenedPair(f[i], f[i + 1]) && f[i] != '/' {
      if i < 6 {} else {}
    }
    assert f[|f| - 1] != '/';
  }

  lemma ProviderMappingFlag()
    ensures IsFlag("--provider-mapping")
  {
    var f := "--provider-mapping";
    forall i | 0 <= i < |f| - 1 ensures !IsScreenedPair(f[i], f[i + 1]) && f[i] != '/' {
      if i < 6 {} else if i < 12 {} else {}
    }
    assert f[|f| - 1] != '/';
  }

  lemma StoreFlag()
    ensures IsFlag("--store")
  {
    var f := "--store";
    forall i | 0 <= i < |f| - 1 ensures !IsScreenedPair(f[i], f[i + 1]) && f[i] != '/' {
      if i < 6 {} else {}
    }
    assert f[|f| - 1] != '/';
  }

  lemma SnapshotDirFlag()
    ensures IsFlag("--snapshot-dir")
  {
    var f := "--snapshot-dir";
    forall i | 0 <= i < |f| - 1 ensures !IsScreenedPair(f[i], f[i + 1]) && f[i] != '/' {
      if i < 6 {} else if i < 12 {} else {}
    }
    assert f[|f| - 1] != '/';
  }

  lemma OutJsonlFlag()
    ensures IsFlag("--out-jsonl")
  {
    var f := "--out-jsonl";
    forall i | 0 <= i < |f| - 1 ensures !IsScreenedPair(f[i], f[i + 1]) && f[i] != '/' {
      if i < 6 {} else {}
    }
    assert f[|f| - 1] != '/';
  }

  lemma SourceJsonlFlag()
    ensures IsFlag("--source-jsonl")
  {
    var f := "--source-jsonl";
    forall i | 0 <= i < |f| - 1 ensures !IsScreenedPair(f[i], f[i + 1]) && f[i] != '/' {
      if i < 6 {} else if i < 12 {} else {}
    }
    assert f[|f| - 1] != '/';
  }

  lemma DateMdOutFlag()
    ensures IsFlag("--date-md-out")
  {
    var f := "--date-md-out";
    forall i | 0 <= i < |f| - 1 ensures !IsScreenedPair(f[i], f[i + 1]) && f[i] != '/' {
      if i < 6 {} else if i < 12 {} else {}
    }
    assert f[|f| - 1] != '/';
  }

  lemma ScoutOutDirFlag()
    ensures IsFlag("--scout-out-dir")
  {
    var f := "--scout-out-dir";
    forall i | 0 <= i < |f| - 1 ensures !IsScreenedPair(f[i], f[i + 1]) && f[i] != '/' {
      if i < 6 {} else if i < 12 {} else {}
    }
    assert f[|f| - 1] != '/';
  }

  lemma ContextBudgetProfileFlag()
    ensures IsFlag("--context-budget-profile")
  {
    var f := "--context-budget-profile";
    forall i | 0 <= i < |f| - 1 ensures !IsScreenedPair(f[i], f[i + 1]) && f[i] != '/' {
      if i < 6 {} else if i < 12 {} else if i < 18 {} else {}
    }
    assert f[|f| - 1] != '/';
  }

  lemma DateMdFlag()
    ensures IsFlag("--date-md")
  {
    var f := "--date-md";
    forall i | 0 <= i < |f| - 1 ensures !IsScreenedPair(f[i], f[i + 1]) && f[i] != '/' {
      if i < 6 {} else {}
    }
    assert f[|f| - 1] != '/';
  }

  lemma OutDirFlag()
    ensures IsFlag("--out-dir")
  {
    var f := "--out-dir";
    forall i | 0 <= i < |f| - 1 ensures !IsScreenedPair(f[i], f[i + 1]) && f[i] != '/' {
      if i < 6 {} else {}
    }
    assert f[|f| - 1] != '/';
  }

  lemma {:induction false} FlagsOfPlans()
    ensures IsFlag("--universe")
    ensures IsFlag("--provider-mapping")
    ensures IsFlag("--store")
    ensures IsFlag("--snapshot-dir")
    ensures IsFlag("--out-jsonl")
    ensures IsFlag("--source-jsonl")
    ensures IsFlag("--date-md-out")
    ensures IsFlag("--scout-out-dir")
    ensures IsFlag("--context-budget-profile")
    ensures IsFlag("--date-md")
    ensures IsFlag("--out-dir")
  {
    hide IsFlag;
    UniverseFlag();
    ProviderMappingFlag();
    StoreFlag();
    SnapshotDirFlag();
    OutJsonlFlag();
    SourceJsonlFlag();
    DateMdOutFlag();
    ScoutOutDirFlag();
    ContextBudgetProfileFlag();
    DateMdFlag();
    OutDirFlag();
  }

  lemma CoverageHasNoSlash(m: Preflight)
    ensures CoverageFlag(m) == "" || (CoverageFlag(m)[0] == ' ' && NoSlash(CoverageFlag(m)))
  {
    var f := CoverageFlag(m);
    forall i | 0 <= i < |f| ensures f[i] != '/' {
      if i < 8 {} else if i < 16 {} else if i < 24 {} else {}
    }
  }
}
