/** Which manifest value stands behind which flag of a follow-up plan, and how the steps' files connect. */
module PlanFlags {
  import opened Wrappers
  import opened PlanValidator
  import opened PlanGenerator

  /** The files and directories a plan works on, each named by the manifest or by its fallback. */
  datatype Files = Files(
    day: string, dir: string, priceDir: string, dartDir: string, scoutDir: string, store: string, dateMd: string,
    combined: string, price: string, dart: string)

  /** A text the manifest gives; an empty one counts as not given. */
  predicate IsGiven(text: Option<string>) {
    text.Some? && text.value != ""
  }

  /** What the manifest's files are: the given value where there is one, and a name under the day's directory otherwise. */
  predicate AreFilesOf(f: Files, m: Preflight) {
    && (if IsGiven(m.day) then Some(f.day) == m.day else f.day == "YYYY-MM-DD")
    && (if IsGiven(m.combinedOutDir) then Some(f.dir) == m.combinedOutDir else f.dir == "runtime/research/" + f.day)
    && (if IsGiven(m.priceSnapshotDir) then Some(f.priceDir) == m.priceSnapshotDir else f.priceDir == f.dir + "/sources/price")
    && (if IsGiven(m.dartSnapshotDir) then Some(f.dartDir) == m.dartSnapshotDir else f.dartDir == f.dir + "/sources/dart")
    && (if IsGiven(m.scoutOutDir) then Some(f.scoutDir) == m.scoutOutDir else f.scoutDir == f.dir + "/scout")
    && (if m.store.Some? then f.store == m.store.value else f.store == f.dir + "/date_id_sources.sqlite3")
    && (if m.dateMd.Some? then f.dateMd == m.dateMd.value else f.dateMd == f.dir + "/Date.md")
    && (if m.combinedJsonl.Some? then f.combined == m.combinedJsonl.value else f.combined == "/tmp/autostock_kr_combined_" + f.day + ".jsonl")
    && (if m.priceJsonl.Some? then f.price == m.priceJsonl.value else f.price == "/tmp/autostock_kr_price_" + f.day + ".jsonl")
    && (if m.dartJsonl.Some? then f.dart == m.dartJsonl.value else f.dart == "/tmp/autostock_kr_dart_" + f.day + ".jsonl")
  }

  /** One line of the step gives this flag this value. */
  predicate Passes(s: FollowupStep, flag: string, value: string) {
    "  " + flag + " " + value + " \\" in s.lines
  }

  lemma {:induction false} StepPasses(s: FollowupStep, script: string, args: seq<(string, string)>, flags: seq<string>, k: nat)
    requires k < |args| && s.lines == [Head(script)] + ArgLines(args) + flags
    ensures Passes(s, args[k].0, args[k].1)
    ensures |s.lines| == 1 + |args| + |flags|
  {
    hide Head;
    assert s.lines[k + 1] == ArgLines(args)[k] == Arg(args[k].0, args[k].1);
  }

  lemma FilesOf(m: Preflight, f: Files)
    requires AreFilesOf(f, m)
    ensures f == Files(Day(m), CombinedDir(m), PriceDir(m), DartDir(m), ScoutDir(m), Store(m), DateMd(m), CombinedJsonl(m), PriceJsonl(m), DartJsonl(m))
  {
  }

  /** Every manifest settles its files. */
  lemma SettledFiles(m: Preflight) returns (f: Files)
    ensures AreFilesOf(f, m)
  {
    f := Files(Day(m), CombinedDir(m), PriceDir(m), DartDir(m), ScoutDir(m), Store(m), DateMd(m), CombinedJsonl(m), PriceJsonl(m), DartJsonl(m));
  }

  lemma {:induction false} MappingFlags(m: Preflight)
    ensures var s := MappingStep(m);
      Passes(s, "--universe", m.universe) && Passes(s, "--provider-mapping", m.providerMapping) && |s.lines| == 4
  {
    hide Passes, ID_MAPPING, TITLE_MAPPING, MAPPING_SCRIPT, JSON_FLAG, ArgLines, Head;
    StepPasses(MappingStep(m), MAPPING_SCRIPT, MappingArgs(m), [JSON_FLAG], 0);
    StepPasses(MappingStep(m), MAPPING_SCRIPT, MappingArgs(m), [JSON_FLAG], 1);
  }

  lemma {:induction false} PriceFlags(m: Preflight, f: Files)
    requires AreFilesOf(f, m)
    ensures var s := PriceStep(m);
      && Passes(s, "--universe", m.universe) && Passes(s, "--provider-mapping", m.providerMapping) && Passes(s, "--store", f.store)
      && Passes(s, "--snapshot-dir", f.priceDir) && Passes(s, "--out-jsonl", f.price) && |s.lines| == 8
  {
    hide Passes, AreFilesOf, ID_PRICE, TITLE_PRICE, PRICE_SCRIPT, JSON_FLAG, FORCE_FLAG, Store, PriceDir, PriceJsonl, ArgLines, Head;
    FilesOf(m, f);
    forall k | 0 <= k < 5 ensures Passes(PriceStep(m), PriceArgs(m)[k].0, PriceArgs(m)[k].1) && |PriceStep(m).lines| == 8 {
      StepPasses(PriceStep(m), PRICE_SCRIPT, PriceArgs(m), [FORCE_FLAG, JSON_FLAG], k);
    }
    assert PriceArgs(m)[0].0 == "--universe";
    assert PriceArgs(m)[1].0 == "--provider-mapping";
    assert PriceArgs(m)[2].0 == "--store";
    assert PriceArgs(m)[3].0 == "--snapshot-dir";
    assert PriceArgs(m)[4].0 == "--out-jsonl";
  }

  lemma {:induction false} DartFlags(m: Preflight, f: Files)
    requires AreFilesOf(f, m)
    ensures var s := DartStep(m);
      && Passes(s, "--universe", m.universe) && Passes(s, "--provider-mapping", m.providerMapping) && Passes(s, "--store", f.store)
      && Passes(s, "--snapshot-dir", f.dartDir) && Passes(s, "--out-jsonl", f.dart) && |s.lines| == 8
  {
    hide Passes, AreFilesOf, ID_DART, TITLE_DART, DART_SCRIPT, JSON_FLAG, FORCE_FLAG, Store, DartDir, DartJsonl, ArgLines, Head;
    FilesOf(m, f);
    forall k | 0 <= k < 5 ensures Passes(DartStep(m), DartArgs(m)[k].0, DartArgs(m)[k].1) && |DartStep(m).lines| == 8 {
      StepPasses(DartStep(m), DART_SCRIPT, DartArgs(m), [FORCE_FLAG, JSON_FLAG], k);
    }
    assert DartArgs(m)[0].0 == "--universe";
    assert DartArgs(m)[1].0 == "--provider-mapping";
    assert DartArgs(m)[2].0 == "--store";
    assert DartArgs(m)[3].0 == "--snapshot-dir";
    assert DartArgs(m)[4].0 == "--out-jsonl";
  }

  lemma {:induction false} IntakeFlags(m: Preflight, f: Files)
    requires AreFilesOf(f, m)
    ensures var s := IntakeStep(m);
      Passes(s, "--source-jsonl", f.combined) && "  --validate-only \\" in s.lines && |s.lines| == 4
  {
    hide Passes, AreFilesOf, ID_INTAKE, TITLE_INTAKE, INTAKE_SCRIPT, JSON_FLAG, CombinedJsonl, ArgLines, Head;
    FilesOf(m, f);
    StepPasses(IntakeStep(m), INTAKE_SCRIPT, IntakeArgs(m), [VALIDATE_FLAG, JSON_FLAG], 0);
    assert IntakeStep(m).lines[2] == VALIDATE_FLAG;
  }

  lemma {:induction false} CombinedFlags(m: Preflight, f: Files)
    requires AreFilesOf(f, m)
    ensures var s := CombinedStep(m);
      && Passes(s, "--universe", m.universe) && Passes(s, "--source-jsonl", f.combined) && Passes(s, "--store", f.store)
      && Passes(s, "--date-md-out", f.dateMd) && Passes(s, "--scout-out-dir", f.scoutDir)
      && Passes(s, "--context-budget-profile", m.budgetProfile) && |s.lines| == 10
  {
    hide Passes, AreFilesOf, ID_COMBINED, TITLE_COMBINED, COMBINED_SCRIPT, JSON_FLAG, FORCE_DATE_MD_FLAG, FORCE_SCOUT_FLAG, CombinedJsonl,
         Store, DateMd, ScoutDir, ArgLines, Head;
    FilesOf(m, f);
    forall k | 0 <= k < 6 ensures Passes(CombinedStep(m), CombinedArgs(m)[k].0, CombinedArgs(m)[k].1) && |CombinedStep(m).lines| == 10 {
      StepPasses(CombinedStep(m), COMBINED_SCRIPT, CombinedArgs(m), [FORCE_DATE_MD_FLAG, FORCE_SCOUT_FLAG, JSON_FLAG], k);
    }
    assert CombinedArgs(m)[0].0 == "--universe";
    assert CombinedArgs(m)[1].0 == "--source-jsonl";
    assert CombinedArgs(m)[2].0 == "--store";
    assert CombinedArgs(m)[3].0 == "--date-md-out";
    assert CombinedArgs(m)[4].0 == "--scout-out-dir";
    assert CombinedArgs(m)[5].0 == "--context-budget-profile";
  }

  /** The coverage flag follows the store on a line of its own inside the same text. */
  lemma {:induction false} DateMdFlags(m: Preflight, f: Files)
    requires AreFilesOf(f, m)
    ensures var s := DateMdStep(m);
      && Passes(s, "--universe", m.universe) && Passes(s, "--date-md", f.dateMd)
      && Passes(s, "--store", f.store + if m.requireCoverage then " \\\n  --require-symbol-coverage" else "") && |s.lines| == 5
  {
    hide Passes, AreFilesOf, ID_DATE_MD, TITLE_DATE_MD, DATE_MD_SCRIPT, JSON_FLAG, Store, DateMd, ArgLines, Head;
    FilesOf(m, f);
    forall k | 0 <= k < 3 ensures Passes(DateMdStep(m), DateMdArgs(m)[k].0, DateMdArgs(m)[k].1) && |DateMdStep(m).lines| == 5 {
      StepPasses(DateMdStep(m), DATE_MD_SCRIPT, DateMdArgs(m), [JSON_FLAG], k);
    }
    assert DateMdArgs(m)[0].0 == "--universe";
    assert DateMdArgs(m)[1].0 == "--date-md";
    assert DateMdArgs(m)[2].0 == "--store";
  }

  lemma {:induction false} ScoutFlagsOf(m: Preflight, f: Files)
    requires AreFilesOf(f, m)
    ensures var s := ScoutStep(m);
      && Passes(s, "--universe", m.universe) && Passes(s, "--date-md", f.dateMd) && Passes(s, "--store", f.store)
      && Passes(s, "--out-dir", f.scoutDir) && |s.lines| == if m.requireCoverage then 9 else 8
  {
    hide Passes, AreFilesOf, ID_SCOUT, TITLE_SCOUT, SCOUT_SCRIPT, JSON_FLAG, FORCE_FLAG, SCOPE_FLAG, COVERAGE_FLAG, Store, DateMd, ScoutDir,
         ArgLines, Head;
    FilesOf(m, f);
    forall k | 0 <= k < 4
      ensures Passes(ScoutStep(m), ScoutArgs(m)[k].0, ScoutArgs(m)[k].1) && |ScoutStep(m).lines| == if m.requireCoverage then 9 else 8
    {
      StepPasses(ScoutStep(m), SCOUT_SCRIPT, ScoutArgs(m), ScoutFlags(m), k);
    }
    assert ScoutArgs(m)[0].0 == "--universe";
    assert ScoutArgs(m)[1].0 == "--date-md";
    assert ScoutArgs(m)[2].0 == "--store";
    assert ScoutArgs(m)[3].0 == "--out-dir";
  }

  /**
   The steps connect: what the price and dart steps write is what the operator concatenates, the
   result is what both intake steps read, the combined step writes the Date.md and fills the store
   that the later steps read, and the packet goes where the combined step's does.
   */
  lemma {:induction false} StepsConnect(m: Preflight, f: Files)
    requires AreFilesOf(f, m)
    ensures Passes(PriceStep(m), "--out-jsonl", f.price) && Passes(DartStep(m), "--out-jsonl", f.dart)
    ensures ConcatenateStep(m).lines[1] == "# cat /tmp/autostock_fred_" + f.day + ".jsonl " + f.price + " " + f.dart + " > " + f.combined
    ensures Passes(IntakeStep(m), "--source-jsonl", f.combined) && Passes(CombinedStep(m), "--source-jsonl", f.combined)
    ensures Passes(PriceStep(m), "--store", f.store) && Passes(DartStep(m), "--store", f.store)
    ensures Passes(CombinedStep(m), "--store", f.store) && Passes(ScoutStep(m), "--store", f.store)
    ensures Passes(CombinedStep(m), "--date-md-out", f.dateMd) && Passes(DateMdStep(m), "--date-md", f.dateMd)
    ensures Passes(ScoutStep(m), "--date-md", f.dateMd)
    ensures Passes(CombinedStep(m), "--scout-out-dir", f.scoutDir) && Passes(ScoutStep(m), "--out-dir", f.scoutDir)
  {
    hide Passes, AreFilesOf, PriceStep, DartStep, IntakeStep, CombinedStep, DateMdStep, ScoutStep, Day, PriceJsonl, DartJsonl, CombinedJsonl,
         CAT_NOTE, TITLE_CONCATENATE, ID_CONCATENATE;
    FilesOf(m, f);
    PriceFlags(m, f);
    DartFlags(m, f);
    IntakeFlags(m, f);
    CombinedFlags(m, f);
    DateMdFlags(m, f);
    ScoutFlagsOf(m, f);
  }

  lemma {:induction false} PlannedAre(cs: seq<(bool, FollowupStep)>, s: FollowupStep)
    ensures s in Planned(cs) <==> (true, s) in cs
  {
    if cs != [] {
      var init, last := cs[..|cs| - 1], cs[|cs| - 1];
      assert cs == init + [last];
      PlannedAre(init, s);
    }
  }

  /** A step is planned exactly when what it would make is not given. */
  lemma {:induction false} PlannedExactly(m: Preflight, s: FollowupStep)
    ensures s in Planned(Candidates(m)) <==>
      || s == MappingStep(m) || (s == PriceStep(m) && m.priceJsonl.None?) || (s == DartStep(m) && m.dartJsonl.None?)
      || (s == ConcatenateStep(m) && m.combinedJsonl.None?)
      || s == IntakeStep(m) || s == CombinedStep(m) || s == DateMdStep(m) || s == ScoutStep(m)
  {
    hide MappingStep, PriceStep, DartStep, ConcatenateStep, IntakeStep, CombinedStep, DateMdStep, ScoutStep, Planned;
    var cs := Candidates(m);
    PlannedAre(cs, s);
    assert forall k | 0 <= k < 8 :: cs[k] in cs;
  }
}
