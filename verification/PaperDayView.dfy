/** The paper-day verdict over what summary and envelope say themselves, field by field. */
module PaperDayView {
  import opened Wrappers
  import opened PyJson
  import opened PaperEvidence
  import opened PaperDay
  import opened ArgRedaction

  /** What the two files say under a key: the envelope's value, or else the summary's. */
  function View(summary: Option<Fields>, envelope: Option<Fields>, key: string): Option<Json> {
    if envelope.Some? && key in envelope.value then Some(envelope.value[key])
    else if summary.Some? && key in summary.value then Some(summary.value[key])
    else None
  }

  function Look(i: Inputs, key: string): Option<Json> {
    View(i.summary, i.envelope, key)
  }

  /** The overlaid dictionary holds exactly what the two files say. */
  lemma {:induction false} MergedIsView(i: Inputs, key: string)
    ensures key in Merged(i) <==> Look(i, key).Some?
    ensures key in Merged(i) ==> Merged(i)[key] == Look(i, key).value
  {
  }

  // ------------------------------------------------------------- run identity

  /** Summary and envelope both give a value under the key, and the values differ. */
  predicate Differ(i: Inputs, key: string) {
    && i.summary.Some? && i.envelope.Some? && key in i.summary.value && key in i.envelope.value
    && !i.summary.value[key].Null? && !i.envelope.value[key].Null?
    && !PyEq(i.summary.value[key], i.envelope.value[key])
  }

  /** The envelope's capture block names another run than the summary does. */
  predicate CapturedOther(i: Inputs) {
    && i.summary.Some? && i.envelope.Some? && "run_id" in i.summary.value && "_envelope_capture" in i.envelope.value
    && var capture := i.envelope.value["_envelope_capture"];
       && capture.Obj? && "run_id" in capture.fields
       && !capture.fields["run_id"].Null? && !i.summary.value["run_id"].Null?
       && !PyEq(capture.fields["run_id"], i.summary.value["run_id"])
  }

  predicate NamesOtherRun(i: Inputs) {
    Differ(i, "run_id") || Differ(i, "session_date") || Differ(i, "symbol") || CapturedOther(i)
  }

  lemma IdentityNames()
    ensures RUN_ID == "run_id" && CAPTURE == "_envelope_capture" && IDENTITY_FIELDS == ["run_id", "session_date", "symbol"]
  {
  }

  lemma {:induction false} WrongRunExactly(i: Inputs)
    ensures IsWrongRun(OrEmpty(i.summary), OrEmpty(i.envelope)) <==> NamesOtherRun(i)
  {
    hide PyEq, IDENTITY_FIELDS, RUN_ID, CAPTURE;
    IdentityNames();
    var s, e := OrEmpty(i.summary), OrEmpty(i.envelope);
    var names := IDENTITY_FIELDS;
    assert names[0] in names && names[1] in names && names[2] in names;
    forall f ensures Contradicts(s, e, f) <==> Differ(i, f) {}
  }

  // ------------------------------------------------------------------ verdicts

  /** The value each safety scalar must hold. */
  function SafeValue(key: string): Option<bool> {
    if key == "paper_only" then Some(true)
    else if key == "activation_authorized" || key == "real_order_adapter_constructed" || key == "automatic_restart" then Some(false)
    else None
  }

  /** The value each clean-exit field must hold. */
  function CleanValue(key: string): Option<Json> {
    if key == "summary_publication_outcome" then Some(Str("WRITTEN"))
    else if key == "cleanup_outcome" then Some(Str("CLEAN"))
    else if key == "runtime_lock_fd_closed" || key == "runtime_lock_absent_confirmed" then Some(Bool(true))
    else if key == "runtime_lock_release_reason_code" then Some(Null)
    else None
  }

  /** A safety scalar is there, with another value than it must hold. */
  predicate IsBroken(i: Inputs, key: string) {
    SafeValue(key).Some? && Look(i, key).Some? && !PyEq(Look(i, key).value, Bool(SafeValue(key).value))
  }

  /** A sensitive row, or a broken safety scalar. */
  ghost predicate IsUnsafe(i: Inputs) {
    i.evidence.sensitive > 0 || exists key :: IsBroken(i, key)
  }

  /** The conjunction a PASS stands for. */
  ghost predicate IsCleanRun(i: Inputs) {
    && i.summaryError.None? && i.evidence.error.None? && i.evidence.malformed == 0
    && !NamesOtherRun(i) && !IsUnsafe(i)
    && Look(i, "schema_version") == Some(Str(i.expectSchema))
    && (forall key | SafeValue(key).Some? :: Look(i, key).Some?)
    && (i.expectSource.Some? ==> Look(i, "source_kind") == Some(Str(i.expectSource.value)))
    && Look(i, "nonterminal_journal").Some?
    && (Look(i, "nonterminal_journal").value.Null? || PyEq(Look(i, "nonterminal_journal").value, Int(0)))
    && (forall key | CleanValue(key).Some? :: Look(i, key) == CleanValue(key))
    && Look(i, "outcome") == Some(Str("PASS"))
  }

  lemma FieldNames()
    ensures SCHEMA_VERSION == "schema_version" && SOURCE_KIND == "source_kind" && NONTERMINAL == "nonterminal_journal"
    ensures OUTCOME == "outcome" && ABSENT == "__absent__"
  {
  }

  lemma ExitNames()
    ensures PUBLICATION == "summary_publication_outcome" && CLEANUP == "cleanup_outcome" && LOCK_CLOSED == "runtime_lock_fd_closed"
    ensures LOCK_ABSENT == "runtime_lock_absent_confirmed" && LOCK_REASON == "runtime_lock_release_reason_code"
  {
  }

  lemma SafetyNames()
    ensures SAFETY_EXPECT == [("paper_only", true), ("activation_authorized", false),
                              ("real_order_adapter_constructed", false), ("automatic_restart", false)]
  {
  }

  lemma SafetyLengths()
    ensures |"paper_only"| == 10 && |"activation_authorized"| == 21 && |"real_order_adapter_constructed"| == 30 && |"automatic_restart"| == 17
  {
  }

  lemma ExitLengths()
    ensures |"summary_publication_outcome"| == 27 && |"cleanup_outcome"| == 15 && |"runtime_lock_fd_closed"| == 22
    ensures |"runtime_lock_absent_confirmed"| == 29 && |"runtime_lock_release_reason_code"| == 32
  {
  }

  lemma {:induction false} SpecOf(key: string, value: bool)
    ensures SafeValue(key) == Some(value) <==> (key, value) in SAFETY_EXPECT
  {
    hide SAFETY_EXPECT;
    SafetyNames();
    SafetyLengths();
    var specs := SAFETY_EXPECT;
    assert specs[0] in specs && specs[1] in specs && specs[2] in specs && specs[3] in specs;
  }

  lemma {:induction false} UnsafeExactly(i: Inputs)
    ensures IsUnsafeView(i) <==> IsUnsafe(i)
  {
    hide SAFETY_EXPECT, SafeValue, PyEq, Merged, Look;
    if k :| 0 <= k < |SAFETY_EXPECT| && IsViolated(Merged(i), SAFETY_EXPECT[k]) {
      var (key, value) := SAFETY_EXPECT[k];
      assert (key, value) in SAFETY_EXPECT;
      SpecOf(key, value);
      MergedIsView(i, key);
      assert IsBroken(i, key);
    }
    if key :| IsBroken(i, key) {
      var value := SafeValue(key).value;
      SpecOf(key, value);
      MergedIsView(i, key);
      var k :| 0 <= k < |SAFETY_EXPECT| && SAFETY_EXPECT[k] == (key, value);
      assert IsViolated(Merged(i), SAFETY_EXPECT[k]);
    }
  }

  /** FAIL exactly when something is unsafe or the run says FAIL; NO_GO exactly when nothing is and the run says NO_GO. */
  lemma {:induction false} SafetyPrecedence(i: Inputs)
    ensures Meaning(i).verdict == FAIL <==> IsUnsafe(i) || Look(i, "outcome") == Some(Str("FAIL"))
    ensures Meaning(i).verdict == NO_GO <==> !IsUnsafe(i) && Look(i, "outcome") == Some(Str("NO_GO"))
  {
    hide Meaning, IsUnsafe, IsUnsafeView, Merged, Look, OUTCOME;
    FieldNames();
    SafetyOnView(i);
    UnsafeExactly(i);
    MergedIsView(i, OUTCOME);
  }

  lemma {:induction false} SafeExactly(i: Inputs)
    ensures IsSafe(Merged(i)) <==> (forall key | SafeValue(key).Some? :: Look(i, key).Some? && !IsBroken(i, key))
  {
    hide SAFETY_EXPECT, SafeValue, PyEq, Merged, Look;
    if IsSafe(Merged(i)) {
      forall key | SafeValue(key).Some? ensures Look(i, key).Some? && !IsBroken(i, key) {
        var value := SafeValue(key).value;
        SpecOf(key, value);
        MergedIsView(i, key);
        var k :| 0 <= k < |SAFETY_EXPECT| && SAFETY_EXPECT[k] == (key, value);
      }
    }
    if forall key | SafeValue(key).Some? :: Look(i, key).Some? && !IsBroken(i, key) {
      forall k | 0 <= k < |SAFETY_EXPECT|
        ensures SAFETY_EXPECT[k].0 in Merged(i) && PyEq(Merged(i)[SAFETY_EXPECT[k].0], Bool(SAFETY_EXPECT[k].1))
      {
        var (key, value) := SAFETY_EXPECT[k];
        assert (key, value) in SAFETY_EXPECT;
        SpecOf(key, value);
        MergedIsView(i, key);
      }
    }
  }

  lemma ExitKeys(key: string)
    ensures CleanValue(key).Some? <==>
            key in {"summary_publication_outcome", "cleanup_outcome", "runtime_lock_fd_closed", "runtime_lock_absent_confirmed", "runtime_lock_release_reason_code"}
  {
    ExitLengths();
  }

  lemma CleanValues()
    ensures CleanValue("summary_publication_outcome") == Some(Str("WRITTEN")) && CleanValue("cleanup_outcome") == Some(Str("CLEAN"))
    ensures CleanValue("runtime_lock_fd_closed") == Some(Bool(true)) && CleanValue("runtime_lock_absent_confirmed") == Some(Bool(true))
    ensures CleanValue("runtime_lock_release_reason_code") == Some(Null)
  {
    ExitLengths();
  }

  lemma {:induction false} CleanExitExactly(i: Inputs)
    ensures IsCleanExit(Merged(i)) <==> forall key | CleanValue(key).Some? :: Look(i, key) == CleanValue(key)
  {
    hide Merged, Look, CleanValue, PUBLICATION, CLEANUP, LOCK_CLOSED, LOCK_ABSENT, LOCK_REASON;
    ExitNames();
    CleanValues();
    MergedIsView(i, PUBLICATION);
    MergedIsView(i, CLEANUP);
    MergedIsView(i, LOCK_CLOSED);
    MergedIsView(i, LOCK_ABSENT);
    MergedIsView(i, LOCK_REASON);
    forall key | CleanValue(key).Some?
      ensures key in {PUBLICATION, CLEANUP, LOCK_CLOSED, LOCK_ABSENT, LOCK_REASON}
    {
      ExitKeys(key);
    }
  }

  /** PASS exactly when the whole conjunction of integrity, identity, schema, safety, journal and clean-exit conditions holds. */
  lemma {:induction false} PassExactly(i: Inputs)
    ensures Meaning(i).verdict == PASS <==> IsCleanRun(i)
  {
    hide Meaning, Merged, Look, OUTCOME, SCHEMA_VERSION, SOURCE_KIND, NONTERMINAL, SafeValue, CleanValue, IsWrongRun, IsSafe,
         IsCleanExit, NamesOtherRun, IsBroken, PyEq;
    FieldNames();
    PassOnView(i);
    WrongRunExactly(i);
    SafeExactly(i);
    BrokenIsScalar(i);
    CleanExitExactly(i);
    MergedIsView(i, OUTCOME);
    MergedIsView(i, SCHEMA_VERSION);
    MergedIsView(i, SOURCE_KIND);
    MergedIsView(i, NONTERMINAL);
  }

  lemma BrokenIsScalar(i: Inputs)
    ensures forall key | IsBroken(i, key) :: SafeValue(key).Some?
  {
  }

  // ------------------------------------------------- what the envelope decides

  /** An outcome in the envelope stands, whatever the summary says; without one, the summary's is read. */
  lemma {:induction false} EnvelopeOutcomeStands(i: Inputs)
    requires i.envelope.Some? && "outcome" in i.envelope.value
    ensures i.envelope.value["outcome"] == Str("FAIL") ==> Meaning(i).verdict == FAIL
    ensures i.envelope.value["outcome"] == Str("NO_GO") && !IsUnsafe(i) ==> Meaning(i).verdict == NO_GO
    ensures Meaning(i).verdict == PASS ==> i.envelope.value["outcome"] == Str("PASS")
  {
    hide Meaning, IsUnsafe, IsCleanRun;
    SafetyPrecedence(i);
    PassExactly(i);
    CleanOutcome(i);
  }

  lemma CleanOutcome(i: Inputs)
    ensures IsCleanRun(i) ==> Look(i, "outcome") == Some(Str("PASS"))
  {
    hide IsUnsafe, Look, NamesOtherRun, SafeValue, CleanValue, PyEq;
  }

  /** A safety scalar in the envelope decides over the summary's: wrong there it fails the run, right there it breaks nothing. */
  lemma {:induction false} EnvelopeScalarDecides(i: Inputs, key: string)
    requires SafeValue(key).Some? && i.envelope.Some? && key in i.envelope.value
    ensures IsBroken(i, key) <==> !PyEq(i.envelope.value[key], Bool(SafeValue(key).value))
    ensures !PyEq(i.envelope.value[key], Bool(SafeValue(key).value)) ==> Meaning(i).verdict == FAIL
  {
    hide Meaning, SafeValue, PyEq;
    SafetyPrecedence(i);
  }

  /** What only the summary carries is read from the summary: without an envelope's word its outcome stands. */
  lemma {:induction false} SummaryReadOtherwise(i: Inputs, key: string)
    requires i.envelope.Some? ==> key !in i.envelope.value
    ensures Look(i, key) == if i.summary.Some? && key in i.summary.value then Some(i.summary.value[key]) else None
    ensures key == "outcome" && i.summary.Some? && key in i.summary.value && i.summary.value[key] == Str("FAIL") ==> Meaning(i).verdict == FAIL
  {
    hide Meaning, IsUnsafe;
    SafetyPrecedence(i);
  }

  // ------------------------------------------------------------ reasons reported

  /** What each reported blocker says. */
  ghost predicate Blocks(i: Inputs, b: Blocker) {
    match b
    case EnvelopeRunMismatch => NamesOtherRun(i)
    case SummaryBlocked(cause) => i.summaryError == Some(cause)
    case EvidenceBlocked(reason) => i.evidence.error == Some(reason)
    case EvidenceMalformed => i.evidence.malformed > 0
    case SchemaMissing => Look(i, "schema_version") in {None, Some(Null)}
    case SchemaMismatch => Look(i, "schema_version") !in {None, Some(Null), Some(Str(i.expectSchema))}
    case SafetyMissing(key) => SafeValue(key).Some? && Look(i, key).None?
    case SourceKindMismatch => i.expectSource.Some? && Look(i, "source_kind") != Some(Str(i.expectSource.value))
    case NonterminalMissing => Look(i, "nonterminal_journal") in {None, Some(Str("__absent__"))}
    case NonterminalJournal =>
      && Look(i, "nonterminal_journal") !in {None, Some(Null), Some(Str("__absent__"))}
      && !PyEq(Look(i, "nonterminal_journal").value, Int(0))
    case MissingFromPersisted => exists key :: CleanValue(key).Some? && Look(i, key).None?
    case ClauseFailed(key) => CleanValue(key).Some? && Look(i, key) !in {None, CleanValue(key)}
  }

  lemma {:induction false} SafetyBlockersAre(m: Fields, specs: seq<(string, bool)>, b: Blocker)
    ensures b in SafetyBlockers(m, specs) <==> exists k | 0 <= k < |specs| :: specs[k].0 !in m && b == SafetyMissing(specs[k].0)
  {
    if specs != [] {
      var n := |specs| - 1;
      var init := specs[..n];
      SafetyBlockersAre(m, init, b);
      assert forall k | 0 <= k < n :: init[k] == specs[k];
      if k :| 0 <= k < |specs| && specs[k].0 !in m && b == SafetyMissing(specs[k].0) {
        assert k < n ==> init[k] == specs[k];
      }
    }
  }

  lemma {:induction false} SafetyFailsAre(m: Fields, specs: seq<(string, bool)>, f: HardFail)
    ensures f in SafetyFails(m, specs) <==> exists k | 0 <= k < |specs| :: IsViolated(m, specs[k]) && f == SafetyViolated(specs[k].0)
  {
    hide IsViolated;
    if specs != [] {
      var n := |specs| - 1;
      var init := specs[..n];
      SafetyFailsAre(m, init, f);
      assert forall k | 0 <= k < n :: init[k] == specs[k];
      if k :| 0 <= k < |specs| && IsViolated(m, specs[k]) && f == SafetyViolated(specs[k].0) {
        assert k < n ==> init[k] == specs[k];
      }
    }
  }

  lemma {:induction false} SafetyReasons(i: Inputs, b: Blocker)
    ensures b in SafetyBlockers(Merged(i), SAFETY_EXPECT) <==> b.SafetyMissing? && Blocks(i, b)
  {
    hide SAFETY_EXPECT, SafeValue, Merged, Look, SafetyBlockers;
    var m := Merged(i);
    SafetyBlockersAre(m, SAFETY_EXPECT, b);
    if k :| 0 <= k < |SAFETY_EXPECT| && SAFETY_EXPECT[k].0 !in m && b == SafetyMissing(SAFETY_EXPECT[k].0) {
      var (key, value) := SAFETY_EXPECT[k];
      assert (key, value) in SAFETY_EXPECT;
      SpecOf(key, value);
      MergedIsView(i, key);
    }
    if b.SafetyMissing? && Blocks(i, b) {
      var value := SafeValue(b.field).value;
      SpecOf(b.field, value);
      MergedIsView(i, b.field);
      var k :| 0 <= k < |SAFETY_EXPECT| && SAFETY_EXPECT[k] == (b.field, value);
    }
  }

  lemma {:induction false} SchemaReasons(i: Inputs, b: Blocker)
    ensures b in SchemaBlockers(Merged(i), i.expectSchema) <==> (b.SchemaMissing? || b.SchemaMismatch?) && Blocks(i, b)
  {
    hide Merged, Look, SCHEMA_VERSION;
    FieldNames();
    MergedIsView(i, SCHEMA_VERSION);
  }

  lemma {:induction false} SourceReasons(i: Inputs, b: Blocker)
    ensures b in SourceBlockers(Merged(i), i.expectSource) <==> b.SourceKindMismatch? && Blocks(i, b)
  {
    hide Merged, Look, SOURCE_KIND;
    FieldNames();
    MergedIsView(i, SOURCE_KIND);
  }

  lemma {:induction false} JournalReasons(i: Inputs, b: Blocker)
    ensures b in JournalBlockers(Merged(i)) <==> (b.NonterminalMissing? || b.NonterminalJournal?) && Blocks(i, b)
  {
    hide Merged, Look, NONTERMINAL, ABSENT;
    FieldNames();
    MergedIsView(i, NONTERMINAL);
  }

  lemma {:induction false} InputReasons(i: Inputs, b: Blocker)
    ensures b in IdentityBlockers(i) + SummaryBlockers(i) + EvidenceBlockers(i.evidence) <==>
            (b.EnvelopeRunMismatch? || b.SummaryBlocked? || b.EvidenceBlocked? || b.EvidenceMalformed?) && Blocks(i, b)
  {
    hide IdentityMismatches, IsWrongRun, NamesOtherRun;
    MismatchExactly(i.summary, i.envelope);
    WrongRunExactly(i);
  }

  lemma {:induction false} ClauseReason(i: Inputs, b: Blocker, key: string)
    requires CleanValue(key).Some?
    ensures b in ClauseBlockers(Merged(i), key, CleanValue(key).value) <==> b == ClauseFailed(key) && Blocks(i, b)
  {
    hide Merged, Look, PyEq;
    MergedIsView(i, key);
    ClauseExactly(Merged(i), key, CleanValue(key).value);
  }

  lemma {:induction false} NullClause(m: Fields)
    ensures ReasonBlockers(m) == ClauseBlockers(m, LOCK_REASON, Null)
  {
    hide LOCK_REASON, PyEq;
    ClauseExactly(m, LOCK_REASON, Null);
  }

  lemma {:induction false} MissingReasons(i: Inputs, key: string)
    ensures key in MissingFields(Merged(i), ENVELOPE_ONLY) <==> CleanValue(key).Some? && Look(i, key).None?
  {
    hide Merged, Look, CleanValue, MissingFields, PUBLICATION, CLEANUP, LOCK_CLOSED, LOCK_ABSENT, LOCK_REASON;
    ExitNames();
    ExitKeys(key);
    MergedIsView(i, key);
    var names := ENVELOPE_ONLY;
    assert names[0] in names && names[1] in names && names[2] in names && names[3] in names && names[4] in names;
  }

  lemma {:induction false} MissingBlocks(i: Inputs, b: Blocker)
    ensures b in MissingBlockers(Merged(i)) <==> b.MissingFromPersisted? && Blocks(i, b)
  {
    hide Merged, Look, CleanValue, MissingFields, ENVELOPE_ONLY;
    var missing := MissingFields(Merged(i), ENVELOPE_ONLY);
    if missing != [] {
      MissingReasons(i, missing[0]);
    }
    if key :| CleanValue(key).Some? && Look(i, key).None? {
      MissingReasons(i, key);
    }
  }

  lemma {:induction false} ExitReasons(i: Inputs, b: Blocker)
    ensures b in ExitBlockers(Merged(i)) <==> (b.MissingFromPersisted? || b.ClauseFailed?) && Blocks(i, b)
  {
    hide Merged, Look, CleanValue, ClauseBlockers, ReasonBlockers, MissingBlockers, PUBLICATION, CLEANUP, LOCK_CLOSED, LOCK_ABSENT, LOCK_REASON;
    ExitNames();
    CleanValues();
    NullClause(Merged(i));
    MissingBlocks(i, b);
    ClauseReason(i, b, PUBLICATION);
    ClauseReason(i, b, CLEANUP);
    ClauseReason(i, b, LOCK_CLOSED);
    ClauseReason(i, b, LOCK_ABSENT);
    ClauseReason(i, b, LOCK_REASON);
    if b.ClauseFailed? { ExitKeys(b.clause); }
  }

  /** Every reported blocker is true of the two files, and everything that blocks is reported; likewise for failures and missing fields. */
  lemma {:induction false} ReasonsExactly(i: Inputs)
    ensures forall b :: b in Meaning(i).blockers <==> Blocks(i, b)
    ensures SensitiveData in Meaning(i).hardFail <==> i.evidence.sensitive > 0
    ensures forall key :: SafetyViolated(key) in Meaning(i).hardFail <==> IsBroken(i, key)
    ensures forall key :: key in Meaning(i).missing <==> CleanValue(key).Some? && Look(i, key).None?
  {
    hide Merged, Look, CleanValue, Blocks, IsBroken, MissingFields, SAFETY_EXPECT, SafetyBlockers, SafetyFails, SchemaBlockers,
         SourceBlockers, JournalBlockers, ExitBlockers, IdentityBlockers, SummaryBlockers, EvidenceBlockers, ENVELOPE_ONLY, OUTCOME;
    forall b ensures b in Blockers(i) <==> Blocks(i, b) {
      InputReasons(i, b);
      SchemaReasons(i, b);
      SafetyReasons(i, b);
      SourceReasons(i, b);
      JournalReasons(i, b);
      ExitReasons(i, b);
    }
    NothingElseFails(i);
    forall key ensures SafetyViolated(key) in HardFails(i) <==> IsBroken(i, key) {
      FailReasons(i, key);
    }
    forall key ensures key in MissingFields(Merged(i), ENVELOPE_ONLY) <==> CleanValue(key).Some? && Look(i, key).None? {
      MissingReasons(i, key);
    }
  }

  lemma NothingElseFails(i: Inputs)
    ensures SensitiveData !in SafetyFails(Merged(i), SAFETY_EXPECT)
  {
    hide SAFETY_EXPECT, IsViolated, Merged, SafetyFails;
    SafetyFailsAre(Merged(i), SAFETY_EXPECT, SensitiveData);
  }

  lemma {:induction false} FailReasons(i: Inputs, key: string)
    ensures SafetyViolated(key) in SafetyFails(Merged(i), SAFETY_EXPECT) <==> IsBroken(i, key)
  {
    hide SAFETY_EXPECT, SafeValue, Merged, Look, SafetyFails, PyEq;
    var m := Merged(i);
    SafetyFailsAre(m, SAFETY_EXPECT, SafetyViolated(key));
    MergedIsView(i, key);
    if k :| 0 <= k < |SAFETY_EXPECT| && IsViolated(m, SAFETY_EXPECT[k]) && key == SAFETY_EXPECT[k].0 {
      assert SAFETY_EXPECT[k] in SAFETY_EXPECT;
      SpecOf(key, SAFETY_EXPECT[k].1);
    }
    if IsBroken(i, key) {
      var value := SafeValue(key).value;
      SpecOf(key, value);
      var k :| 0 <= k < |SAFETY_EXPECT| && SAFETY_EXPECT[k] == (key, value);
      assert IsViolated(m, SAFETY_EXPECT[k]);
    }
  }

  // ------------------------------------------------------------ secrets and envelopes

  lemma CapturedArguments(result: Fields, c: CaptureInfo)
    ensures var f := CaptureFields(result, c); "command_args" in f && f["command_args"] == List(TextList(Sanitized(c.argv)))
  {
    hide ENVELOPE_SCHEMA, TextList, Sanitized, RUN_ID;
  }

  lemma SameCapture(result: Fields, c: CaptureInfo, argv: seq<string>)
    requires Sanitized(argv) == Sanitized(c.argv)
    ensures CaptureFields(result, c.(argv := argv)) == CaptureFields(result, c)
  {
    hide ENVELOPE_SCHEMA, TextList, Sanitized, RUN_ID;
  }

  lemma SameTexts(a: seq<string>, b: seq<string>)
    requires TextList(a) == TextList(b)
    ensures a == b
  {
    forall i | 0 <= i < |a| ensures a[i] == b[i] { assert TextList(a)[i] == Str(a[i]) && TextList(b)[i] == Str(b[i]); }
  }

  /** The envelope says of the command line only what is not secret: two runs write the same envelope exactly when their arguments differ in secrets alone. */
  lemma {:induction false} EnvelopeHidesSecrets(result: Fields, c: CaptureInfo, argv: seq<string>)
    ensures BuildStdoutEnvelope(result, c.(argv := argv)) == BuildStdoutEnvelope(result, c) <==> DifferOnlyInSecrets(c.argv, argv)
  {
    hide CaptureFields, TextList, Sanitized, DifferOnlyInSecrets, CAPTURE;
    NonInterference(c.argv, argv);
    if Sanitized(argv) == Sanitized(c.argv) {
      SameCapture(result, c, argv);
    }
    var d := c.(argv := argv);
    if BuildStdoutEnvelope(result, d) == BuildStdoutEnvelope(result, c) {
      assert BuildStdoutEnvelope(result, d)[CAPTURE] == Obj(CaptureFields(result, d));
      assert BuildStdoutEnvelope(result, c)[CAPTURE] == Obj(CaptureFields(result, c));
      CapturedArguments(result, c);
      CapturedArguments(result, d);
      SameTexts(Sanitized(argv), Sanitized(c.argv));
    }
  }
}
