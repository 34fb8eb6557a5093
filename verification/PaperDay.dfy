/** The offline paper-day verdict: summary and envelope overlaid, checked, and classified. */
module PaperDay {
  import opened Wrappers
  import opened PyJson
  import opened PaperEvidence
  import opened ArgRedaction

  const SCHEMA_VERSION := "schema_version"
  const SOURCE_KIND := "source_kind"
  const NONTERMINAL := "nonterminal_journal"
  const OUTCOME := "outcome"
  const RUN_ID := "run_id"
  const PUBLICATION := "summary_publication_outcome"
  const CLEANUP := "cleanup_outcome"
  const LOCK_CLOSED := "runtime_lock_fd_closed"
  const LOCK_ABSENT := "runtime_lock_absent_confirmed"
  const LOCK_REASON := "runtime_lock_release_reason_code"
  const CAPTURE := "_envelope_capture"

  /** Safety scalars and the value each must hold. */
  const SAFETY_EXPECT: seq<(string, bool)> := [
    ("paper_only", true), ("activation_authorized", false), ("real_order_adapter_constructed", false), ("automatic_restart", false)]

  /** Fields that only the run's stdout envelope carries. */
  const ENVELOPE_ONLY: seq<string> := [PUBLICATION, CLEANUP, LOCK_CLOSED, LOCK_ABSENT, LOCK_REASON]

  const IDENTITY_FIELDS: seq<string> := [RUN_ID, "session_date", "symbol"]

  datatype Verdict = PASS | NO_GO | FAIL | NEEDS_REVIEW

  datatype SummaryError = SummaryMissing | SummaryUnreadable | SummaryMalformed | SummaryNotObject

  datatype Blocker =
    | EnvelopeRunMismatch | SummaryBlocked(cause: SummaryError) | EvidenceBlocked(reason: EvidenceError) | EvidenceMalformed
    | SchemaMissing | SchemaMismatch | SafetyMissing(field: string) | SourceKindMismatch
    | NonterminalMissing | NonterminalJournal | MissingFromPersisted | ClauseFailed(clause: string)

  datatype HardFail = SensitiveData | SafetyViolated(scalar: string)

  datatype Inputs = Inputs(
    summary: Option<Fields>, summaryError: Option<SummaryError>, envelope: Option<Fields>, evidence: Evidence,
    expectSchema: string, expectSource: Option<string>)

  datatype Classification = Classification(verdict: Verdict, hardFail: seq<HardFail>, blockers: seq<Blocker>, missing: seq<string>)

  function OrEmpty(m: Option<Fields>): Fields {
    if m.Some? then m.value else map[]
  }

  /** The envelope overlays the persisted summary. */
  function Merged(i: Inputs): Fields {
    OrEmpty(i.summary) + OrEmpty(i.envelope)
  }

  // ------------------------------------------------------------- run identity

  /** Both sides carry the field, with different values. */
  predicate Contradicts(summary: Fields, envelope: Fields, field: string) {
    !Get(summary, field).Null? && !Get(envelope, field).Null? && !PyEq(Get(summary, field), Get(envelope, field))
  }

  predicate CaptureContradicts(summary: Fields, envelope: Fields) {
    Get(envelope, CAPTURE).Obj? &&
    var captured := Get(Get(envelope, CAPTURE).fields, RUN_ID);
    !captured.Null? && !Get(summary, RUN_ID).Null? && !PyEq(captured, Get(summary, RUN_ID))
  }

  function Mismatches(summary: Fields, envelope: Fields, fields: seq<string>): (r: seq<string>)
    ensures forall f :: f in r <==> f in fields && Contradicts(summary, envelope, f)
  {
    if fields == [] then []
    else
      assert fields == fields[..|fields| - 1] + [fields[|fields| - 1]];
      Mismatches(summary, envelope, fields[..|fields| - 1]) +
      (if Contradicts(summary, envelope, fields[|fields| - 1]) then [fields[|fields| - 1]] else [])
  }

  function IdentityMismatches(summary: Option<Fields>, envelope: Option<Fields>): seq<string> {
    var (s, e) := (OrEmpty(summary), OrEmpty(envelope));
    if s == map[] || e == map[] then []
    else
      var found := Mismatches(s, e, IDENTITY_FIELDS);
      found + (if CaptureContradicts(s, e) && RUN_ID !in found then [CAPTURE + "." + RUN_ID] else [])
  }

  /** `_envelope_identity_mismatch` */
  method EnvelopeIdentityMismatch(summary: Option<Fields>, envelope: Option<Fields>) returns (mismatches: seq<string>)
    ensures mismatches == IdentityMismatches(summary, envelope)
  {
    hide Contradicts, PyEq, IDENTITY_FIELDS, RUN_ID, CAPTURE;
    var s, e := OrEmpty(summary), OrEmpty(envelope);
    if s == map[] || e == map[] {
      return [];
    }
    mismatches := [];
    for k := 0 to |IDENTITY_FIELDS|
      invariant mismatches == Mismatches(s, e, IDENTITY_FIELDS[..k])
    {
      assert IDENTITY_FIELDS[..k + 1][..k] == IDENTITY_FIELDS[..k];
      if Contradicts(s, e, IDENTITY_FIELDS[k]) {
        mismatches := mismatches + [IDENTITY_FIELDS[k]];
      }
    }
    assert IDENTITY_FIELDS[..|IDENTITY_FIELDS|] == IDENTITY_FIELDS;
    if CaptureContradicts(s, e) && RUN_ID !in mismatches {
      mismatches := mismatches + [CAPTURE + "." + RUN_ID];
    }
  }

  /** The envelope names another run than a summary that names one. */
  predicate IsWrongRun(summary: Fields, envelope: Fields) {
    (exists f | f in IDENTITY_FIELDS :: Contradicts(summary, envelope, f)) || CaptureContradicts(summary, envelope)
  }

  /** A mismatch is reported exactly when some identity value present on both sides differs. */
  lemma {:induction false} MismatchExactly(summary: Option<Fields>, envelope: Option<Fields>)
    ensures IdentityMismatches(summary, envelope) != [] <==> IsWrongRun(OrEmpty(summary), OrEmpty(envelope))
  {
    hide PyEq, IDENTITY_FIELDS, RUN_ID, CAPTURE, Mismatches;
    var s, e := OrEmpty(summary), OrEmpty(envelope);
    var found := Mismatches(s, e, IDENTITY_FIELDS);
    if s != map[] && e != map[] {
      if found != [] { assert found[0] in found; }
      if CaptureContradicts(s, e) && RUN_ID in found { assert found != []; }
    }
  }

  // ------------------------------------------------------------------- checks

  function IdentityBlockers(i: Inputs): seq<Blocker> {
    if IdentityMismatches(i.summary, i.envelope) != [] then [EnvelopeRunMismatch] else []
  }

  function SummaryBlockers(i: Inputs): seq<Blocker> {
    if i.summaryError.Some? then [SummaryBlocked(i.summaryError.value)] else []
  }

  function EvidenceBlockers(e: Evidence): seq<Blocker> {
    (if e.error.Some? then [EvidenceBlocked(e.error.value)] else []) + (if e.malformed > 0 then [EvidenceMalformed] else [])
  }

  function SchemaBlockers(m: Fields, wanted: string): seq<Blocker> {
    if Get(m, SCHEMA_VERSION).Null? then [SchemaMissing]
    else if Get(m, SCHEMA_VERSION) != Str(wanted) then [SchemaMismatch]
    else []
  }

  function SafetyBlockers(m: Fields, specs: seq<(string, bool)>): seq<Blocker> {
    if specs == [] then []
    else SafetyBlockers(m, specs[..|specs| - 1]) + (if specs[|specs| - 1].0 !in m then [SafetyMissing(specs[|specs| - 1].0)] else [])
  }

  predicate IsViolated(m: Fields, spec: (string, bool)) {
    spec.0 in m && !PyEq(m[spec.0], Bool(spec.1))
  }

  function SafetyFails(m: Fields, specs: seq<(string, bool)>): seq<HardFail> {
    if specs == [] then []
    else SafetyFails(m, specs[..|specs| - 1]) + (if IsViolated(m, specs[|specs| - 1]) then [SafetyViolated(specs[|specs| - 1].0)] else [])
  }

  function SourceBlockers(m: Fields, wanted: Option<string>): seq<Blocker> {
    if wanted.Some? && Get(m, SOURCE_KIND) != Str(wanted.value) then [SourceKindMismatch] else []
  }

  /** `nonterminal in (0, None)` */
  predicate IsTerminal(j: Json) {
    j.Null? || PyEq(j, Int(0))
  }

  const ABSENT := "__absent__"

  function JournalBlockers(m: Fields): seq<Blocker> {
    var nonterminal := if NONTERMINAL in m then m[NONTERMINAL] else Str(ABSENT);
    if IsTerminal(nonterminal) then []
    else if nonterminal == Str(ABSENT) then [NonterminalMissing]
    else [NonterminalJournal]
  }

  function MissingFields(m: Fields, fields: seq<string>): (r: seq<string>)
    ensures forall f :: f in r <==> f in fields && f !in m
  {
    if fields == [] then []
    else
      assert fields == fields[..|fields| - 1] + [fields[|fields| - 1]];
      MissingFields(m, fields[..|fields| - 1]) + (if fields[|fields| - 1] !in m then [fields[|fields| - 1]] else [])
  }

  function MissingBlockers(m: Fields): seq<Blocker> {
    if MissingFields(m, ENVELOPE_ONLY) != [] then [MissingFromPersisted] else []
  }

  /** `_clause`: equal and of the same type. */
  function ClauseBlockers(m: Fields, field: string, expected: Json): seq<Blocker> {
    if field in m && !(PyEq(m[field], expected) && SameType(m[field], expected)) then [ClauseFailed(field)] else []
  }

  function ReasonBlockers(m: Fields): seq<Blocker> {
    if LOCK_REASON in m && !m[LOCK_REASON].Null? then [ClauseFailed(LOCK_REASON)] else []
  }

  function HardFails(i: Inputs): seq<HardFail> {
    (if i.evidence.sensitive > 0 then [SensitiveData] else []) + SafetyFails(Merged(i), SAFETY_EXPECT)
  }

  function ExitBlockers(m: Fields): seq<Blocker> {
    MissingBlockers(m)
    + ClauseBlockers(m, PUBLICATION, Str("WRITTEN"))
    + ClauseBlockers(m, CLEANUP, Str("CLEAN"))
    + ClauseBlockers(m, LOCK_CLOSED, Bool(true))
    + ClauseBlockers(m, LOCK_ABSENT, Bool(true))
    + ReasonBlockers(m)
  }

  function Blockers(i: Inputs): seq<Blocker> {
    IdentityBlockers(i) + SummaryBlockers(i) + EvidenceBlockers(i.evidence)
    + SchemaBlockers(Merged(i), i.expectSchema)
    + SafetyBlockers(Merged(i), SAFETY_EXPECT)
    + SourceBlockers(Merged(i), i.expectSource)
    + JournalBlockers(Merged(i))
    + ExitBlockers(Merged(i))
  }

  /** Safety decides first, then the run's own outcome, then the blockers. */
  function Decide(hardFail: seq<HardFail>, outcome: Json, blockers: seq<Blocker>): Verdict {
    if hardFail != [] then FAIL
    else if outcome == Str("FAIL") then FAIL
    else if outcome == Str("NO_GO") then NO_GO
    else if outcome == Str("PASS") then if blockers == [] then PASS else NEEDS_REVIEW
    else NEEDS_REVIEW
  }

  function Meaning(i: Inputs): Classification {
    Classification(Decide(HardFails(i), Get(Merged(i), OUTCOME), Blockers(i)), HardFails(i), Blockers(i), MissingFields(Merged(i), ENVELOPE_ONLY))
  }

  /** The safety loop: missing scalars block, wrong ones fail. */
  method CheckSafety(m: Fields) returns (blockers: seq<Blocker>, fails: seq<HardFail>)
    ensures blockers == SafetyBlockers(m, SAFETY_EXPECT) && fails == SafetyFails(m, SAFETY_EXPECT)
  {
    hide SAFETY_EXPECT, PyEq;
    blockers, fails := [], [];
    for k := 0 to |SAFETY_EXPECT|
      invariant blockers == SafetyBlockers(m, SAFETY_EXPECT[..k]) && fails == SafetyFails(m, SAFETY_EXPECT[..k])
    {
      assert SAFETY_EXPECT[..k + 1][..k] == SAFETY_EXPECT[..k];
      var (field, expected) := SAFETY_EXPECT[k];
      if field !in m {
        blockers := blockers + [SafetyMissing(field)];
      } else if !PyEq(m[field], Bool(expected)) {
        fails := fails + [SafetyViolated(field)];
      }
    }
    assert SAFETY_EXPECT[..|SAFETY_EXPECT|] == SAFETY_EXPECT;
  }

  /** `_clause`: an absent field is left to the missing-field check. */
  method Clause(m: Fields, field: string, expected: Json, before: seq<Blocker>) returns (blockers: seq<Blocker>)
    ensures blockers == before + ClauseBlockers(m, field, expected)
  {
    hide PyEq;
    blockers := before;
    if field !in m {
      return;
    }
    var actual := m[field];
    if PyEq(actual, expected) && SameType(actual, expected) {
      return;
    }
    blockers := blockers + [ClauseFailed(field)];
  }

  /** The checks on the overlaid view that follow the safety scalars. */
  method CheckView(m: Fields, source: Option<string>, before: seq<Blocker>) returns (blockers: seq<Blocker>, missing: seq<string>)
    ensures blockers == before + SourceBlockers(m, source) + JournalBlockers(m) + ExitBlockers(m)
    ensures missing == MissingFields(m, ENVELOPE_ONLY)
  {
    hide PyEq, ClauseBlockers, ENVELOPE_ONLY, PUBLICATION, CLEANUP, LOCK_CLOSED, LOCK_ABSENT, LOCK_REASON, SOURCE_KIND, NONTERMINAL, ABSENT, MissingFields;
    blockers := before;
    if source.Some? && Get(m, SOURCE_KIND) != Str(source.value) {
      blockers := blockers + [SourceKindMismatch];
    }
    assert blockers == before + SourceBlockers(m, source);
    var nonterminal := if NONTERMINAL in m then m[NONTERMINAL] else Str(ABSENT);
    if nonterminal.Null? || PyEq(nonterminal, Int(0)) {
    } else if nonterminal == Str(ABSENT) {
      blockers := blockers + [NonterminalMissing];
    } else {
      blockers := blockers + [NonterminalJournal];
    }
    ghost var viewed := before + SourceBlockers(m, source) + JournalBlockers(m);
    assert blockers == viewed;
    blockers, missing := CheckExit(m, blockers);
  }

  lemma NoneMissing(m: Fields, fields: seq<string>)
    ensures MissingFields(m, fields[..0]) == []
  {
  }

  lemma NextMissing(m: Fields, fields: seq<string>, k: nat)
    requires k < |fields|
    ensures MissingFields(m, fields[..k + 1]) == MissingFields(m, fields[..k]) + (if fields[k] !in m then [fields[k]] else [])
  {
    assert fields[..k + 1][..k] == fields[..k];
  }

  method CollectMissing(m: Fields) returns (missing: seq<string>)
    ensures missing == MissingFields(m, ENVELOPE_ONLY)
  {
    hide ENVELOPE_ONLY, MissingFields;
    missing := [];
    NoneMissing(m, ENVELOPE_ONLY);
    for k := 0 to |ENVELOPE_ONLY|
      invariant missing == MissingFields(m, ENVELOPE_ONLY[..k])
    {
      NextMissing(m, ENVELOPE_ONLY, k);
      if ENVELOPE_ONLY[k] !in m {
        missing := missing + [ENVELOPE_ONLY[k]];
      }
    }
    assert ENVELOPE_ONLY[..|ENVELOPE_ONLY|] == ENVELOPE_ONLY;
  }

  /** The envelope-only fields and the clean-exit clauses. */
  method CheckExit(m: Fields, before: seq<Blocker>) returns (blockers: seq<Blocker>, missing: seq<string>)
    ensures blockers == before + ExitBlockers(m)
    ensures missing == MissingFields(m, ENVELOPE_ONLY)
  {
    hide PyEq, ClauseBlockers, ENVELOPE_ONLY, PUBLICATION, CLEANUP, LOCK_CLOSED, LOCK_ABSENT, LOCK_REASON, MissingFields;
    missing := CollectMissing(m);
    var found: seq<Blocker> := [];
    if missing != [] {
      found := found + [MissingFromPersisted];
    }
    assert found == MissingBlockers(m);
    hide MissingBlockers;
    found := Clause(m, PUBLICATION, Str("WRITTEN"), found);
    found := Clause(m, CLEANUP, Str("CLEAN"), found);
    found := Clause(m, LOCK_CLOSED, Bool(true), found);
    found := Clause(m, LOCK_ABSENT, Bool(true), found);
    ghost var clauses := found;
    if LOCK_REASON in m {
      var reason := m[LOCK_REASON];
      if !reason.Null? {
        found := found + [ClauseFailed(LOCK_REASON)];
      }
    }
    assert found == clauses + ReasonBlockers(m);
    hide ReasonBlockers;
    blockers := before + found;
  }

  /** The checks before the overlaid view: run identity, summary, evidence. */
  method CheckInputs(i: Inputs) returns (blockers: seq<Blocker>, hardFail: seq<HardFail>)
    ensures blockers == IdentityBlockers(i) + SummaryBlockers(i) + EvidenceBlockers(i.evidence)
    ensures hardFail == if i.evidence.sensitive > 0 then [SensitiveData] else []
  {
    hide IdentityMismatches;
    blockers, hardFail := [], [];
    var mismatches := EnvelopeIdentityMismatch(i.summary, i.envelope);
    if mismatches != [] {
      blockers := blockers + [EnvelopeRunMismatch];
    }
    if i.summaryError.Some? {
      blockers := blockers + [SummaryBlocked(i.summaryError.value)];
    }
    if i.evidence.error.Some? {
      blockers := blockers + [EvidenceBlocked(i.evidence.error.value)];
    }
    if i.evidence.malformed > 0 {
      blockers := blockers + [EvidenceMalformed];
    }
    if i.evidence.sensitive > 0 {
      hardFail := hardFail + [SensitiveData];
    }
  }

  /** `classify` */
  method Classify(i: Inputs) returns (c: Classification)
    ensures c == Meaning(i)
  {
    hide SafetyBlockers, SafetyFails, SAFETY_EXPECT, ENVELOPE_ONLY, MissingFields, IdentityBlockers, SummaryBlockers, EvidenceBlockers,
         SourceBlockers, JournalBlockers, ExitBlockers, Merged, SCHEMA_VERSION, OUTCOME;
    var m := Merged(i);
    var blockers, hardFail := CheckInputs(i);
    var schema := Get(m, SCHEMA_VERSION);
    if schema.Null? {
      blockers := blockers + [SchemaMissing];
    } else if schema != Str(i.expectSchema) {
      blockers := blockers + [SchemaMismatch];
    }
    var unsafe, violated := CheckSafety(m);
    blockers := blockers + unsafe;
    hardFail := hardFail + violated;
    var missing;
    blockers, missing := CheckView(m, i.expectSource, blockers);
    var outcome := Get(m, OUTCOME);
    var verdict := NEEDS_REVIEW;
    if hardFail != [] {
      verdict := FAIL;
    } else if outcome == Str("FAIL") {
      verdict := FAIL;
    } else if outcome == Str("NO_GO") {
      verdict := NO_GO;
    } else if outcome == Str("PASS") {
      verdict := if blockers == [] then PASS else NEEDS_REVIEW;
    }
    c := Classification(verdict, hardFail, blockers, missing);
  }

  // ---------------------------------------------------- verdict characterization

  /** Every safety scalar is present and equal, as Python compares, to its fixed value. */
  predicate IsSafe(m: Fields) {
    forall k | 0 <= k < |SAFETY_EXPECT| :: SAFETY_EXPECT[k].0 in m && PyEq(m[SAFETY_EXPECT[k].0], Bool(SAFETY_EXPECT[k].1))
  }

  predicate IsCleanExit(m: Fields) {
    && Has(m, PUBLICATION, Str("WRITTEN")) && Has(m, CLEANUP, Str("CLEAN"))
    && Has(m, LOCK_CLOSED, Bool(true)) && Has(m, LOCK_ABSENT, Bool(true)) && Has(m, LOCK_REASON, Null)
  }

  predicate IsIntact(e: Evidence) {
    e.error.None? && e.malformed == 0 && e.sensitive == 0
  }

  /** The conjunction a PASS stands for, on the overlaid view. */
  predicate IsCleanView(i: Inputs) {
    var m := Merged(i);
    && i.summaryError.None? && IsIntact(i.evidence)
    && !IsWrongRun(OrEmpty(i.summary), OrEmpty(i.envelope))
    && Has(m, SCHEMA_VERSION, Str(i.expectSchema))
    && IsSafe(m)
    && (i.expectSource.Some? ==> Has(m, SOURCE_KIND, Str(i.expectSource.value)))
    && NONTERMINAL in m && IsTerminal(m[NONTERMINAL])
    && IsCleanExit(m)
    && Has(m, OUTCOME, Str("PASS"))
  }

  lemma {:induction false} SafetyBlockersExactly(m: Fields, specs: seq<(string, bool)>)
    ensures SafetyBlockers(m, specs) == [] <==> forall k | 0 <= k < |specs| :: specs[k].0 in m
  {
    if specs != [] {
      var n := |specs| - 1;
      var init := specs[..n];
      SafetyBlockersExactly(m, init);
      assert SafetyBlockers(m, specs) == [] <==> SafetyBlockers(m, init) == [] && specs[n].0 in m;
      assert forall k | 0 <= k < n :: init[k] == specs[k];
    }
  }

  lemma {:induction false} SafetyFailsExactly(m: Fields, specs: seq<(string, bool)>)
    ensures SafetyFails(m, specs) == [] <==> forall k | 0 <= k < |specs| :: !IsViolated(m, specs[k])
  {
    hide IsViolated;
    if specs != [] {
      var n := |specs| - 1;
      var init := specs[..n];
      SafetyFailsExactly(m, init);
      assert SafetyFails(m, specs) == [] <==> SafetyFails(m, init) == [] && !IsViolated(m, specs[n]);
      assert forall k | 0 <= k < n :: init[k] == specs[k];
    }
  }

  lemma {:induction false} ClauseExactly(m: Fields, field: string, expected: Json)
    requires !expected.List? && !expected.Obj?
    ensures field in m ==> (ClauseBlockers(m, field, expected) == [] <==> m[field] == expected)
    ensures field !in m ==> ClauseBlockers(m, field, expected) == []
  {
    hide PyEq;
    if field in m && SameType(m[field], expected) {
      PyEqSameScalar(m[field], expected);
    }
    PyEqReflexive(expected);
  }

  lemma {:induction false} ExitExactly(m: Fields)
    ensures ExitBlockers(m) == [] <==> IsCleanExit(m)
  {
    hide PyEq, ClauseBlockers, PUBLICATION, CLEANUP, LOCK_CLOSED, LOCK_ABSENT, LOCK_REASON, MissingFields;
    ClauseExactly(m, PUBLICATION, Str("WRITTEN"));
    ClauseExactly(m, CLEANUP, Str("CLEAN"));
    ClauseExactly(m, LOCK_CLOSED, Bool(true));
    ClauseExactly(m, LOCK_ABSENT, Bool(true));
    MissingExactly(m);
  }

  lemma {:induction false} MissingExactly(m: Fields)
    ensures MissingFields(m, ENVELOPE_ONLY) == [] <==>
            PUBLICATION in m && CLEANUP in m && LOCK_CLOSED in m && LOCK_ABSENT in m && LOCK_REASON in m
  {
    hide PUBLICATION, CLEANUP, LOCK_CLOSED, LOCK_ABSENT, LOCK_REASON, MissingFields;
    var missing := MissingFields(m, ENVELOPE_ONLY);
    if missing != [] { assert missing[0] in missing; }
    assert ENVELOPE_ONLY[0] in ENVELOPE_ONLY && ENVELOPE_ONLY[1] in ENVELOPE_ONLY && ENVELOPE_ONLY[2] in ENVELOPE_ONLY
           && ENVELOPE_ONLY[3] in ENVELOPE_ONLY && ENVELOPE_ONLY[4] in ENVELOPE_ONLY;
  }

  lemma {:induction false} BlockersExactly(i: Inputs)
    ensures Blockers(i) == [] && HardFails(i) == [] <==>
      var m := Merged(i);
      && i.summaryError.None? && IsIntact(i.evidence)
      && !IsWrongRun(OrEmpty(i.summary), OrEmpty(i.envelope))
      && Has(m, SCHEMA_VERSION, Str(i.expectSchema))
      && IsSafe(m)
      && (i.expectSource.Some? ==> Has(m, SOURCE_KIND, Str(i.expectSource.value)))
      && NONTERMINAL in m && IsTerminal(m[NONTERMINAL])
      && IsCleanExit(m)
  {
    hide PyEq, ExitBlockers, IsCleanExit, IdentityMismatches, IsWrongRun, SAFETY_EXPECT, SafetyBlockers, SafetyFails, Merged,
         SCHEMA_VERSION, SOURCE_KIND, NONTERMINAL, ABSENT, IsTerminal;
    var m := Merged(i);
    MismatchExactly(i.summary, i.envelope);
    SafetyBlockersExactly(m, SAFETY_EXPECT);
    SafetyFailsExactly(m, SAFETY_EXPECT);
    ExitExactly(m);
    AbsentIsNotTerminal();
  }

  lemma AbsentIsNotTerminal()
    ensures !IsTerminal(Str(ABSENT))
  {
    hide ABSENT;
  }

  lemma OutcomesDiffer()
    ensures "PASS" != "FAIL" && "PASS" != "NO_GO" && "FAIL" != "NO_GO"
  {
    assert "PASS"[0] == 'P' && "FAIL"[0] == 'F';
  }

  lemma {:induction false} PassOnView(i: Inputs)
    ensures Meaning(i).verdict == PASS <==> IsCleanView(i)
  {
    hide Blockers, HardFails, IsIntact, IsWrongRun, IsSafe, IsTerminal, IsCleanExit, Merged, OUTCOME, SCHEMA_VERSION, SOURCE_KIND, NONTERMINAL, MissingFields;
    BlockersExactly(i);
    OutcomesDiffer();
  }

  /** Some safety scalar is present with a wrong value, or a row of evidence is sensitive. */
  predicate IsUnsafeView(i: Inputs) {
    i.evidence.sensitive > 0 || exists k | 0 <= k < |SAFETY_EXPECT| :: IsViolated(Merged(i), SAFETY_EXPECT[k])
  }

  lemma {:induction false} SafetyOnView(i: Inputs)
    ensures Meaning(i).verdict == FAIL <==> IsUnsafeView(i) || Has(Merged(i), OUTCOME, Str("FAIL"))
    ensures Meaning(i).verdict == NO_GO <==> !IsUnsafeView(i) && Has(Merged(i), OUTCOME, Str("NO_GO"))
  {
    hide Blockers, SAFETY_EXPECT, SafetyFails, Merged, OUTCOME, IsViolated, MissingFields;
    SafetyFailsExactly(Merged(i), SAFETY_EXPECT);
    OutcomesDiffer();
  }

  /** Without an envelope, a summary that lacks an envelope-only field never passes. */
  lemma {:induction false} NoEnvelopeNoPass(i: Inputs, field: string)
    requires OrEmpty(i.envelope) == map[] && field in ENVELOPE_ONLY && field !in OrEmpty(i.summary)
    ensures Meaning(i).verdict != PASS
  {
    hide Meaning, IsIntact, IsWrongRun, IsSafe, IsTerminal, PUBLICATION, CLEANUP, LOCK_CLOSED, LOCK_ABSENT, LOCK_REASON;
    PassOnView(i);
  }

  /** An envelope that contradicts the summary's run never yields PASS, whatever else it carries. */
  lemma {:induction false} WrongRunNoPass(i: Inputs)
    requires IsWrongRun(OrEmpty(i.summary), OrEmpty(i.envelope))
    ensures Meaning(i).verdict != PASS
  {
    hide Meaning, IsWrongRun;
    PassOnView(i);
  }

  // -------------------------------------------------------------- evidence laws

  /** Reordering the evidence never changes the classification. */
  lemma {:induction false} OrderIrrelevant(i: Inputs, a: seq<Line>, b: seq<Line>)
    requires multiset(a) == multiset(b)
    ensures Meaning(i.(evidence := ScanOf(a))) == Meaning(i.(evidence := ScanOf(b)))
  {
    hide Merged, SafetyBlockers, SafetyFails, SAFETY_EXPECT, SchemaBlockers, SourceBlockers, JournalBlockers, ExitBlockers, MissingFields,
         IdentityMismatches, Count, First, Last, Totals, OUTCOME, ENVELOPE_ONLY;
    CountOfPermutation(a, b, IsRow);
    CountOfPermutation(a, b, IsMalformed);
    CountOfPermutation(a, b, IsSensitiveLine);
    var x, y := i.(evidence := ScanOf(a)), i.(evidence := ScanOf(b));
    assert Merged(x) == Merged(y) by { MergedIgnoresEvidence(i, ScanOf(a)); MergedIgnoresEvidence(i, ScanOf(b)); }
  }

  lemma MergedIgnoresEvidence(i: Inputs, e: Evidence)
    ensures Merged(i.(evidence := e)) == Merged(i)
  {
  }

  /** Appending evidence never turns another verdict into PASS. */
  lemma {:induction false} AppendingNeverPasses(i: Inputs, lines: seq<Line>, more: seq<Line>)
    requires Meaning(i.(evidence := ScanOf(lines + more))).verdict == PASS
    ensures Meaning(i.(evidence := ScanOf(lines))).verdict == PASS
  {
    hide Meaning, Merged, IsWrongRun, IsSafe, IsTerminal, IsCleanExit, Count, First, Last, Totals;
    CountAppend(lines, more, IsMalformed);
    CountAppend(lines, more, IsSensitiveLine);
    PassOnView(i.(evidence := ScanOf(lines + more)));
    PassOnView(i.(evidence := ScanOf(lines)));
    MergedIgnoresEvidence(i, ScanOf(lines));
    MergedIgnoresEvidence(i, ScanOf(lines + more));
  }

  // ------------------------------------------------------------- stdout envelope

  const ENVELOPE_SCHEMA := "paper_day_stdout" + "_envelope.v1"

  datatype CaptureInfo = CaptureInfo(
    capturedAt: string, exitCode: int, summaryPath: string, evidencePath: string, dbDir: string, argv: seq<string>, gitHead: Option<string>)

  function CaptureFields(result: Fields, c: CaptureInfo): Fields {
    map["schema_version" := Str(ENVELOPE_SCHEMA), "captured_at" := Str(c.capturedAt), "exit_code" := Int(c.exitCode),
        "run_id" := Get(result, RUN_ID), "summary_path" := Str(c.summaryPath), "evidence_path" := Str(c.evidencePath),
        "db_dir" := Str(c.dbDir), "command_args" := List(TextList(Sanitized(c.argv))),
        "git_head" := if c.gitHead.Some? then Str(c.gitHead.value) else Null]
  }

  /** `build_stdout_envelope`: the run result plus its capture block. */
  function BuildStdoutEnvelope(result: Fields, c: CaptureInfo): Fields {
    result[CAPTURE := Obj(CaptureFields(result, c))]
  }

  predicate Extends(result: Fields, summary: Fields) {
    forall k | k in summary :: k in result && result[k] == summary[k]
  }

  lemma CaptureReadsRunId(result: Fields, c: CaptureInfo)
    ensures Get(CaptureFields(result, c), RUN_ID) == Get(result, RUN_ID)
  {
    hide ENVELOPE_SCHEMA, TextList;
  }

  lemma IdentityIsNotCapture()
    ensures forall f | f in IDENTITY_FIELDS :: f != CAPTURE
    ensures RUN_ID in IDENTITY_FIELDS
  {
    assert IDENTITY_FIELDS[0] == RUN_ID;
  }

  /** The capture block is a name of its own among the fields the classifier reads. */
  lemma ReadFieldsAreNotCapture()
    ensures CAPTURE !in {SCHEMA_VERSION, SOURCE_KIND, NONTERMINAL, OUTCOME, PUBLICATION, CLEANUP, LOCK_CLOSED, LOCK_ABSENT, LOCK_REASON}
    ensures forall k | 0 <= k < |SAFETY_EXPECT| :: SAFETY_EXPECT[k].0 != CAPTURE
  {
  }

  lemma {:induction false} OwnEnvelopeMatches(summary: Fields, result: Fields, c: CaptureInfo)
    requires Extends(result, summary)
    ensures !IsWrongRun(summary, BuildStdoutEnvelope(result, c))
  {
    hide PyEq, CaptureFields, IDENTITY_FIELDS, RUN_ID, CAPTURE;
    IdentityIsNotCapture();
    CaptureReadsRunId(result, c);
    var e := BuildStdoutEnvelope(result, c);
    forall f | f in IDENTITY_FIELDS ensures !Contradicts(summary, e, f) {
      PyEqReflexive(Get(result, f));
    }
    PyEqReflexive(Get(result, RUN_ID));
  }

  /** Two views that differ only in the capture block give the same answers. */
  lemma {:induction false} CaptureIsNotRead(m: Fields, j: Json, schema: string, source: Option<string>)
    ensures var n := m[CAPTURE := j];
      && SchemaBlockers(n, schema) == SchemaBlockers(m, schema) && SourceBlockers(n, source) == SourceBlockers(m, source)
      && JournalBlockers(n) == JournalBlockers(m)
      && Get(n, OUTCOME) == Get(m, OUTCOME)
  {
    hide PyEq, CAPTURE, SCHEMA_VERSION, SOURCE_KIND, NONTERMINAL, OUTCOME, ABSENT, IsTerminal,
         PUBLICATION, CLEANUP, LOCK_CLOSED, LOCK_ABSENT, LOCK_REASON, SAFETY_EXPECT;
    ReadFieldsAreNotCapture();
  }

  lemma {:induction false} ExitIgnoresCapture(m: Fields, j: Json)
    ensures ExitBlockers(m[CAPTURE := j]) == ExitBlockers(m)
    ensures MissingFields(m[CAPTURE := j], ENVELOPE_ONLY) == MissingFields(m, ENVELOPE_ONLY)
  {
    hide CAPTURE, PUBLICATION, CLEANUP, LOCK_CLOSED, LOCK_ABSENT, LOCK_REASON, SAFETY_EXPECT, MissingFields, ClauseBlockers,
         SCHEMA_VERSION, SOURCE_KIND, NONTERMINAL, OUTCOME;
    ReadFieldsAreNotCapture();
    MissingIgnores(m, j, ENVELOPE_ONLY);
    ClauseIgnores(m, j, PUBLICATION, Str("WRITTEN"));
    ClauseIgnores(m, j, CLEANUP, Str("CLEAN"));
    ClauseIgnores(m, j, LOCK_CLOSED, Bool(true));
    ClauseIgnores(m, j, LOCK_ABSENT, Bool(true));
  }

  lemma ClauseIgnores(m: Fields, j: Json, field: string, expected: Json)
    requires field != CAPTURE
    ensures ClauseBlockers(m[CAPTURE := j], field, expected) == ClauseBlockers(m, field, expected)
  {
    hide CAPTURE, PyEq;
  }

  lemma {:induction false} MissingIgnores(m: Fields, j: Json, fields: seq<string>)
    requires CAPTURE !in fields
    ensures MissingFields(m[CAPTURE := j], fields) == MissingFields(m, fields)
  {
    hide CAPTURE;
    if fields != [] {
      MissingIgnores(m, j, fields[..|fields| - 1]);
    }
  }

  lemma {:induction false} SafetyIgnores(m: Fields, j: Json, specs: seq<(string, bool)>)
    requires forall k | 0 <= k < |specs| :: specs[k].0 != CAPTURE
    ensures SafetyBlockers(m[CAPTURE := j], specs) == SafetyBlockers(m, specs)
    ensures SafetyFails(m[CAPTURE := j], specs) == SafetyFails(m, specs)
  {
    hide CAPTURE, PyEq;
    if specs != [] {
      SafetyIgnores(m, j, specs[..|specs| - 1]);
    }
  }

  /**
   Envelope round trip: an envelope built from a run result that extends the persisted summary
   never triggers a run mismatch, and the pair classifies exactly as the run result itself does.
   */
  lemma {:induction false} EnvelopeRoundTrip(i: Inputs, result: Fields, c: CaptureInfo)
    requires Extends(result, OrEmpty(i.summary))
    ensures Meaning(i.(envelope := Some(BuildStdoutEnvelope(result, c)))) == Meaning(i.(summary := Some(result), envelope := None))
    ensures IdentityMismatches(i.summary, Some(BuildStdoutEnvelope(result, c))) == []
  {
    hide SafetyBlockers, SafetyFails, SAFETY_EXPECT, SchemaBlockers, SourceBlockers, JournalBlockers, ExitBlockers, MissingFields, CAPTURE,
         CaptureFields, IdentityMismatches, IsWrongRun, OUTCOME, ENVELOPE_ONLY;
    var e := BuildStdoutEnvelope(result, c);
    var x, y := i.(envelope := Some(e)), i.(summary := Some(result), envelope := None);
    var j := Obj(CaptureFields(result, c));
    assert Merged(x) == result[CAPTURE := j];
    assert Merged(y) == result;
    OwnEnvelopeMatches(OrEmpty(i.summary), result, c);
    MismatchExactly(i.summary, Some(e));
    NoEnvelopeMatches(result);
    CaptureIsNotRead(result, j, i.expectSchema, i.expectSource);
    ExitIgnoresCapture(result, j);
    ReadFieldsAreNotCapture();
    SafetyIgnores(result, j, SAFETY_EXPECT);
  }

  lemma NoEnvelopeMatches(result: Fields)
    ensures IdentityMismatches(Some(result), None) == []
  {
  }
}
