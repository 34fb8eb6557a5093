# Paper-trading pipeline: Dafny model and proofs

This project models the offline core of a paper-trading research pipeline and proves what its parts
promise each other. It is written for Dafny 4.11; `dafny verify dfyconfig.toml` checks the whole project.

The model follows five connected cores.

1. **Date.md and intake.** Research records are printed to a Markdown file, read back by a one-pass line
   machine, and kept in a unique-id store written in one transaction (`PyText`, `DateIds`, `SourceRecords`,
   `DateMdParser`, `DateMdRender`, `DateMdRoundTrip`, `DateMdPrinted`, `Intake`). The reader is proved equal to "cut at
   headings, check each block"; printing then reading gives back the records exactly when no continuation
   line of a multi-line field is mistaken for a heading or a symbol/market line.
2. **Evidence chain.** Scout packet, Scout validation, Allocator packet and validation, Analysis packet and
   validation, assembly (`Sorting`, `DateIdChecks`, `Allocator`, `Analysis`, `ScoutPacket`, `EvidenceChain`).
   No later stage can introduce evidence, and the assembler never refuses a validated chain.
3. **Handoff manifest and follow-up plan.** A manifest builder and an independent verifier over a file system,
   the write-verify-replace commit protocol with every fault the operating system may inject, and a plan
   generator judged by an independent validator (`PyJson`, `CanonicalOrder`, `HandoffFiles`, `HandoffVerify`,
   `HandoffBuild`, `HandoffSoundness`, `HandoffCommit`, `HandoffHost`, `PlanValidator`, `PlanSoundness`,
   `PlanScripts`, `PlanGenerator`, `PlanFlags`, `PlanLiterals`, `PlanAcceptance`, `PlanForeignScript`). What
   either checker accepts is said of the parsed files themselves, in both directions.
4. **Paper-day verdict.** The evidence stream, the summary/envelope overlay, the classifier, the envelope and
   its argument redaction (`PaperEvidence`, `PaperReadings`, `PaperDay`, `PaperDayView`, `ArgRedaction`,
   `SecretNames`).
5. **Fast-loop command line.** `main` as a machine over a trace of effects whose results are arbitrary
   (`FastLoopCli`).

## Conventions

- A Python string is a sequence of Unicode scalar values; `str.strip`, `str.isspace` and `str.splitlines` use
  their exact Unicode tables. Lower-casing is exact as far as the ASCII patterns it is compared with can tell.
- `Decimal` percentages are reals. Instants are integers in microseconds.
- Decoded JSON is a datatype; `PyEq` is Python's `==` on it, so `1 == True` and `0 == 0.0`.
- An object the code mutates is a class (`SectionReader`, `DateIdStore`, `ExportPath`, `FileSystem`); a loop is a
  method proved equal to a specification function, about which the lemmas speak.
- A raised error is an `Err`, a `Some` fault, or the outcome `Raised`/`Raises` when no handler catches it.

## What turned out different from the promise

- **Round trip.** Fields are stripped but may hold many lines. A continuation line that reads as a heading adds a
  section, and one that reads as a symbol or market line replaces the value. `RoundTripExactly` gives the exact
  condition, `HeadingInSummaryBreaksRoundTrip` the failing family, `FullExportPassesExactly` what it means for the
  export that follows an intake.
- **Build then verify.** The verifier strips the recorded path, the builder does not. `CompletenessExactly` says
  precisely when a built manifest is accepted; `TrailingSpaceIsRefused` is the failing family.
- **Commit.** The temporary file survives exactly when it was created, the run stopped before replacing, and removing it
  was itself refused (`WriteManifestOutput`). After a commit the manifest verifies
  in place exactly when no artifact is looked up at the output, or its recorded evidence happens to describe the new
  manifest (`CommittedExactly`); for a plan or a validation report it never does (`ManifestIsNoPlan`).
- **Intake.** The batch is committed before Date.md is written, and the file is written in place. When the export fails,
  the store keeps the batch and the file is old or cut short (`OutputLeft`). A run is all or nothing unless a non-empty
  clean new batch meets a directory as output with overwriting allowed (`AtomicExactly`, `DirectoryOutputCommitsAndCrashes`),
  or an operation is refused after the commit (`AtomicUnderFaultsExactly`).
- **Scripts of a plan.** Only the first script of a command line is looked at. A line may name its step's own script and
  then any other: `ForeignManifestAccepted` gives the manifest. Every script a generated plan mentions is its step's own
  exactly when that holds of the values the manifest supplies (`OwnScriptsOnlyExactly`).
- **Safety scalars** are compared with `!=`, so `1` passes for `True`; the clean-exit clauses also compare types.
  `PassExactly` keeps both readings apart.

## Model

| member | source | states |
|---|---|---|
| DateIds.CanonicalIsFixpoint | src/domain/identifiers.py:218-248 | constructing a Date-ID from a canonical value returns that value |
| DateIds.CanonicalCharacters | src/domain/identifiers.py:69-97 | a canonical Date-ID holds digits and one dash, at its seventh place: no whitespace, bracket or line break |
| DateIds.AcceptedTokensExactly | src/domain/identifiers.py:218-248 | a token is accepted exactly when, stripped, it is a canonical id with extra zeros before its number, and it stands for that id |
| DateIds.MonthsFillYear | src/domain/identifiers.py:218-248 | the day limits of the twelve months fill a year of 365 or 366 days, each month beginning where the last one ends |
| DateMdParser.BlocksPartitionLines | ops/run_date_md_smoke.py:153-181 | cutting at headings loses and moves no line, and neither the preamble nor a block body holds a heading |
| DateMdParser.ParseReportsFirstOffendingBlock | ops/run_date_md_smoke.py:122-186 | the document is accepted with one section per block, in order, or the error is that of the first offending block |
| DateMdParser.ParsedIdsDistinct | ops/run_date_md_smoke.py:122-151 | ids of an accepted document are canonical and never repeat, and there is at least one |
| DateMdParser.FaultExactly | ops/run_date_md_smoke.py:122-151 | each error is reported exactly for the blocks it describes, over their lines: bad heading, repeated id, no timestamp, no summary, no payload hash, in that order |
| DateMdParser.SectionExactly | ops/run_date_md_smoke.py:153-179 | the section of a good block has the heading's id and the last symbol and market its lines give |
| DateMdParser.HeadingExactly | ops/run_date_md_smoke.py:27-27 | a line is a heading exactly when, stripped, it is `## [token]` with a non-empty token free of `]` |
| DateMdParser.FieldExactly | ops/run_date_md_smoke.py:99-105 | a line gives a value exactly when, stripped, it is the prefix followed by it up to whitespace |
| DateMdParser.SectionReader.FlushSection | ops/run_date_md_smoke.py:122-151 | closing a section reports the first missing part or a repeated id, otherwise appends exactly the section read |
| DateMdParser.SectionReader.AbsorbLine | ops/run_date_md_smoke.py:167-179 | after each line the open section is exactly what its block says so far: three flags, last symbol, last market |
| DateMdParser.ParseDateMdSections | ops/run_date_md_smoke.py:108-186 | the one-pass machine computes, on every text, the block-by-block meaning |
| DateMdRender.RenderDateMd | ops/research_source_intake.py:222-252 | the line list built record by record is the rendered document |
| DateMdPrinted.PrintedLines | ops/research_source_intake.py:222-252 | the printed lines of all records, many-line fields included: header, heading, and every field's own value behind its label in order, an absent one left out |
| DateMdPrinted.BlocksCarryOwnValues | ops/research_source_intake.py:232-250 | for single-line records each block read back carries the record's id and its own value under every label, none where the field is absent |
| DateMdRoundTrip.RecordBlockReads | ops/research_source_intake.py:232-250 | the block printed for a valid record has the record's id and all three required fields |
| DateMdRoundTrip.SymbolKeptExactly | ops/research_source_intake.py:232-250 | the symbol is read back exactly when it is one line and no later continuation line reads as another; an absent one exactly when no continuation line reads as any |
| DateMdRoundTrip.MarketKeptExactly | ops/research_source_intake.py:232-250 | the same for the market |
| DateMdRoundTrip.BlockPerRecord | ops/run_date_md_smoke.py:153-181 | the document cuts into at least one block per record, and exactly one each if and only if no continuation line is a heading |
| DateMdRoundTrip.RoundTripExactly | ops/research_source_intake.py:222-252 | printing then reading gives one section per record, in order, with id, symbol, market and flags, if and only if the records are non-empty, distinct and faithful |
| DateMdRoundTrip.SingleLineRoundTrip | ops/run_date_md_smoke.py:108-186 | single-line records always round-trip |
| DateMdRoundTrip.HeadingInSummaryBreaksRoundTrip | ops/research_source_intake.py:222-252 | a summary with a heading line in it never round-trips |
| Intake.ParseJsonlRecords | ops/research_source_intake.py:161-201 | a batch is accepted exactly when no line is faulty, with one record per good line and distinct ids; otherwise the first faulty line is reported |
| Intake.DateIdStore.SaveRecord | src/data/date_id_store.py:65-99 | an insert succeeds exactly when the id is new, and appends the record |
| Intake.DateIdStore.Rollback | src/data/date_id_store.py:48-56 | the open view returns to the committed rows |
| Intake.DateIdStore.ListRecords | src/data/date_id_store.py:112-130 | every row once, ids strictly ascending |
| Intake.SaveRecordsToStore | ops/research_source_intake.py:272-283 | the whole batch is stored exactly when no id repeats or is stored already; otherwise the store is unchanged and the first offending id is named |
| Intake.ExportDateMd | ops/research_source_intake.py:255-258 | the file is replaced by the whole text, or kept when it cannot be opened, or cut short when writing stops |
| Intake.RunNormal | ops/research_source_intake.py:369-396 | success exactly for a clean batch of new ids, a free or forced output that is no directory, and nothing refused; its own refusals change neither store nor file; a committed batch stays whatever follows; after a successful uncapped run the file passes the smoke check's store stage exactly when a record is stored and none hides a heading |
| Intake.AtomicExactly | ops/research_source_intake.py:378-386 | when nothing is refused, a run succeeds or changes nothing, if and only if it is not a non-empty clean new batch sent to a directory with overwriting allowed |
| Intake.AtomicUnderFaultsExactly | ops/research_source_intake.py:378-386 | under any refusals a non-empty batch succeeds or changes nothing, if and only if it is not committed or everything succeeds |
| Intake.OutputLeft | ops/research_source_intake.py:255-258 | what stands at the output after a run: the whole export, what was there, or the export cut short |
| Intake.DirectoryOutputCommitsAndCrashes | ops/research_source_intake.py:379-386 | with a directory as forced output every clean new batch is committed and the run then crashes |
| Intake.RunExportOnly | ops/research_source_intake.py:399-422 | refused exactly for an existing output without force or a missing store; re-exports the store without touching it |
| Intake.RunDateMdSmoke | ops/run_date_md_smoke.py:221-297 | accepts exactly when size, reading, store consistency and required coverage hold, otherwise reports the first stage that fails; a pair is covered exactly when some stored record, or without a store some section, has its market and symbol, and the pairs reported missing are the required ones not covered |
| Intake.SelectionPasses | ops/run_date_md_smoke.py:253-269 | any exported selection of stored records without false headings passes the store stage |
| Intake.FullExportPassesExactly | ops/research_source_intake.py:286-293 | the uncapped export of a store passes the smoke check's store stage if and only if the store is not empty and no stored field hides a heading |
| DateIdChecks.ValidateDateIds | src/data/date_id_validator.py:29-58 | reports on each distinct id once, sorted by code, path and message |
| DateIdChecks.DateIdReportExact | src/data/date_id_validator.py:87-129 | the report is empty exactly when every cited id is stored, not from the future and not stale; it reports cited ids only, in order |
| DateIdChecks.IssueExactly | src/domain/staleness.py:11-48 | a stored id is from the future exactly when its source is, stale exactly when older than its kind's limit of 24 hours, 7, 30, 90 or 365 days, and fine otherwise |
| DateIdChecks.MissingExactly | src/data/date_id_validator.py:93-101 | an id is reported missing exactly when no stored record has it |
| DateIdChecks.MapDateIdIssues | src/allocator/validator.py:202-216 | issues are taken over in order under the owner's codes |
| DateIdChecks.MappedReport | src/allocator/validator.py:227-239 | taking over loses no issue, and sorting again changes nothing |
| DateIdChecks.StoredIdsAreNeverMissing | src/data/date_id_validator.py:87-129 | citations of stored ids are never reported missing |
| Allocator.CollectBusinessIssues | src/allocator/validator.py:109-199 | one issue per violated rule, in order of the six rules |
| Allocator.ViolationsSorted | src/allocator/validator.py:219-224 | sorting leaves the collected business issues as they are |
| Allocator.ExtractDateIds | src/allocator/validator.py:58-71 | every reason of every list is cited, in reading order, repetitions kept |
| Allocator.CitedInExact | src/allocator/validator.py:58-71 | an id is extracted exactly when some reason of some list carries it |
| Allocator.CitedExactly | src/allocator/validator.py:58-71 | a decision cites exactly the ids of the reasons in its six lists, once for each reason |
| Allocator.RulesHoldExactly | src/allocator/validator.py:109-199 | the rules hold exactly when weights total 100, gold is in the mode's band, cash in 10 to 30, both restated figures agree and the consistency check passed |
| Allocator.Validate | src/allocator/validator.py:80-90 | computes the merged verdict |
| Allocator.VerdictExactly | src/allocator/validator.py:219-255 | passed exactly when the decision keeps its six rules and every reason in it, in whichever list, cites a usable id; the first issue is the highest-priority violated rule, a Date-ID issue only if none is violated |
| Allocator.PassingDecisionBands | src/allocator/rules.py:8-42 | in a passing decision cash and scaled shares total 100, and whole-account gold lies in [12.6, 19.8] or [10.5, 22.5] |
| Allocator.BandsAreTight | src/allocator/rules.py:8-42 | all four ends of the two bands are reached by decisions that satisfy every rule |
| Analysis.ResolveTolerance | ops/validate_analysis_raw_json.py:67-114 | accepted exactly when the context is an object and both pairs are absent or two percents; never half a pair; a command-line pair replaces the input's |
| Analysis.ValidateAnalysis | src/analysis/validator.py:58-80 | computes the merged analysis verdict |
| Analysis.AnalysisCitedExactly | src/analysis/validator.py:37-49 | an analysis cites exactly the ids of the reasons in its five lists, once for each reason |
| Analysis.AnalysisVerdictExactly | src/analysis/validator.py:117-148 | passed exactly when the target is within the tolerance and every reason cites a usable id; a tolerance issue comes first |
| ScoutPacket.SelectStoreRecords | ops/build_scout_manual_packet.py:123-151 | keeps, in store order, exactly the global, enabled and enabled-disclosure records that Date.md names |
| ScoutPacket.BuildInputKeepsNewest | src/scout/input_builder.py:27-122 | newest first, as many eligible records as the limit admits, and nothing left out ranks before anything kept |
| ScoutPacket.BuildScoutPacket | ops/build_scout_manual_packet.py:264-346 | smoke check with its error, selection and input building in sequence |
| ScoutPacket.ScoutPacketIsEvidence | ops/build_scout_manual_packet.py:308-346 | every record of a packet is stored, named in Date.md and admitted by scope and kind |
| ScoutPacket.ScoutPacketExactly | ops/build_scout_manual_packet.py:123-151 | a packet holds exactly the stored records that Date.md names and scope, universe and kind admit, newest first; what a full one leaves out comes before nothing it holds |
| ScoutPacket.PacketBuiltExactly | ops/build_scout_manual_packet.py:264-346 | a packet is built exactly when the limit is positive, the smoke check passes for all enabled pairs, the filter is not empty and there is evidence |
| EvidenceChain.CollectScoutCited | ops/validate_scout_raw_json.py:143-153 | the cited ids, ascending and without repetition |
| EvidenceChain.ScoutCitedExactly | ops/validate_scout_raw_json.py:143-153 | a summary cites exactly the ids of the reasons of its positive, negative and neutral factors |
| EvidenceChain.CheckScoutCitations | ops/validate_scout_raw_json.py:172-183 | reports the first cited id outside the packet or Date.md |
| EvidenceChain.CheckCitations | ops/validate_allocator_raw_json.py:151-165 | reports the first cited id that is bracketed, not allowed or not in Date.md |
| EvidenceChain.CitationFaultExactly | ops/validate_allocator_raw_json.py:151-165 | the first citation that is not citable is reported as bracketed, else not allowed, else not in Date.md |
| EvidenceChain.VerifyCitedInDateMd | ops/assemble_paper_loop_input.py:259-267 | reports the first cited id outside Date.md |
| EvidenceChain.ScoutStageExactly | ops/validate_scout_raw_json.py:156-183 | a summary is accepted exactly when its universe matches and every reason of it cites an id of the packet and of Date.md; those ids are returned, ascending |
| EvidenceChain.AllocatorPacketStageExactly | ops/build_allocator_manual_packet.py:618-650 | a packet is built exactly when the universe agrees and every reason of the Scout cites a Date.md id; it allows exactly those ids |
| EvidenceChain.AllocatorStageExactly | ops/validate_allocator_raw_json.py:218-254 | a decision is accepted exactly when it matches the packet's universe, keeps its rules and every reason cites an allowed, usable Date.md id; those ids are returned, ascending |
| EvidenceChain.AnalysisStageExactly | ops/validate_analysis_raw_json.py:177-214 | the same for an analysis, with market, symbol and tolerance |
| EvidenceChain.AssemblyStageExactly | ops/assemble_paper_loop_input.py:445-480 | the assembler accepts exactly when universes agree and every reason of summary, allocation and analysis cites a Date.md id; it returns exactly those ids |
| EvidenceChain.AllocatorPacketIsScoutCitations | ops/build_allocator_manual_packet.py:643-650 | after a validated Scout the allocator packet allows exactly the Scout's citations |
| EvidenceChain.AnalysisPacketIsScoutCitations | ops/build_analysis_manual_packet.py:553-567 | after a validated allocator decision the analysis packet allows exactly the Scout's citations: the union adds nothing |
| EvidenceChain.ProvenanceClosure | ops/validate_analysis_raw_json.py:200-214 | every reason of the allocation and of the analysis cites an id that some reason of the Scout cites, a record of its packet, named in Date.md and stored |
| EvidenceChain.AssemblerAcceptsValidatedChain | ops/assemble_paper_loop_input.py:230-289 | the assembler's universe, citation and store checks cannot fail on a validated chain |
| EvidenceChain.MembershipExcludesMissing | ops/validate_allocator_raw_json.py:139-165 | after the membership checks no cited id can be reported missing |
| CanonicalOrder.CheckOrder | ops/verify_kr_end_to_end_handoff_manifest.py:169-182 | membership, seen-set and sorted positions accept exactly the subsequences of the canonical tuple; otherwise the first fault is reported |
| CanonicalOrder.SubsequenceExactly | ops/validate_kr_end_to_end_preflight_plan.py:179-192 | a list is a subsequence exactly when its elements are known and stand at increasing positions |
| CanonicalOrder.EqualsItsSort | ops/validate_kr_end_to_end_preflight_plan.py:191-192 | a list equals its own sort exactly when it never decreases |
| HandoffVerify.ValidateManifestSchema | ops/verify_kr_end_to_end_handoff_manifest.py:340-394 | entries in order with the first fault reported, roles a subsequence of the canonical ones |
| HandoffVerify.VerifyManifest | ops/verify_kr_end_to_end_handoff_manifest.py:397-421 | base, manifest, schema and entries in order; accepted only if no entry is at fault; reads only |
| HandoffSoundness.EntryExactly | ops/verify_kr_end_to_end_handoff_manifest.py:185-238 | the schema accepts exactly the JSON records of entries, and reads the entry they record |
| HandoffSoundness.FileExactly | ops/verify_kr_end_to_end_handoff_manifest.py:251-337 | an entry passes exactly when its file is inside the base with the recorded size and digest and its JSON object says what the role must, as recorded: a plan under review, a complete ok report, a summary not other than ok |
| HandoffSoundness.VerifiedExactly | ops/verify_kr_end_to_end_handoff_manifest.py:340-421 | accepted exactly when the manifest file records, with its fixed values, entries of known roles in order and each entry describes its file |
| HandoffVerify.AcceptedManifestIsSound | ops/verify_kr_end_to_end_handoff_manifest.py:340-394 | an accepted manifest has exactly the known fields, each fixed one with its value, and one canonical role for each counted artifact |
| HandoffVerify.AcceptancePinsArtifacts | ops/verify_kr_end_to_end_handoff_manifest.py:295-337 | two disks that accept the same manifest hold artifacts of equal size and digest |
| HandoffVerify.ReportAlwaysValid | ops/verify_kr_end_to_end_handoff_manifest.py:459-594 | the report of every accepted verification passes the report's own schema check |
| HandoffBuild.BuildHandoffManifest | ops/build_kr_end_to_end_handoff_manifest.py:199-219 | supplied artifacts indexed in canonical order, the first failure stops |
| HandoffSoundness.BuiltExactly | ops/build_kr_end_to_end_handoff_manifest.py:76-219 | the builder succeeds exactly with one entry per supplied role, in order, each recording the supplied file's path, size, digest and what its JSON says |
| HandoffBuild.MetadataAgree | ops/build_kr_end_to_end_handoff_manifest.py:76-107 | whatever metadata the builder accepts, the verifier reads the same |
| HandoffBuild.IndexAllFromDisk | ops/build_kr_end_to_end_handoff_manifest.py:110-145 | indexed evidence describes the bytes on the disk; roles are in canonical order |
| HandoffBuild.ManifestSchemaOfIndexed | ops/verify_kr_end_to_end_handoff_manifest.py:185-238 | every built manifest passes the verifier's schema, entry for entry |
| HandoffBuild.CompletenessExactly | ops/verify_kr_end_to_end_handoff_manifest.py:295-337 | a built manifest is accepted exactly when every artifact is found under its stripped path, inside the base, with the recorded evidence |
| HandoffBuild.TrimmedPathsVerify | ops/build_kr_end_to_end_handoff_manifest.py:110-145 | without trailing whitespace in the paths, what the builder accepts the verifier accepts |
| HandoffBuild.TrailingSpaceIsRefused | ops/verify_kr_end_to_end_handoff_manifest.py:108-111 | a path that strips to another one is indexed and then refused |
| HandoffHost.LawfulHostExists | ops/build_kr_end_to_end_handoff_manifest.py:60-73 | the laws asked of path resolution, digest and JSON hold together in a host that is constructed |
| HandoffHost.RefusedInputExists | ops/verify_kr_end_to_end_handoff_manifest.py:108-111 | a host, a disk and a path for which the built manifest is refused |
| HandoffCommit.StageAndReplace | ops/build_kr_end_to_end_handoff_manifest.py:236-247 | the output changes only in one step, to bytes that verified; the temporary file is left exactly when it could be opened and the run stopped |
| HandoffCommit.StageAndCleanUp | ops/build_kr_end_to_end_handoff_manifest.py:236-250 | with clean-up the temporary file is left exactly when, besides, its removal is refused |
| HandoffCommit.WriteManifestOutput | ops/build_kr_end_to_end_handoff_manifest.py:222-250 | in every intermediate state the output is old or wholly the verified manifest and nothing else differs; the temporary file remains if and only if it was created, the run stopped and its removal was refused; success exactly characterized |
| HandoffCommit.InputsWithinBase | ops/build_kr_end_to_end_handoff_manifest.py:174-182 | names the first input outside the base directory |
| HandoffCommit.BuildHandoff | ops/build_kr_end_to_end_handoff_manifest.py:253-284 | succeeds exactly when inputs are accepted, artifacts recoverable, the output writable and nothing refused; in every intermediate state, and after a failure, every file but the temporary one is as before unless the verified manifest is in place |
| HandoffCommit.StagedExactly | ops/build_kr_end_to_end_handoff_manifest.py:236-240 | the staged manifest verifies exactly when its artifacts are recoverable on the disk before the run |
| HandoffCommit.CommittedExactly | ops/build_kr_end_to_end_handoff_manifest.py:222-250 | after the commit the manifest verifies in place exactly when no artifact is looked up at the output or its evidence still matches |
| HandoffCommit.ManifestIsNoPlan | ops/verify_kr_end_to_end_handoff_manifest.py:263-278 | overwriting an indexed plan or validation report always breaks verification |
| PlanValidator.ExtractScripts | ops/validate_kr_end_to_end_preflight_plan.py:164-176 | the first script of every line that is neither blank nor a comment, in order |
| PlanValidator.ValidatePlan | ops/validate_kr_end_to_end_preflight_plan.py:300-351 | head, steps, order, blocked names and sensitive fields in sequence, the first fault reported |
| PlanSoundness.StepExactly | ops/validate_kr_end_to_end_preflight_plan.py:236-297 | a step is accepted exactly when its fields, flags and labels are as required, its texts are clean and order nothing, and its lines start no script but its own allowlisted one |
| PlanSoundness.BlockedExactly | ops/validate_kr_end_to_end_preflight_plan.py:224-233 | the walk refuses exactly when some path leads to a blocked field name, in either case |
| PlanSoundness.AcceptedExactly | ops/validate_kr_end_to_end_preflight_plan.py:300-351 | a plan is accepted exactly when its head, steps, order, field names and texts are acceptable; the ids and scripts reported are those of its steps |
| PlanValidator.AcceptedPlanIsSafe | ops/validate_kr_end_to_end_preflight_plan.py:236-351 | any accepted plan: canonical steps in order, each under operator review with safe lines whose first script is allowlisted, and no blocked name at any depth |
| PlanGenerator.BuildFollowupSteps | ops/preflight_kr_end_to_end_intake.py:683-825 | the planned steps are the candidates whose product is not given, in canonical order |
| PlanFlags.PlannedExactly | ops/preflight_kr_end_to_end_intake.py:683-825 | the price, dart and concatenation steps are planned exactly when their product is not given, the other five always |
| PlanFlags.SettledFiles | ops/preflight_kr_end_to_end_intake.py:656-680 | every manifest settles the files of its plan: the given value, or a name under the day's directory |
| PlanFlags.MappingFlags | ops/preflight_kr_end_to_end_intake.py:694-706 | the mapping step passes the manifest's universe and provider mapping |
| PlanFlags.PriceFlags | ops/preflight_kr_end_to_end_intake.py:708-725 | the price step passes universe, mapping, store, its own snapshot directory and output |
| PlanFlags.DartFlags | ops/preflight_kr_end_to_end_intake.py:727-744 | the dart step passes universe, mapping, store, its own snapshot directory and output |
| PlanFlags.IntakeFlags | ops/preflight_kr_end_to_end_intake.py:762-772 | the intake step passes the combined file and only validates |
| PlanFlags.CombinedFlags | ops/preflight_kr_end_to_end_intake.py:773-789 | the combined step passes universe, combined file, store, Date.md output, packet directory and budget profile |
| PlanFlags.DateMdFlags | ops/preflight_kr_end_to_end_intake.py:790-801 | the Date.md step passes universe, Date.md, store and, where required, the coverage flag |
| PlanFlags.ScoutFlagsOf | ops/preflight_kr_end_to_end_intake.py:805-823 | the packet step passes universe, Date.md, store and packet directory |
| PlanFlags.StepsConnect | ops/preflight_kr_end_to_end_intake.py:656-825 | what the price and dart steps write is concatenated into what both intake steps read, and later steps read the store and the Date.md the combined step writes |
| PlanGenerator.GeneratedSteps | ops/preflight_kr_end_to_end_intake.py:683-825 | generated steps are never empty, well formed, allowlisted, and their ids a subsequence of the canonical ids |
| PlanGenerator.PlanHasNoBlockedKey | ops/validate_kr_end_to_end_preflight_plan.py:224-233 | no generated plan has a blocked field name at any depth |
| PlanGenerator.StepExactly | ops/validate_kr_end_to_end_preflight_plan.py:236-297 | a generated step is accepted exactly when its lines pass the screens and name no script first but its own |
| PlanGenerator.GeneratedPlanAcceptedExactly | ops/preflight_kr_end_to_end_intake.py:860-893 | a generated plan is accepted exactly when manifest path, name and lines pass the text screens and each line names no script first but its step's own; it then reports the planned ids, and scripts plus manual steps are all steps |
| PlanAcceptance.HeadNamesScript | ops/preflight_kr_end_to_end_intake.py:695-810 | the first line of a script step is attributed to exactly that script |
| PlanAcceptance.AcceptedByValues | ops/preflight_kr_end_to_end_intake.py:656-825 | a generated plan is accepted exactly when the manifest's path, name and the argument lines made from its values pass: no fixed line is ever refused |
| PlanScripts.MentionsAreOccurrences | ops/validate_kr_end_to_end_preflight_plan.py:38-38 | the pattern matches at a place exactly when a whole script path stands there |
| PlanScripts.AllScriptsExactly | ops/validate_kr_end_to_end_preflight_plan.py:164-176 | mentions never overlap, so cutting behind the first one again and again lists exactly the scripts a text mentions |
| PlanScripts.OwnOnlyExactly | ops/validate_kr_end_to_end_preflight_plan.py:173-175 | an accepted line mentions its step's own script only if and only if what follows the first script does |
| PlanForeignScript.ForeignManifestAccepted | ops/validate_kr_end_to_end_preflight_plan.py:285-292 | a manifest as the loader yields it, whose accepted plan mentions a script that is neither the step's own nor allowlisted |
| PlanAcceptance.ArgMentions | ops/preflight_kr_end_to_end_intake.py:656-825 | an argument line mentions exactly the scripts its value mentions |
| PlanAcceptance.OwnScriptsOnlyExactly | ops/validate_kr_end_to_end_preflight_plan.py:164-176 | in every generated plan all mentioned scripts are their steps' own if and only if, for each planned script step, those mentioned in the supplied values are |
| ArgRedaction.SanitizeCommandArgs | ops/run_attended_paper_day.py:361-380 | the redaction machine replaces exactly values of secret flags and of secret assignments |
| SecretNames.SecretExactly | ops/run_attended_paper_day.py:356-358 | a name looks secret exactly when one of eleven markers stands at some place in it, in either case and with `-` or `_` |
| SecretNames.CaseAndDashIgnored | ops/run_attended_paper_day.py:356-358 | the answer is the same for names that differ in letter case and in `-` against `_` |
| SecretNames.ReadAlike | ops/run_attended_paper_day.py:357-357 | a letter reads as its capital, and `-` as `_` |
| SecretNames.SurroundingsIgnored | ops/run_attended_paper_day.py:356-358 | dashes and whitespace around a name change nothing, and a secret name stays secret inside any other |
| SecretNames.ValueExactly | ops/run_attended_paper_day.py:361-380 | a token is taken for a value exactly after an odd number of secret flags in a row |
| SecretNames.HiddenExactly | ops/run_attended_paper_day.py:361-380 | after an odd run of secret flags a token is hidden; otherwise a secret assignment keeps its name only, and any other token is echoed |
| SecretNames.FlagHidesNext | ops/run_attended_paper_day.py:376-380 | the token after a flag with a marker and no `=` is hidden, unless the flag is itself a value |
| ArgRedaction.NonInterference | ops/run_attended_paper_day.py:356-380 | two argument lists sanitize alike if and only if they differ only in secret values |
| ArgRedaction.SanitizingIsIdempotent | ops/run_attended_paper_day.py:361-380 | sanitizing twice is sanitizing once |
| ArgRedaction.OtherTokensUnchanged | ops/run_attended_paper_day.py:361-380 | length and all other tokens are kept, and secret assignments keep their name |
| PaperEvidence.ScanEvidence | ops/validate_paper_day_summary.py:124-202 | the stream fold equals its declarative meaning: counts, first failure, latest session and readiness, subcode totals |
| PaperEvidence.LinesAccounted | ops/validate_paper_day_summary.py:145-158 | rows plus malformed lines are all non-blank lines |
| PaperEvidence.SubcodesAccounted | ops/validate_paper_day_summary.py:198-201 | every total counts the rows with its subcode, and the totals together count all source-error rows with a subcode |
| PaperEvidence.FirstIsEarliest | ops/validate_paper_day_summary.py:161-167 | the recorded failure is the earliest failed-closed row |
| PaperEvidence.LastIsLatest | ops/validate_paper_day_summary.py:168-197 | the recorded session and readiness are the latest ones |
| PaperReadings.FailureExactly | ops/validate_paper_day_summary.py:161-167 | the recorded failure is exactly the earliest row whose event is failed_closed, with its four values |
| PaperReadings.SessionExactly | ops/validate_paper_day_summary.py:168-179 | the recorded session is exactly the latest one a snapshot states |
| PaperReadings.ReadinessExactly | ops/validate_paper_day_summary.py:180-197 | the recorded readiness is exactly the latest one a snapshot with a quote field states |
| PaperReadings.SubcodeExactly | ops/validate_paper_day_summary.py:198-201 | a subcode is recorded exactly when some source-error row names it |
| PaperDay.EnvelopeIdentityMismatch | ops/validate_paper_day_summary.py:214-244 | lists the identity fields that contradict |
| PaperDay.MismatchExactly | ops/validate_paper_day_summary.py:214-244 | a mismatch is reported exactly when an identity value present on both sides, or the captured run id, differs |
| PaperDay.CheckInputs | ops/validate_paper_day_summary.py:270-304 | run mismatch, summary and evidence errors block in order, a sensitive row fails |
| PaperDay.CheckSafety | ops/validate_paper_day_summary.py:317-326 | missing safety scalars block, wrong ones fail |
| PaperDay.Clause | ops/validate_paper_day_summary.py:414-428 | a present value that differs in value or type blocks |
| PaperDay.Classify | ops/validate_paper_day_summary.py:247-411 | the verdict, hard failures, blockers and missing fields in order |
| PaperDayView.PassExactly | ops/validate_paper_day_summary.py:247-385 | PASS exactly when integrity, identity, schema, safety, source, journal and clean-exit conditions all hold of what the two files say, the envelope first, and the outcome is PASS |
| PaperDayView.MergedIsView | ops/validate_paper_day_summary.py:261-265 | the overlaid view says under each key what the envelope says, or else what the summary says |
| PaperDayView.EnvelopeOutcomeStands | ops/validate_paper_day_summary.py:261-265 | an envelope's FAIL is FAIL and its NO_GO, when nothing is unsafe, NO_GO, whatever the summary says; PASS needs it to say PASS |
| PaperDayView.EnvelopeScalarDecides | ops/validate_paper_day_summary.py:317-326 | a safety scalar in the envelope decides over the summary's |
| PaperDayView.SummaryReadOtherwise | ops/validate_paper_day_summary.py:261-265 | a key the envelope lacks is read from the summary |
| PaperDayView.WrongRunExactly | ops/validate_paper_day_summary.py:214-244 | the run is another one exactly when run id, session date, symbol or captured run id differ |
| PaperDayView.ReasonsExactly | ops/validate_paper_day_summary.py:267-371 | each blocker, hard failure and missing field is reported exactly when it is true of the two files |
| PaperDayView.SafetyPrecedence | ops/validate_paper_day_summary.py:373-385 | FAIL exactly for a safety violation, a sensitive row or a FAIL outcome; NO_GO exactly when safe and so reported |
| PaperDay.ClauseExactly | ops/validate_paper_day_summary.py:414-428 | a present clause passes exactly when it is the expected value itself |
| PaperDay.NoEnvelopeNoPass | ops/validate_paper_day_summary.py:352-358 | without an envelope a summary lacking an envelope-only field never passes |
| PaperDay.WrongRunNoPass | ops/validate_paper_day_summary.py:264-277 | an envelope of another run never yields PASS |
| PaperDay.OrderIrrelevant | ops/validate_paper_day_summary.py:285-304 | reordering the evidence never changes the classification |
| PaperDay.AppendingNeverPasses | ops/validate_paper_day_summary.py:285-304 | appending evidence never turns another verdict into PASS |
| PaperReadings.IntactExactly | ops/validate_paper_day_summary.py:285-304 | readable evidence is intact exactly when no line is malformed and every row denies sensitive data outright, so a stream without rows is no obstacle by itself |
| PaperDay.EnvelopeRoundTrip | ops/run_attended_paper_day.py:404-429 | an envelope built from a result that extends the summary never mismatches, and the pair classifies exactly as the result itself |
| PaperDayView.EnvelopeHidesSecrets | ops/run_attended_paper_day.py:404-429 | two runs write the same envelope exactly when their arguments differ in secrets alone |
| FastLoopCli.ResolvedExactly | ops/run_paper_fast_loop.py:299-331 | a mode is resolved exactly when no two are asked for, and it is the one asked for or validation |
| FastLoopCli.FlagDecidesMode | ops/run_paper_fast_loop.py:299-331 | each flag selects its own mode, and a mode other than validation needs its flag |
| FastLoopCli.CheckArguments | ops/run_paper_fast_loop.py:1106-1166 | exactly the unfit argument combinations are refused before any effect, with the mode's outcome |
| FastLoopCli.RunBuildIntent | ops/run_paper_fast_loop.py:1321-1394 | effects in script order up to the first that does not go well |
| FastLoopCli.RunCli | ops/run_paper_fast_loop.py:1080-1448 | the trace and exit of every argument list and every world |
| FastLoopCli.WorkIsScriptPrefix | ops/run_paper_fast_loop.py:1173-1446 | every run does a prefix of its mode's effects, all but the last going well; a refusal does nothing |
| FastLoopCli.ExactlyOneSummary | ops/run_paper_fast_loop.py:334-347 | a run that ends emits exactly one summary, last; a run that raises emits none |
| FastLoopCli.ExitCodeTellsOutcome | ops/run_paper_fast_loop.py:1085-1089 | exit 0 exactly for PASS or VALID, 2 exactly for the refused live run |
| FastLoopCli.SucceedsExactly | ops/run_paper_fast_loop.py:1080-1448 | success exactly for one mode, fitting arguments, every effect going well and a summary that can be made |
| FastLoopCli.SucceedsByMode | ops/run_paper_fast_loop.py:1173-1446 | what must go well for success, mode by mode |
| FastLoopCli.CallsExactly | ops/run_paper_fast_loop.py:1173-1446 | a run calls no function but its mode's own, and a successful run has called it |
| FastLoopCli.FailuresExplained | ops/run_paper_fast_loop.py:1173-1446 | a run that fails after doing something reports the outcome its mode has for the effect it failed at |
| FastLoopCli.RaisesExactly | ops/run_paper_fast_loop.py:1173-1446 | an error leaves the program exactly at an effect whose error nothing contains, or in making the last summary |
| FastLoopCli.VerifyTouchesOnlyStdin | ops/run_paper_fast_loop.py:1172-1231 | the verify modes touch standard input and their verifier only |
| FastLoopCli.IntentOnlyAfterEvidence | ops/run_paper_fast_loop.py:1321-1394 | the intent builder runs at most once, only after flags, maximum age, three confirmations, stdin, config, one clock reading and PASS evidence, in that order |
| FastLoopCli.EnvironmentAndClock | ops/run_paper_fast_loop.py:1396-1404 | only three modes read the process environment, and no run reads the clock twice |

## Left out

- Non-ASCII decimal digits in Date-IDs: the identifier pattern also admits them before normalization; the model takes ASCII digits.
- The context-budget selector: a parameter of the intake, any function from stored to exported records.
- TOML loading, JSON and UTF-8 decoding, SHA-256, path resolution, `Decimal` contexts: parameters or datatypes; what the handoff theorems ask of them is `HandoffFiles.ResolvesShown`, `DigestsAreHex` and `ReadsBack`.
- Undecodable file names (lone surrogates) and files that exist but cannot be read.
- Loading checks on the packets between stages (non-empty lists, non-blank strings) and the optional validation summaries: they only add refusals.
- The assembler's market-price and currency checks, portfolio state and loop metadata: single conditionals beside the evidence checks.
- The Scout validator without a store: the store check is then left to the allocator packet, which always makes it.
- The symbol filter of `ScoutInputBuilder`, which the packet builder never uses.
- Wording of messages: a parameter of the allocator and analysis validators.
- Writing of packets and validated outputs (plain writes) and of reports, plans and envelopes (write and replace with nothing to verify).
- The `checks` and `observations` lists of the paper-day classifier: text for the operator that decides nothing.
- Text decoding errors while streaming evidence: they leave the validator unclassified.
- `NaN`, which the JSON reader also accepts and which differs from itself: JSON numbers here are integers and reals. With it a run result need not match its own envelope.
- Integers of more than 4300 digits, which the JSON printer refuses.
- PlanValidator.ValidatePlan: the class of word characters in the order-token screen is a parameter.
- FastLoopCli.RunCli: does not model what a summary contains besides its outcome, nor a failing write to standard output.
- Network, websocket, broker, ranking, prompt and report-rendering scripts: input and output over libraries outside the repository, or text only.
