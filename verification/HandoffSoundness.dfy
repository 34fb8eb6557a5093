/** What an accepted handoff manifest guarantees, said of the parsed files themselves. */
module HandoffSoundness {
  import opened Wrappers
  import opened PyText
  import opened PyJson
  import opened CanonicalOrder
  import opened HandoffFiles
  import opened HandoffVerify
  import opened HandoffBuild

  /** The text under a key, if there is one. */
  function TextAt(f: map<string, Json>, key: string): Option<string> {
    if key in f && f[key].Str? then Some(f[key].text) else None
  }

  // ----------------------------------------------------------------- manifests

  /** The fixed part of a manifest. */
  predicate IsManifestHead(f: map<string, Json>) {
    && f.Keys == {"version", "mode", "status", "stage", "generated_by", "artifacts", "artifacts_count",
                  "all_artifacts_present", "commands_execute_in_builder", "review_only"}
    && PyEq(f["version"], Int(1))
    && Has(f, "mode", Str("kr-end-to-end" + "-handoff-manifest"))
    && Has(f, "status", Str("ok")) && Has(f, "stage", Str("complete"))
    && Has(f, "generated_by", Str("ops/build_kr_end_to_end" + "_handoff_manifest.py"))
    && f["artifacts"].List? && f["artifacts"].items != []
    && Has(f, "artifacts_count", Int(|f["artifacts"].items|))
    && Has(f, "all_artifacts_present", Bool(true)) && Has(f, "commands_execute_in_builder", Bool(false)) && Has(f, "review_only", Bool(true))
  }

  /** The kind each role is indexed as. */
  predicate IsRoleOfKind(role: string, kind: string) {
    || (role == "preflight_summary" && kind == "json")
    || (role == "plan_md" && kind == "markdown")
    || (role == "structured_plan" && kind == "json")
    || (role == "validation_report" && kind == "json")
  }

  predicate IsTextOrNull(f: map<string, Json>, key: string) {
    key in f && (f[key].Null? || f[key].Str?)
  }

  /** A JSON value is the record of this entry; role and path are read without surrounding whitespace. */
  predicate IsEntry(j: Json, e: Entry) {
    && j.Obj?
    && var f := j.fields;
       && f.Keys == {"role", "path", "exists", "kind", "size_bytes", "sha256", "json_mode", "json_status", "json_stage"}
       && f["role"].Str? && Strip(f["role"].text) == e.role && IsRoleOfKind(e.role, e.kind)
       && f["kind"] == Str(e.kind) && f["exists"] == Bool(true)
       && f["path"].Str? && Strip(f["path"].text) == e.path && e.path != ""
       && f["size_bytes"] == Int(e.size) && e.size >= 0
       && f["sha256"] == Str(e.sha256) && IsSha256(e.sha256)
       && IsTextOrNull(f, "json_mode") && IsTextOrNull(f, "json_status") && IsTextOrNull(f, "json_stage")
       && e.meta == Metadata(TextAt(f, "json_mode"), TextAt(f, "json_status"), TextAt(f, "json_stage"))
  }

  // ----------------------------------------------------------------- artifacts

  /** What the JSON object in an artifact of this role must say, and which metadata records it. */
  predicate SaysForRole(role: string, f: map<string, Json>, meta: Metadata) {
    && meta == (if role == "structured_plan" then Metadata(Some("kr-end-to-end" + "-intake-followup-plan"), None, None)
                else Metadata(TextAt(f, "mode"), TextAt(f, "status"), TextAt(f, "stage")))
    && (role == "preflight_summary" ==> TextAt(f, "status") in {None, Some("ok")})
    && (role == "structured_plan" ==>
          Has(f, "mode", Str("kr-end-to-end" + "-intake-followup-plan")) && Has(f, "review_only", Bool(true)))
    && (role == "validation_report" ==>
          && Has(f, "mode", Str("kr-end-to-end-preflight" + "-plan-validation-report"))
          && Has(f, "status", Str("ok")) && Has(f, "stage", Str("complete")))
  }

  /** The file an entry points to is inside the base, has the recorded size and digest, and says what its role must. */
  predicate DescribesFile(h: Host, d: Disk, base: Option<Path>, e: Entry) {
    var p := h.resolve(e.path);
    && (base.Some? ==> base.value <= p)
    && p in d.files && |d.files[p]| == e.size && h.digest(d.files[p]) == e.sha256
    && (e.kind == "json" ==>
          && h.parse(d.files[p]).Parsed? && h.parse(d.files[p]).value.Obj?
          && SaysForRole(e.role, h.parse(d.files[p]).value.fields, e.meta))
  }

  lemma RoleTexts()
    ensures PREFLIGHT_SUMMARY == "preflight_summary" && PLAN_MD == "plan_md" && STRUCTURED_PLAN == "structured_plan"
    ensures VALIDATION_REPORT == "validation_report"
    ensures PLAN_MODE == "kr-end-to-end" + "-intake-followup-plan" && REPORT_MODE == "kr-end-to-end-preflight" + "-plan-validation-report"
  {
  }

  lemma {:induction false} RoleKindExactly(role: string, kind: string)
    ensures RoleKind(role) == Some(kind) <==> IsRoleOfKind(role, kind)
  {
    hide PREFLIGHT_SUMMARY, PLAN_MD, STRUCTURED_PLAN, VALIDATION_REPORT;
    RoleTexts();
    RoleLengths();
  }

  lemma {:induction false} MetadataExactly(role: string, f: map<string, Json>, meta: Metadata)
    requires IsRoleOfKind(role, "json")
    requires role == STRUCTURED_PLAN ==> meta.status.None? && meta.stage.None?
    ensures ActualMetadata(role, f) == Ok(meta) <==> SaysForRole(role, f, meta)
  {
    hide PREFLIGHT_SUMMARY, PLAN_MD, STRUCTURED_PLAN, VALIDATION_REPORT, PLAN_MODE, REPORT_MODE;
    RoleTexts();
    RoleLengths();
    assert |"json"| == 4 && |"markdown"| == 8;
  }

  lemma {:induction false} ContentExactly(h: Host, e: Entry, data: Bytes)
    requires IsRoleOfKind(e.role, e.kind)
    ensures ContentFault(h, e, data).None? <==>
      (e.kind == "json" ==>
         h.parse(data).Parsed? && h.parse(data).value.Obj? && SaysForRole(e.role, h.parse(data).value.fields, e.meta))
  {
    hide ActualMetadata, SaysForRole, IsRoleOfKind;
    if e.kind == "json" && h.parse(data).Parsed? && h.parse(data).value.Obj? {
      var f := h.parse(data).value.fields;
      PlanMetadata(e.role, f, e.meta);
      if e.role == STRUCTURED_PLAN ==> e.meta.status.None? && e.meta.stage.None? {
        MetadataExactly(e.role, f, e.meta);
      }
    }
  }

  lemma PlanMetadata(role: string, f: map<string, Json>, meta: Metadata)
    ensures SaysForRole(role, f, meta) && role == STRUCTURED_PLAN ==> meta.status.None? && meta.stage.None?
  {
    hide STRUCTURED_PLAN;
    RoleTexts();
  }

  lemma {:induction false} FileExactly(h: Host, d: Disk, base: Option<Path>, e: Entry)
    requires IsRoleOfKind(e.role, e.kind)
    ensures EntryFault(h, d, base, e).None? <==> DescribesFile(h, d, base, e)
  {
    hide ContentFault, SaysForRole, IsRoleOfKind;
    var p := h.resolve(e.path);
    if p in d.files {
      ContentExactly(h, e, d.files[p]);
    }
  }

  // -------------------------------------------------------------------- schema

  lemma SameKeys(a: set<string>, b: set<string>)
    ensures a - b == {} && b - a == {} <==> a == b
  {
    if a - b == {} && b - a == {} {
      assert forall x | x in a :: x in b by {
        forall x | x in a ensures x in b { assert x !in a - b; }
      }
      assert forall x | x in b :: x in a by {
        forall x | x in b ensures x in a { assert x !in b - a; }
      }
    }
  }

  lemma EntryKeysAre()
    ensures ENTRY_KEYS == {"role", "path", "exists", "kind", "size_bytes", "sha256", "json_mode", "json_status", "json_stage"}
  {
  }

  lemma EntryKeysIn()
    ensures "role" in ENTRY_KEYS && "path" in ENTRY_KEYS && "exists" in ENTRY_KEYS && "kind" in ENTRY_KEYS && "size_bytes" in ENTRY_KEYS
    ensures "sha256" in ENTRY_KEYS && "json_mode" in ENTRY_KEYS && "json_status" in ENTRY_KEYS && "json_stage" in ENTRY_KEYS
  {
  }

  /** The schema accepts exactly the records of entries, and reads the entry they record. */
  lemma {:induction false} EntryExactly(j: Json, e: Entry)
    ensures EntrySchema(j) == Ok(e) <==> IsEntry(j, e)
  {
    hide ENTRY_KEYS, Strip, RoleKind, IsRoleOfKind, IsSha256;
    EntryKeysAre();
    EntryKeysIn();
    if j.Obj? {
      SameKeys(j.fields.Keys, ENTRY_KEYS);
      RoleKindExactly(e.role, e.kind);
      BlankRole();
    }
  }

  lemma BlankRole()
    ensures RoleKind("").None?
  {
    hide PREFLIGHT_SUMMARY, PLAN_MD, STRUCTURED_PLAN, VALIDATION_REPORT;
    RoleLengths();
  }

  lemma TopLevelKeysAre()
    ensures TOP_LEVEL_KEYS == {"version", "mode", "status", "stage", "generated_by", "artifacts", "artifacts_count",
                               "all_artifacts_present", "commands_execute_in_builder", "review_only"}
  {
  }

  lemma TopLevelKeysIn()
    ensures "version" in TOP_LEVEL_KEYS && "mode" in TOP_LEVEL_KEYS && "status" in TOP_LEVEL_KEYS && "stage" in TOP_LEVEL_KEYS
    ensures "generated_by" in TOP_LEVEL_KEYS && "artifacts" in TOP_LEVEL_KEYS && "artifacts_count" in TOP_LEVEL_KEYS
    ensures "all_artifacts_present" in TOP_LEVEL_KEYS && "commands_execute_in_builder" in TOP_LEVEL_KEYS && "review_only" in TOP_LEVEL_KEYS
  {
  }

  lemma ManifestTexts()
    ensures MANIFEST_MODE == "kr-end-to-end" + "-handoff-manifest" && GENERATED_BY == "ops/build_kr_end_to_end" + "_handoff_manifest.py"
  {
  }

  lemma {:induction false} HeadExactly(f: map<string, Json>)
    ensures TopLevelFault(f).None? <==> IsManifestHead(f)
  {
    hide TOP_LEVEL_KEYS, MANIFEST_MODE, GENERATED_BY;
    TopLevelKeysAre();
    TopLevelKeysIn();
    ManifestTexts();
    SameKeys(f.Keys, TOP_LEVEL_KEYS);
  }

  // ------------------------------------------------------------ whole manifests

  /** The entries a list of JSON values records. */
  predicate AreEntries(items: seq<Json>, entries: seq<Entry>) {
    |items| == |entries| && forall i | 0 <= i < |items| :: IsEntry(items[i], entries[i])
  }

  /** Roles come from the four known ones, each at most once and in their order. */
  predicate InRoleOrder(entries: seq<Entry>) {
    IsSubsequence(Roles(entries), ["preflight_summary", "plan_md", "structured_plan", "validation_report"])
  }

  lemma CanonicalRolesAre()
    ensures CANONICAL_ROLES == ["preflight_summary", "plan_md", "structured_plan", "validation_report"]
  {
  }

  lemma {:induction false} SchemaExactly(f: map<string, Json>, entries: seq<Entry>)
    ensures ManifestSchema(f) == Ok(entries) <==> IsManifestHead(f) && AreEntries(f["artifacts"].items, entries) && InRoleOrder(entries)
  {
    hide TopLevelFault, IsManifestHead, EntrySchema, EntrySchemas, IsEntry, CANONICAL_ROLES, OrderFault, IsSubsequence, Roles;
    HeadExactly(f);
    CanonicalRolesAre();
    if IsManifestHead(f) {
      HeadHasArtifacts(f);
      var items := f["artifacts"].items;
      EntrySchemasExactly(items);
      EntriesExactly(items, entries);
    }
  }

  lemma HeadHasArtifacts(f: map<string, Json>)
    requires IsManifestHead(f)
    ensures "artifacts" in f && f["artifacts"].List?
  {
  }

  lemma {:induction false} EntriesExactly(items: seq<Json>, entries: seq<Entry>)
    ensures EntrySchemas(items) == Ok(entries) <==> AreEntries(items, entries)
  {
    hide EntrySchema, EntrySchemas, IsEntry;
    EntrySchemasExactly(items);
    forall i | 0 <= i < |items| && i < |entries|
      ensures EntrySchema(items[i]) == Ok(entries[i]) <==> IsEntry(items[i], entries[i])
    {
      EntryExactly(items[i], entries[i]);
    }
    if AreEntries(items, entries) {
      forall i | 0 <= i < |items| ensures EntrySchema(items[i]) == Ok(entries[i]) {
        assert IsEntry(items[i], entries[i]);
      }
      assert EntrySchemas(items).value == entries;
    }
  }

  /** The base directory, when one is given, is a directory around the manifest. */
  predicate IsBase(d: Disk, base: Option<Path>, manifest: Path) {
    base.Some? ==> base.value in d.dirs && base.value <= manifest
  }

  /** The manifest file decodes to a manifest of these entries. */
  predicate Records(h: Host, d: Disk, manifest: Path, entries: seq<Entry>) {
    && manifest in d.files && h.parse(d.files[manifest]).Parsed? && h.parse(d.files[manifest]).value.Obj?
    && var f := h.parse(d.files[manifest]).value.fields;
       IsManifestHead(f) && AreEntries(f["artifacts"].items, entries) && InRoleOrder(entries)
  }

  lemma {:induction false} RecordsExactly(h: Host, d: Disk, manifest: Path, entries: seq<Entry>)
    ensures Records(h, d, manifest, entries) <==> Lists(h, d, manifest, entries)
  {
    hide ManifestSchema, IsManifestHead, AreEntries, InRoleOrder;
    if manifest in d.files && h.parse(d.files[manifest]).Parsed? && h.parse(d.files[manifest]).value.Obj? {
      SchemaExactly(h.parse(d.files[manifest]).value.fields, entries);
    }
  }

  lemma {:induction false} EntriesHaveKinds(items: seq<Json>, entries: seq<Entry>)
    requires AreEntries(items, entries)
    ensures forall i | 0 <= i < |entries| :: IsRoleOfKind(entries[i].role, entries[i].kind)
  {
    hide IsRoleOfKind, IsSha256, Strip;
    forall i | 0 <= i < |entries| ensures IsRoleOfKind(entries[i].role, entries[i].kind) {
      assert IsEntry(items[i], entries[i]);
    }
  }

  lemma {:induction false} FilesExactly(h: Host, d: Disk, base: Option<Path>, entries: seq<Entry>)
    requires forall i | 0 <= i < |entries| :: IsRoleOfKind(entries[i].role, entries[i].kind)
    ensures FirstEntryFault(h, d, base, entries).None? <==> forall i | 0 <= i < |entries| :: DescribesFile(h, d, base, entries[i])
  {
    hide EntryFault, DescribesFile, IsRoleOfKind, FirstEntryFault;
    forall i | 0 <= i < |entries| ensures EntryFault(h, d, base, entries[i]).None? <==> DescribesFile(h, d, base, entries[i]) {
      FileExactly(h, d, base, entries[i]);
    }
  }

  /**
   Soundness and completeness of the verifier: it accepts exactly when the manifest file records
   entries of known roles in order, and every entry describes the file it points to.
   */
  lemma {:induction false} VerifiedExactly(h: Host, d: Disk, manifest: Path, base: Option<Path>, roles: seq<string>)
    ensures VerifyMeaning(h, d, manifest, base) == Accepted(roles) <==>
            IsBase(d, base, manifest) && exists entries :: Roles(entries) == roles && IsVerified(h, d, manifest, base, entries)
  {
    hide VerifyMeaning, Roles, IsVerified, Lists, FirstEntryFault;
    AcceptedLists(h, d, manifest, base, roles);
    if VerifyMeaning(h, d, manifest, base) == Accepted(roles) {
      var entries :| Lists(h, d, manifest, entries) && Roles(entries) == roles && FirstEntryFault(h, d, base, entries).None?;
      VerifiedLists(h, d, manifest, base, entries);
    }
    if entries :| Roles(entries) == roles && IsVerified(h, d, manifest, base, entries) {
      VerifiedLists(h, d, manifest, base, entries);
    }
  }

  /** The manifest records these entries, and each describes its file. */
  predicate IsVerified(h: Host, d: Disk, manifest: Path, base: Option<Path>, entries: seq<Entry>) {
    Records(h, d, manifest, entries) && forall i | 0 <= i < |entries| :: DescribesFile(h, d, base, entries[i])
  }

  lemma {:induction false} AcceptedLists(h: Host, d: Disk, manifest: Path, base: Option<Path>, roles: seq<string>)
    ensures VerifyMeaning(h, d, manifest, base) == Accepted(roles) <==>
            IsBase(d, base, manifest) && exists entries ::
              Lists(h, d, manifest, entries) && Roles(entries) == roles && FirstEntryFault(h, d, base, entries).None?
  {
    hide ManifestSchema, Roles, FirstEntryFault;
    if VerifyMeaning(h, d, manifest, base) == Accepted(roles) {
      var entries := ManifestSchema(h.parse(d.files[manifest]).value.fields).value;
      assert Lists(h, d, manifest, entries);
    }
  }

  lemma {:induction false} VerifiedLists(h: Host, d: Disk, manifest: Path, base: Option<Path>, entries: seq<Entry>)
    ensures IsVerified(h, d, manifest, base, entries) <==>
            Lists(h, d, manifest, entries) && FirstEntryFault(h, d, base, entries).None?
  {
    hide Records, Lists, DescribesFile, FirstEntryFault;
    RecordsExactly(h, d, manifest, entries);
    if Records(h, d, manifest, entries) {
      RecordedFiles(h, d, manifest, base, entries);
    }
  }

  lemma {:induction false} RecordedFiles(h: Host, d: Disk, manifest: Path, base: Option<Path>, entries: seq<Entry>)
    requires Records(h, d, manifest, entries)
    ensures FirstEntryFault(h, d, base, entries).None? <==> forall i | 0 <= i < |entries| :: DescribesFile(h, d, base, entries[i])
  {
    hide IsManifestHead, AreEntries, InRoleOrder, DescribesFile, FirstEntryFault, IsRoleOfKind;
    var f := h.parse(d.files[manifest]).value.fields;
    HeadHasArtifacts(f);
    EntriesHaveKinds(f["artifacts"].items, entries);
    FilesExactly(h, d, base, entries);
  }

  // ------------------------------------------------------------------- builder

  /**
   What the builder records of a supplied artifact: the file's path, size and digest, and of a
   JSON artifact what it says. A summary's status must be `ok` or null here, not merely no other text.
   */
  predicate IndexesFile(h: Host, d: Disk, paths: map<string, string>, x: Indexed) {
    && IsRoleOfKind(x.role, x.kind) && x.role in paths
    && x.path == h.resolve(paths[x.role]) && x.path in d.files
    && x.size == |d.files[x.path]| && x.sha256 == h.digest(d.files[x.path])
    && (x.kind == "markdown" ==> x.meta == Metadata(None, None, None))
    && (x.kind == "json" ==>
          && h.parse(d.files[x.path]).Parsed? && h.parse(d.files[x.path]).value.Obj?
          && var f := h.parse(d.files[x.path]).value.fields;
             SaysForRole(x.role, f, x.meta) && (x.role == "preflight_summary" && "status" in f ==> f["status"] in {Null, Str("ok")}))
  }

  lemma {:induction false} IndexedMetadataExactly(role: string, f: map<string, Json>, meta: Metadata)
    requires IsRoleOfKind(role, "json")
    ensures IndexedMetadata(role, f) == Some(meta) <==>
            SaysForRole(role, f, meta) && (role == "preflight_summary" && "status" in f ==> f["status"] in {Null, Str("ok")})
  {
    hide PREFLIGHT_SUMMARY, PLAN_MD, STRUCTURED_PLAN, VALIDATION_REPORT, PLAN_MODE, REPORT_MODE;
    RoleTexts();
    RoleLengths();
    assert |"json"| == 4 && |"markdown"| == 8;
  }

  lemma {:induction false} IndexExactly(h: Host, d: Disk, paths: map<string, string>, x: Indexed)
    requires IsRoleOfKind(x.role, x.kind) && x.role in paths
    ensures IndexArtifact(h, d, x.role, x.kind, paths[x.role]) == Ok(x) <==> IndexesFile(h, d, paths, x)
  {
    hide SaysForRole, IndexedMetadata;
    var p := h.resolve(paths[x.role]);
    KindsDiffer();
    if x.kind == "json" && p in d.files && h.parse(d.files[p]).Parsed? && h.parse(d.files[p]).value.Obj? {
      IndexedMetadataExactly(x.role, h.parse(d.files[p]).value.fields, x.meta);
    }
  }

  lemma KindsDiffer()
    ensures "json" != "markdown"
  {
    assert |"json"| == 4 && |"markdown"| == 8;
  }

  function IfSupplied(paths: map<string, string>, role: string): seq<string> {
    if role in paths then [role] else []
  }

  /** The supplied roles in their fixed order. */
  function Supplied(paths: map<string, string>): seq<string> {
    IfSupplied(paths, "preflight_summary") + IfSupplied(paths, "plan_md")
    + IfSupplied(paths, "structured_plan") + IfSupplied(paths, "validation_report")
  }

  function SuppliedOf(paths: map<string, string>, specs: seq<(string, string)>): seq<string> {
    if specs == [] then [] else SuppliedOf(paths, specs[..|specs| - 1]) + IfSupplied(paths, specs[|specs| - 1].0)
  }

  lemma SuppliedOfSpecs(paths: map<string, string>)
    ensures SuppliedOf(paths, ARTIFACT_SPECS) == Supplied(paths)
  {
    hide IfSupplied, PREFLIGHT_SUMMARY, PLAN_MD, STRUCTURED_PLAN, VALIDATION_REPORT;
    RoleTexts();
    var s := ARTIFACT_SPECS;
    assert s[..0] == [] && s[..4] == s;
    NextSupplied(paths, s, 0);
    NextSupplied(paths, s, 1);
    NextSupplied(paths, s, 2);
    NextSupplied(paths, s, 3);
  }

  lemma NextSupplied(paths: map<string, string>, specs: seq<(string, string)>, k: nat)
    requires k < |specs|
    ensures SuppliedOf(paths, specs[..k + 1]) == SuppliedOf(paths, specs[..k]) + IfSupplied(paths, specs[k].0)
  {
    assert specs[..k + 1][..k] == specs[..k];
  }

  ghost predicate AllIndexed(h: Host, d: Disk, paths: map<string, string>, xs: seq<Indexed>) {
    forall i | 0 <= i < |xs| :: IndexesFile(h, d, paths, xs[i])
  }

  lemma {:induction false} IndexAllExactly(h: Host, d: Disk, paths: map<string, string>, specs: seq<(string, string)>, xs: seq<Indexed>)
    requires AreSpecs(specs)
    ensures IndexAll(h, d, paths, specs) == Ok(xs) <==> IndexedRoles(xs) == SuppliedOf(paths, specs) && AllIndexed(h, d, paths, xs)
  {
    hide IndexArtifact, IndexesFile, RoleKind, IsRoleOfKind;
    if specs != [] {
      var init := specs[..|specs| - 1];
      var (role, kind) := specs[|specs| - 1];
      assert IsSpec(role, kind);
      RoleKindExactly(role, kind);
      if role !in paths {
        IndexAllExactly(h, d, paths, init, xs);
      } else if xs == [] {
        assert SuppliedOf(paths, specs) != [];
      } else {
        var done, x := xs[..|xs| - 1], xs[|xs| - 1];
        IndexAllExactly(h, d, paths, init, done);
        LastIndexed(h, d, paths, role, kind, x);
        assert xs == done + [x] && IndexedRoles(xs) == IndexedRoles(done) + [x.role];
      }
    }
  }

  lemma {:induction false} LastIndexed(h: Host, d: Disk, paths: map<string, string>, role: string, kind: string, x: Indexed)
    requires IsRoleOfKind(role, kind) && role in paths
    ensures IndexArtifact(h, d, role, kind, paths[role]) == Ok(x) <==> x.role == role && IndexesFile(h, d, paths, x)
  {
    hide SaysForRole, IndexedMetadata, RoleKind;
    RoleKindExactly(role, kind);
    RoleKindExactly(x.role, x.kind);
    if x.role == role && x.kind == kind {
      IndexExactly(h, d, paths, x);
    }
  }

  /** The builder's manifest has one entry for each supplied role, in order, and each records the supplied file. */
  lemma {:induction false} BuiltExactly(h: Host, d: Disk, paths: map<string, string>, xs: seq<Indexed>)
    ensures IndexAll(h, d, paths, ARTIFACT_SPECS) == Ok(xs) <==>
            IndexedRoles(xs) == Supplied(paths) && forall i | 0 <= i < |xs| :: IndexesFile(h, d, paths, xs[i])
  {
    hide IndexAll, IndexesFile, Supplied, ARTIFACT_SPECS;
    SpecsAreCanonical();
    SuppliedOfSpecs(paths);
    IndexAllExactly(h, d, paths, ARTIFACT_SPECS, xs);
  }
}
