/** The handoff manifest verifier: schema, roles, and each entry against the disk. */
module HandoffVerify {
  import opened Wrappers
  import opened PyText
  import opened PyJson
  import opened CanonicalOrder
  import opened HandoffFiles

  // Long literals are joined from short ones, which the verifier can look into.
  const MANIFEST_MODE := "kr-end-to-end" + "-handoff-manifest"
  const GENERATED_BY := "ops/build_kr_end_to_end" + "_handoff_manifest.py"
  const PLAN_MODE := "kr-end-to-end" + "-intake-followup-plan"
  const REPORT_MODE := "kr-end-to-end-preflight" + "-plan-validation-report"

  const PREFLIGHT_SUMMARY := "preflight_summary"
  const PLAN_MD := "plan_md"
  const STRUCTURED_PLAN := "structured_plan"
  const VALIDATION_REPORT := "validation_report"

  const CANONICAL_ROLES: seq<string> := [PREFLIGHT_SUMMARY, PLAN_MD, STRUCTURED_PLAN, VALIDATION_REPORT]

  function RoleKind(role: string): Option<string> {
    if role == PLAN_MD then Some("markdown")
    else if role == PREFLIGHT_SUMMARY || role == STRUCTURED_PLAN || role == VALIDATION_REPORT then Some("json")
    else None
  }

  const TOP_LEVEL_KEYS: set<string> := {
    "version", "mode", "status", "stage", "generated_by", "artifacts", "artifacts_count",
    "all_artifacts_present", "commands_execute_in_builder", "review_only"}

  const ENTRY_KEYS: set<string> := {
    "role", "path", "exists", "kind", "size_bytes", "sha256", "json_mode", "json_status", "json_stage"}

  datatype Metadata = Metadata(mode: Option<string>, status: Option<string>, stage: Option<string>)

  /** A validated artifact entry. */
  datatype Entry = Entry(role: string, path: string, kind: string, size: int, sha256: string, meta: Metadata)

  datatype VerifyError =
    | BaseNotFound | BaseNotDirectory | Escapes | ManifestNotFound | ManifestNotJson | RootNotObject
    | UnknownFields | MissingFields | BadVersion | BadMode | BadStatus | BadStage | BadGenerator
    | NoArtifacts | CountNotInteger | CountMismatch | NotAllPresent | ExecutesCommands | NotReviewOnly
    | EntryNotObject | EntryUnknownFields | EntryMissingFields | BadRole | KindMismatch | ExistsNotTrue
    | BadPath | BadSize | BadDigest | BadMetadataType | RoleOrder(fault: OrderError)
    | ArtifactNotFound | ArtifactNotFile | SizeMismatch | DigestMismatch
    | ArtifactNotJson | ArtifactRootNotObject | ArtifactMetadata | MetadataMismatch

  /** `Undecodable` is the decoding error that no handler catches. */
  datatype Fault = Rejects(error: VerifyError) | Undecodable

  // ----------------------------------------------------------- entry schema

  /** `value != n` for a JSON value and an integer literal, negated. */
  predicate EqualsInt(j: Json, n: int) {
    IsNumber(j) && Number(j) == n as real
  }

  function NonBlank(j: Json): (r: Option<string>)
    ensures r.Some? <==> j.Str? && Strip(j.text) != ""
  {
    if j.Str? && Strip(j.text) != "" then Some(Strip(j.text)) else None
  }

  function OptionalText(j: Json): Option<string> {
    if j.Str? then Some(j.text) else None
  }

  predicate IsNullOrText(j: Json) {
    j.Null? || j.Str?
  }

  /** `_validate_artifact_entry_schema`, check by check. */
  function EntrySchema(j: Json): Result<Entry, VerifyError> {
    if !j.Obj? then Err(EntryNotObject)
    else
      var f := j.fields;
      if f.Keys - ENTRY_KEYS != {} then Err(EntryUnknownFields)
      else if ENTRY_KEYS - f.Keys != {} then Err(EntryMissingFields)
      else
        var role := NonBlank(Get(f, "role"));
        if role.None? || RoleKind(role.value).None? then Err(BadRole)
        else
          var kind := RoleKind(role.value).value;
          if Get(f, "kind") != Str(kind) then Err(KindMismatch)
          else if Get(f, "exists") != Bool(true) then Err(ExistsNotTrue)
          else
            var path := NonBlank(Get(f, "path"));
            if path.None? then Err(BadPath)
            else if !Get(f, "size_bytes").Int? || Get(f, "size_bytes").number < 0 then Err(BadSize)
            else if !Get(f, "sha256").Str? || !IsSha256(Get(f, "sha256").text) then Err(BadDigest)
            else if !IsNullOrText(Get(f, "json_mode")) || !IsNullOrText(Get(f, "json_status")) || !IsNullOrText(Get(f, "json_stage"))
              then Err(BadMetadataType)
            else
              Ok(Entry(role.value, path.value, kind, Get(f, "size_bytes").number, Get(f, "sha256").text,
                       Metadata(OptionalText(Get(f, "json_mode")), OptionalText(Get(f, "json_status")), OptionalText(Get(f, "json_stage")))))
  }

  function EntrySchemas(items: seq<Json>): Result<seq<Entry>, VerifyError> {
    if items == [] then Ok([])
    else
      match EntrySchemas(items[..|items| - 1])
      case Err(e) => Err(e)
      case Ok(done) =>
        match EntrySchema(items[|items| - 1])
        case Err(e) => Err(e)
        case Ok(entry) => Ok(done + [entry])
  }

  lemma {:induction false} EntrySchemasExactly(items: seq<Json>)
    ensures EntrySchemas(items).Ok? <==> forall i | 0 <= i < |items| :: EntrySchema(items[i]).Ok?
    ensures EntrySchemas(items).Ok? ==>
              && |EntrySchemas(items).value| == |items|
              && forall i | 0 <= i < |items| :: EntrySchema(items[i]) == Ok(EntrySchemas(items).value[i])
  {
    hide EntrySchema;
    if items != [] {
      var init := items[..|items| - 1];
      EntrySchemasExactly(init);
      assert forall i | 0 <= i < |init| :: init[i] == items[i];
    }
  }

  function Roles(entries: seq<Entry>): (rs: seq<string>)
    ensures |rs| == |entries| && forall i | 0 <= i < |rs| :: rs[i] == entries[i].role
  {
    seq(|entries|, i requires 0 <= i < |entries| => entries[i].role)
  }

  /** The checks on the top-level fields, before the entries. */
  function TopLevelFault(f: map<string, Json>): Option<VerifyError> {
    if f.Keys - TOP_LEVEL_KEYS != {} then Some(UnknownFields)
    else if TOP_LEVEL_KEYS - f.Keys != {} then Some(MissingFields)
    else if !EqualsInt(Get(f, "version"), 1) then Some(BadVersion)
    else if Get(f, "mode") != Str(MANIFEST_MODE) then Some(BadMode)
    else if Get(f, "status") != Str("ok") then Some(BadStatus)
    else if Get(f, "stage") != Str("complete") then Some(BadStage)
    else if Get(f, "generated_by") != Str(GENERATED_BY) then Some(BadGenerator)
    else if !Get(f, "artifacts").List? || Get(f, "artifacts").items == [] then Some(NoArtifacts)
    else if !Get(f, "artifacts_count").Int? then Some(CountNotInteger)
    else if Get(f, "artifacts_count").number != |Get(f, "artifacts").items| then Some(CountMismatch)
    else if Get(f, "all_artifacts_present") != Bool(true) then Some(NotAllPresent)
    else if Get(f, "commands_execute_in_builder") != Bool(false) then Some(ExecutesCommands)
    else if Get(f, "review_only") != Bool(true) then Some(NotReviewOnly)
    else None
  }

  ghost function ManifestSchema(f: map<string, Json>): Result<seq<Entry>, VerifyError> {
    if TopLevelFault(f).Some? then Err(TopLevelFault(f).value)
    else
      assert Get(f, "artifacts").List?;
      match EntrySchemas(Get(f, "artifacts").items)
      case Err(e) => Err(e)
      case Ok(entries) =>
        match OrderFault(Roles(entries), CANONICAL_ROLES)
        case Some(e) => Err(RoleOrder(e))
        case None => Ok(entries)
  }

  lemma RoleLengths()
    ensures |PREFLIGHT_SUMMARY| == 17 && PREFLIGHT_SUMMARY[0] == 'p' && |PLAN_MD| == 7
    ensures |STRUCTURED_PLAN| == 15 && |VALIDATION_REPORT| == 17 && VALIDATION_REPORT[0] == 'v'
  {
  }

  lemma RolesDistinct()
    ensures Distinct(CANONICAL_ROLES)
  {
    hide PREFLIGHT_SUMMARY, PLAN_MD, STRUCTURED_PLAN, VALIDATION_REPORT;
    RoleLengths();
  }

  lemma ManifestHasArtifacts(f: map<string, Json>)
    requires TopLevelFault(f).None?
    ensures Get(f, "artifacts").List? && Get(f, "artifacts").items != []
  {
  }

  /** `_validate_manifest_schema` */
  method ValidateManifestSchema(f: map<string, Json>) returns (r: Result<seq<Entry>, VerifyError>)
    ensures r == ManifestSchema(f)
  {
    hide TopLevelFault, EntrySchema, OrderFault, IsSubsequence, CANONICAL_ROLES;
    var top := TopLevelFault(f);
    if top.Some? {
      return Err(top.value);
    }
    ManifestHasArtifacts(f);
    var items := Get(f, "artifacts").items;
    var entries: seq<Entry> := [];
    var roles: seq<string> := [];
    for i := 0 to |items|
      invariant EntrySchemas(items[..i]) == Ok(entries)
      invariant roles == Roles(entries)
    {
      assert items[..i + 1][..i] == items[..i];
      var entry := EntrySchema(items[i]);
      if entry.Err? {
        FirstBadEntry(items, i);
        return Err(entry.error);
      }
      entries := entries + [entry.value];
      roles := roles + [entry.value.role];
    }
    assert items[..|items|] == items;
    RolesDistinct();
    var order := CheckOrder(roles, CANONICAL_ROLES);
    if order.Some? {
      return Err(RoleOrder(order.value));
    }
    return Ok(entries);
  }

  lemma {:induction false} FirstBadEntry(items: seq<Json>, i: nat)
    requires i < |items| && EntrySchemas(items[..i]).Ok? && EntrySchema(items[i]).Err?
    ensures EntrySchemas(items) == Err(EntrySchema(items[i]).error)
    decreases |items|
  {
    hide EntrySchema;
    if i < |items| - 1 {
      var init := items[..|items| - 1];
      assert init[..i] == items[..i];
      FirstBadEntry(init, i);
    }
  }

  // ------------------------------------------------------ entries on the disk

  /** The metadata a JSON artifact must have for its role. */
  function ActualMetadata(role: string, f: map<string, Json>): Result<Metadata, VerifyError> {
    if role == PREFLIGHT_SUMMARY then
      var status := OptionalText(Get(f, "status"));
      if status.Some? && status.value != "ok" then Err(ArtifactMetadata)
      else Ok(Metadata(OptionalText(Get(f, "mode")), status, OptionalText(Get(f, "stage"))))
    else if role == STRUCTURED_PLAN then
      if Get(f, "mode") != Str(PLAN_MODE) || Get(f, "review_only") != Bool(true) then Err(ArtifactMetadata)
      else Ok(Metadata(Some(PLAN_MODE), None, None))
    else
      if Get(f, "mode") != Str(REPORT_MODE) || Get(f, "status") != Str("ok") || Get(f, "stage") != Str("complete")
      then Err(ArtifactMetadata)
      else Ok(Metadata(Some(REPORT_MODE), Some("ok"), Some("complete")))
  }

  /** What the JSON content of an artifact says against the recorded metadata. */
  function ContentFault(h: Host, e: Entry, data: Bytes): Option<Fault> {
    if e.kind != "json" then None
    else
      match h.parse(data)
      case NotUtf8 => Some(Undecodable)
      case NotJson => Some(Rejects(ArtifactNotJson))
      case Parsed(j) =>
        if !j.Obj? then Some(Rejects(ArtifactRootNotObject))
        else if e.role == STRUCTURED_PLAN && (e.meta.status.Some? || e.meta.stage.Some?) then Some(Rejects(ArtifactMetadata))
        else
          match ActualMetadata(e.role, j.fields)
          case Err(x) => Some(Rejects(x))
          case Ok(meta) => if meta != e.meta then Some(Rejects(MetadataMismatch)) else None
  }

  /** `_verify_artifact_entry` */
  function EntryFault(h: Host, d: Disk, base: Option<Path>, e: Entry): Option<Fault> {
    var p := h.resolve(e.path);
    if base.Some? && !Within(p, base.value) then Some(Rejects(Escapes))
    else if !Exists(d, p) then Some(Rejects(ArtifactNotFound))
    else if p !in d.files then Some(Rejects(ArtifactNotFile))
    else if |d.files[p]| != e.size then Some(Rejects(SizeMismatch))
    else if h.digest(d.files[p]) != e.sha256 then Some(Rejects(DigestMismatch))
    else ContentFault(h, e, d.files[p])
  }

  function FirstEntryFault(h: Host, d: Disk, base: Option<Path>, entries: seq<Entry>): (r: Option<Fault>)
    ensures r.None? <==> forall i | 0 <= i < |entries| :: EntryFault(h, d, base, entries[i]).None?
  {
    if entries == [] then None
    else
      var fault := FirstEntryFault(h, d, base, entries[..|entries| - 1]);
      if fault.Some? then fault else EntryFault(h, d, base, entries[|entries| - 1])
  }

  datatype VerifyResult = Accepted(roles: seq<string>) | Refused(fault: Fault)

  function BaseFault(d: Disk, base: Option<Path>): Option<VerifyError> {
    if base.None? then None
    else if !Exists(d, base.value) then Some(BaseNotFound)
    else if base.value !in d.dirs then Some(BaseNotDirectory)
    else None
  }

  /** Checking a decoded manifest against the disk. */
  ghost function CheckPayload(h: Host, d: Disk, base: Option<Path>, j: Json): VerifyResult {
    if !j.Obj? then Refused(Rejects(RootNotObject))
    else
      match ManifestSchema(j.fields)
      case Err(e) => Refused(Rejects(e))
      case Ok(entries) =>
        match FirstEntryFault(h, d, base, entries)
        case Some(fault) => Refused(fault)
        case None => Accepted(Roles(entries))
  }

  ghost function VerifyMeaning(h: Host, d: Disk, manifest: Path, base: Option<Path>): VerifyResult {
    if BaseFault(d, base).Some? then Refused(Rejects(BaseFault(d, base).value))
    else if base.Some? && !Within(manifest, base.value) then Refused(Rejects(Escapes))
    else if manifest !in d.files then Refused(Rejects(ManifestNotFound))
    else
      match h.parse(d.files[manifest])
      case NotUtf8 => Refused(Undecodable)
      case NotJson => Refused(Rejects(ManifestNotJson))
      case Parsed(j) => CheckPayload(h, d, base, j)
  }

  /** `verify_kr_end_to_end_handoff_manifest`: only reads the disk. */
  method VerifyManifest(h: Host, fs: FileSystem, manifest: Path, base: Option<Path>) returns (r: VerifyResult)
    ensures r == VerifyMeaning(h, fs.disk, manifest, base)
  {
    hide ManifestSchema, EntryFault, Roles;
    var d := fs.disk;
    var fault := BaseFault(d, base);
    if fault.Some? {
      return Refused(Rejects(fault.value));
    }
    if base.Some? && !Within(manifest, base.value) {
      return Refused(Rejects(Escapes));
    }
    if manifest !in d.files {
      return Refused(Rejects(ManifestNotFound));
    }
    var parsed := h.parse(d.files[manifest]);
    if parsed.NotUtf8? {
      return Refused(Undecodable);
    }
    if parsed.NotJson? {
      return Refused(Rejects(ManifestNotJson));
    }
    if !parsed.value.Obj? {
      return Refused(Rejects(RootNotObject));
    }
    var schema := ValidateManifestSchema(parsed.value.fields);
    if schema.Err? {
      return Refused(Rejects(schema.error));
    }
    var entries := schema.value;
    for i := 0 to |entries|
      invariant FirstEntryFault(h, d, base, entries[..i]).None?
    {
      assert entries[..i + 1][..i] == entries[..i];
      var found := EntryFault(h, d, base, entries[i]);
      if found.Some? {
        FaultStays(h, d, base, entries, i);
        return Refused(found.value);
      }
    }
    assert entries[..|entries|] == entries;
    return Accepted(Roles(entries));
  }

  lemma {:induction false} FaultStays(h: Host, d: Disk, base: Option<Path>, entries: seq<Entry>, i: nat)
    requires i < |entries| && FirstEntryFault(h, d, base, entries[..i]).None? && EntryFault(h, d, base, entries[i]).Some?
    ensures FirstEntryFault(h, d, base, entries) == EntryFault(h, d, base, entries[i])
    decreases |entries|
  {
    hide EntryFault;
    if i < |entries| - 1 {
      var init := entries[..|entries| - 1];
      assert init[..i] == entries[..i];
      FaultStays(h, d, base, init, i);
    }
  }

  /** The entries of the manifest stored at a path, once it passes its schema. */
  ghost predicate Lists(h: Host, d: Disk, manifest: Path, entries: seq<Entry>) {
    && manifest in d.files && h.parse(d.files[manifest]).Parsed? && h.parse(d.files[manifest]).value.Obj?
    && ManifestSchema(h.parse(d.files[manifest]).value.fields) == Ok(entries)
  }

  /** Acceptance pins the artifacts: two disks that accept the same manifest hold equally long files with equal digests. */
  lemma {:induction false} AcceptancePinsArtifacts(h: Host, d: Disk, e: Disk, manifest: Path, base: Option<Path>) returns (entries: seq<Entry>)
    requires VerifyMeaning(h, d, manifest, base).Accepted? && VerifyMeaning(h, e, manifest, base).Accepted?
    requires d.files[manifest] == e.files[manifest]
    ensures Lists(h, d, manifest, entries)
    ensures forall i | 0 <= i < |entries| :: (var p := h.resolve(entries[i].path);
              && p in d.files && p in e.files
              && |d.files[p]| == |e.files[p]| == entries[i].size
              && h.digest(d.files[p]) == h.digest(e.files[p]) == entries[i].sha256)
  {
    hide ManifestSchema, ContentFault;
    entries := ManifestSchema(h.parse(d.files[manifest]).value.fields).value;
    forall i | 0 <= i < |entries| ensures EntryFault(h, d, base, entries[i]).None? && EntryFault(h, e, base, entries[i]).None? {}
  }

  lemma {:induction false} TopLevelSound(f: map<string, Json>)
    requires TopLevelFault(f).None?
    ensures f.Keys == TOP_LEVEL_KEYS
    ensures Get(f, "review_only") == Bool(true) && Get(f, "commands_execute_in_builder") == Bool(false)
    ensures Get(f, "all_artifacts_present") == Bool(true)
    ensures Get(f, "mode") == Str(MANIFEST_MODE) && Get(f, "generated_by") == Str(GENERATED_BY)
    ensures Get(f, "status") == Str("ok") && Get(f, "stage") == Str("complete") && EqualsInt(Get(f, "version"), 1)
    ensures Get(f, "artifacts").List? && Get(f, "artifacts_count") == Int(|Get(f, "artifacts").items|)
  {
    hide TOP_LEVEL_KEYS, MANIFEST_MODE, GENERATED_BY, EqualsInt, Get;
  }

  /** An accepted manifest has exactly the known fields with their fixed values, and one role for each counted artifact. */
  lemma {:induction false} AcceptedManifestIsSound(h: Host, d: Disk, manifest: Path, base: Option<Path>)
    requires VerifyMeaning(h, d, manifest, base).Accepted?
    ensures var f := h.parse(d.files[manifest]).value.fields;
      && f.Keys == TOP_LEVEL_KEYS
      && EqualsInt(Get(f, "version"), 1) && Get(f, "mode") == Str(MANIFEST_MODE) && Get(f, "generated_by") == Str(GENERATED_BY)
      && Get(f, "status") == Str("ok") && Get(f, "stage") == Str("complete")
      && Get(f, "review_only") == Bool(true) && Get(f, "commands_execute_in_builder") == Bool(false)
      && Get(f, "all_artifacts_present") == Bool(true)
      && Get(f, "artifacts_count") == Int(|VerifyMeaning(h, d, manifest, base).roles|)
    ensures IsSubsequence(VerifyMeaning(h, d, manifest, base).roles, CANONICAL_ROLES)
    ensures base.Some? ==> Within(manifest, base.value)
  {
    hide TopLevelFault, EntrySchemas, OrderFault, IsSubsequence, EntryFault, CANONICAL_ROLES, TOP_LEVEL_KEYS, Get, EqualsInt, MANIFEST_MODE, GENERATED_BY;
    var f := h.parse(d.files[manifest]).value.fields;
    TopLevelSound(f);
    EntrySchemasExactly(Get(f, "artifacts").items);
  }

  // ------------------------------------------------------ verification report

  const VERIFICATION_MODE := "kr-end-to-end-handoff" + "-manifest-verification-report"
  const VERIFIER := "ops/verify_kr_end_to_end" + "_handoff_manifest.py"

  const REPORT_KEYS: set<string> := {
    "version", "mode", "status", "stage", "generated_by", "manifest", "base_dir", "path_containment_verified",
    "artifacts_count", "verified_artifacts_count", "hashes_verified", "metadata_verified", "schema_verified",
    "commands_execute_in_verifier", "review_only", "artifact_roles"}

  function Texts(js: seq<Json>): (r: seq<string>)
    requires forall j | j in js :: j.Str?
    ensures |r| == |js| && forall i | 0 <= i < |js| :: r[i] == js[i].text
  {
    seq(|js|, i requires 0 <= i < |js| => js[i].text)
  }

  /** `_build_verification_report` */
  function ReportFields(manifest: Path, base: Option<Path>, roles: seq<string>): map<string, Json> {
    map[
      "version" := Int(1), "mode" := Str(VERIFICATION_MODE), "status" := Str("ok"), "stage" := Str("complete"),
      "generated_by" := Str(VERIFIER), "manifest" := Str(Show(manifest)),
      "base_dir" := if base.Some? then Str(Show(base.value)) else Null,
      "path_containment_verified" := Bool(base.Some?),
      "artifacts_count" := Int(|roles|), "verified_artifacts_count" := Int(|roles|),
      "hashes_verified" := Bool(true), "metadata_verified" := Bool(true), "schema_verified" := Bool(true),
      "commands_execute_in_verifier" := Bool(false), "review_only" := Bool(true),
      "artifact_roles" := List(TextList(roles))]
  }

  predicate IsPositive(j: Json) {
    j.Int? && j.number > 0
  }

  predicate AreTexts(j: Json) {
    j.List? && j.items != [] && forall x | x in j.items :: x.Str?
  }

  /** `_validate_verification_report_payload` accepts the report. */
  predicate ReportIsValid(f: map<string, Json>) {
    && f.Keys == REPORT_KEYS
    && EqualsInt(Get(f, "version"), 1)
    && Get(f, "mode") == Str(VERIFICATION_MODE) && Get(f, "status") == Str("ok") && Get(f, "stage") == Str("complete")
    && Get(f, "generated_by") == Str(VERIFIER)
    && NonBlank(Get(f, "manifest")).Some?
    && (Get(f, "base_dir").Null? || NonBlank(Get(f, "base_dir")).Some?)
    && Get(f, "path_containment_verified") == Bool(!Get(f, "base_dir").Null?)
    && IsPositive(Get(f, "artifacts_count")) && IsPositive(Get(f, "verified_artifacts_count"))
    && Get(f, "artifacts_count") == Get(f, "verified_artifacts_count")
    && Get(f, "hashes_verified") == Bool(true) && Get(f, "metadata_verified") == Bool(true) && Get(f, "schema_verified") == Bool(true)
    && Get(f, "commands_execute_in_verifier") == Bool(false) && Get(f, "review_only") == Bool(true)
    && AreTexts(Get(f, "artifact_roles"))
    && IsSubsequence(Texts(Get(f, "artifact_roles").items), CANONICAL_ROLES)
  }

  /** Accepted roles are a non-empty subsequence of the canonical roles. */
  lemma {:induction false} AcceptedRoles(h: Host, d: Disk, manifest: Path, base: Option<Path>)
    requires VerifyMeaning(h, d, manifest, base).Accepted?
    ensures var roles := VerifyMeaning(h, d, manifest, base).roles;
      roles != [] && IsSubsequence(roles, CANONICAL_ROLES)
  {
    hide TopLevelFault, EntrySchemas, OrderFault, IsSubsequence, EntryFault, CANONICAL_ROLES;
    var f := h.parse(d.files[manifest]).value.fields;
    ManifestHasArtifacts(f);
    EntrySchemasExactly(Get(f, "artifacts").items);
  }

  /** The report of every accepted verification passes the report's own schema check. */
  lemma {:induction false} ReportAlwaysValid(h: Host, d: Disk, manifest: Path, base: Option<Path>)
    requires VerifyMeaning(h, d, manifest, base).Accepted?
    ensures ReportIsValid(ReportFields(manifest, base, VerifyMeaning(h, d, manifest, base).roles))
  {
    hide VerifyMeaning, IsSubsequence, CANONICAL_ROLES, ReportFields, ReportIsValid;
    AcceptedRoles(h, d, manifest, base);
    ReportOfRoles(manifest, base, VerifyMeaning(h, d, manifest, base).roles);
  }

  lemma ReportHeader(manifest: Path, base: Option<Path>, roles: seq<string>)
    ensures var f := ReportFields(manifest, base, roles);
      && Get(f, "version") == Int(1)
      && Get(f, "mode") == Str(VERIFICATION_MODE)
      && Get(f, "status") == Str("ok")
      && Get(f, "stage") == Str("complete")
  {
    hide VERIFICATION_MODE, VERIFIER, Show, TextList, REPORT_KEYS;
  }

  lemma ReportKeys(manifest: Path, base: Option<Path>, roles: seq<string>)
    ensures ReportFields(manifest, base, roles).Keys == REPORT_KEYS
  {
    hide VERIFICATION_MODE, VERIFIER, Show, TextList;
  }

  lemma ReportPaths(manifest: Path, base: Option<Path>, roles: seq<string>)
    ensures var f := ReportFields(manifest, base, roles);
      && Get(f, "generated_by") == Str(VERIFIER)
      && Get(f, "manifest") == Str(Show(manifest))
      && Get(f, "base_dir") == (if base.Some? then Str(Show(base.value)) else Null)
      && Get(f, "path_containment_verified") == Bool(base.Some?)
  {
    hide VERIFICATION_MODE, VERIFIER, Show, TextList, REPORT_KEYS;
  }

  lemma ReportCounts(manifest: Path, base: Option<Path>, roles: seq<string>)
    ensures var f := ReportFields(manifest, base, roles);
      && Get(f, "artifacts_count") == Int(|roles|)
      && Get(f, "verified_artifacts_count") == Int(|roles|)
      && Get(f, "artifact_roles") == List(TextList(roles))
  {
    hide VERIFICATION_MODE, VERIFIER, Show, TextList, REPORT_KEYS;
  }

  lemma ReportFlags(manifest: Path, base: Option<Path>, roles: seq<string>)
    ensures var f := ReportFields(manifest, base, roles);
      && Get(f, "hashes_verified") == Bool(true)
      && Get(f, "metadata_verified") == Bool(true)
      && Get(f, "schema_verified") == Bool(true)
      && Get(f, "commands_execute_in_verifier") == Bool(false)
      && Get(f, "review_only") == Bool(true)
  {
    hide VERIFICATION_MODE, VERIFIER, Show, TextList, REPORT_KEYS;
  }

  lemma {:induction false} ReportOfRoles(manifest: Path, base: Option<Path>, roles: seq<string>)
    requires roles != [] && IsSubsequence(roles, CANONICAL_ROLES)
    ensures ReportIsValid(ReportFields(manifest, base, roles))
  {
    hide IsSubsequence, CANONICAL_ROLES, VERIFICATION_MODE, VERIFIER, Strip, Show, ReportFields, Get, REPORT_KEYS;
    ReportKeys(manifest, base, roles);
    ReportHeader(manifest, base, roles);
    ReportPaths(manifest, base, roles);
    ReportCounts(manifest, base, roles);
    ReportFlags(manifest, base, roles);
    ShownIsNonBlank(manifest);
    if base.Some? { ShownIsNonBlank(base.value); }
    assert Texts(TextList(roles)) == roles;
  }
}
