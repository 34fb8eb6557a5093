/** The handoff manifest builder: indexing artifacts, and the manifest it writes down. */
module HandoffBuild {
  import opened Wrappers
  import opened PyText
  import opened PyJson
  import opened CanonicalOrder
  import opened HandoffFiles
  import opened HandoffVerify

  datatype BuildError =
    | BlankBase | NoBase | BaseIsFile | NoInputs | OutEscapesBase | ArtifactEscapesBase(role: string)
    | NotFound(role: string) | NotFile(role: string) | NotJsonText(role: string) | RootNotAnObject(role: string)
    | WrongMetadata(role: string)
    | OutputExists | Invalid(cause: VerifyError) | WriteFailed

  /** A run stops with the tool's own error, or with one nobody handles. */
  datatype Stop = Fails(error: BuildError) | Raises

  /** (role, kind), in the order artifacts are indexed. */
  const ARTIFACT_SPECS: seq<(string, string)> := [
    (PREFLIGHT_SUMMARY, "json"), (PLAN_MD, "markdown"), (STRUCTURED_PLAN, "json"), (VALIDATION_REPORT, "json")]

  datatype Indexed = Indexed(role: string, kind: string, path: Path, size: nat, sha256: string, meta: Metadata)

  const NO_METADATA := Metadata(None, None, None)

  /** The builder's own reading of a JSON artifact; stricter than the verifier's on a summary's status. */
  function IndexedMetadata(role: string, f: map<string, Json>): Option<Metadata> {
    if role == PREFLIGHT_SUMMARY then
      if !Get(f, "status").Null? && Get(f, "status") != Str("ok") then None
      else Some(Metadata(OptionalText(Get(f, "mode")), OptionalText(Get(f, "status")), OptionalText(Get(f, "stage"))))
    else if role == STRUCTURED_PLAN then
      if Get(f, "mode") != Str(PLAN_MODE) || Get(f, "review_only") != Bool(true) then None
      else Some(Metadata(Some(PLAN_MODE), None, None))
    else
      if Get(f, "mode") != Str(REPORT_MODE) || Get(f, "status") != Str("ok") || Get(f, "stage") != Str("complete") then None
      else Some(Metadata(Some(REPORT_MODE), Some("ok"), Some("complete")))
  }

  /** `_index_artifact` */
  function IndexArtifact(h: Host, d: Disk, role: string, kind: string, raw: string): Result<Indexed, Stop> {
    var p := h.resolve(raw);
    if !Exists(d, p) then Err(Fails(NotFound(role)))
    else if p !in d.files then Err(Fails(NotFile(role)))
    else
      var data := d.files[p];
      if kind != "json" then Ok(Indexed(role, kind, p, |data|, h.digest(data), NO_METADATA))
      else
        match h.parse(data)
        case NotUtf8 => Err(Raises)
        case NotJson => Err(Fails(NotJsonText(role)))
        case Parsed(j) =>
          if !j.Obj? then Err(Fails(RootNotAnObject(role)))
          else
            match IndexedMetadata(role, j.fields)
            case None => Err(Fails(WrongMetadata(role)))
            case Some(meta) => Ok(Indexed(role, kind, p, |data|, h.digest(data), meta))
  }

  /** Indexing the artifacts that were supplied, in the order of `specs`. */
  function IndexAll(h: Host, d: Disk, paths: map<string, string>, specs: seq<(string, string)>): Result<seq<Indexed>, Stop> {
    if specs == [] then Ok([])
    else
      match IndexAll(h, d, paths, specs[..|specs| - 1])
      case Err(e) => Err(e)
      case Ok(done) =>
        var (role, kind) := specs[|specs| - 1];
        if role !in paths then Ok(done)
        else
          match IndexArtifact(h, d, role, kind, paths[role])
          case Err(e) => Err(e)
          case Ok(x) => Ok(done + [x])
  }

  function OptionalJson(s: Option<string>): Json {
    if s.Some? then Str(s.value) else Null
  }

  function EntryFields(x: Indexed): map<string, Json> {
    map[
      "role" := Str(x.role), "path" := Str(Show(x.path)), "exists" := Bool(true), "kind" := Str(x.kind),
      "size_bytes" := Int(x.size), "sha256" := Str(x.sha256), "json_mode" := OptionalJson(x.meta.mode),
      "json_status" := OptionalJson(x.meta.status), "json_stage" := OptionalJson(x.meta.stage)]
  }

  function EntryList(xs: seq<Indexed>): (r: seq<Json>)
    ensures |r| == |xs| && forall i | 0 <= i < |xs| :: r[i] == Obj(EntryFields(xs[i]))
  {
    seq(|xs|, i requires 0 <= i < |xs| => Obj(EntryFields(xs[i])))
  }

  function ManifestFields(xs: seq<Indexed>): map<string, Json> {
    map[
      "version" := Int(1), "mode" := Str(MANIFEST_MODE), "status" := Str("ok"), "stage" := Str("complete"),
      "generated_by" := Str(GENERATED_BY), "artifacts" := List(EntryList(xs)), "artifacts_count" := Int(|xs|),
      "all_artifacts_present" := Bool(true), "commands_execute_in_builder" := Bool(false), "review_only" := Bool(true)]
  }

  /** `build_handoff_manifest` */
  method BuildHandoffManifest(h: Host, fs: FileSystem, paths: map<string, string>) returns (r: Result<seq<Indexed>, Stop>)
    ensures r == IndexAll(h, fs.disk, paths, ARTIFACT_SPECS)
  {
    hide IndexArtifact, ARTIFACT_SPECS;
    var artifacts: seq<Indexed> := [];
    for i := 0 to |ARTIFACT_SPECS|
      invariant IndexAll(h, fs.disk, paths, ARTIFACT_SPECS[..i]) == Ok(artifacts)
    {
      assert ARTIFACT_SPECS[..i + 1][..i] == ARTIFACT_SPECS[..i];
      var (role, kind) := ARTIFACT_SPECS[i];
      if role in paths {
        var x := IndexArtifact(h, fs.disk, role, kind, paths[role]);
        if x.Err? {
          IndexStops(h, fs.disk, paths, ARTIFACT_SPECS, i + 1);
          return Err(x.error);
        }
        artifacts := artifacts + [x.value];
      }
    }
    assert ARTIFACT_SPECS[..|ARTIFACT_SPECS|] == ARTIFACT_SPECS;
    return Ok(artifacts);
  }

  lemma {:induction false} IndexStops(h: Host, d: Disk, paths: map<string, string>, specs: seq<(string, string)>, i: nat)
    requires i <= |specs| && IndexAll(h, d, paths, specs[..i]).Err?
    ensures IndexAll(h, d, paths, specs) == IndexAll(h, d, paths, specs[..i])
    decreases |specs|
  {
    hide IndexArtifact;
    if i == |specs| {
      assert specs[..i] == specs;
    } else {
      var init := specs[..|specs| - 1];
      assert init[..i] == specs[..i];
      IndexStops(h, d, paths, init, i);
    }
  }

  // ------------------------------------------------------ reading entries back

  /** The entry the verifier makes of an indexed artifact: the same, but for the stripped path text. */
  function EntryOf(x: Indexed): Entry {
    Entry(x.role, Strip(Show(x.path)), x.kind, x.size, x.sha256, x.meta)
  }

  lemma EntryKeys(x: Indexed)
    ensures EntryFields(x).Keys == ENTRY_KEYS
  {
    hide Show, OptionalJson;
  }

  lemma EntryReads(x: Indexed)
    ensures var f := EntryFields(x);
      && Get(f, "role") == Str(x.role) && Get(f, "path") == Str(Show(x.path)) && Get(f, "exists") == Bool(true)
      && Get(f, "kind") == Str(x.kind) && Get(f, "size_bytes") == Int(x.size)
  {
    hide Show, OptionalJson, ENTRY_KEYS;
  }

  lemma EntryReadsMetadata(x: Indexed)
    ensures var f := EntryFields(x);
      && Get(f, "sha256") == Str(x.sha256) && Get(f, "json_mode") == OptionalJson(x.meta.mode)
      && Get(f, "json_status") == OptionalJson(x.meta.status) && Get(f, "json_stage") == OptionalJson(x.meta.stage)
  {
    hide Show, OptionalJson, ENTRY_KEYS;
  }

  lemma LettersAreTrimmed(s: string)
    requires s != "" && 'a' <= s[0] <= 'z' && 'a' <= s[|s| - 1] <= 'z'
    ensures Strip(s) == s
  {
    TrimmedStrips(s);
  }

  lemma RoleEnds()
    ensures PREFLIGHT_SUMMARY[0] == 'p' && PREFLIGHT_SUMMARY[|PREFLIGHT_SUMMARY| - 1] == 'y'
    ensures PLAN_MD[0] == 'p' && PLAN_MD[|PLAN_MD| - 1] == 'd'
    ensures STRUCTURED_PLAN[0] == 's' && STRUCTURED_PLAN[|STRUCTURED_PLAN| - 1] == 'n'
    ensures VALIDATION_REPORT[0] == 'v' && VALIDATION_REPORT[|VALIDATION_REPORT| - 1] == 't'
  {
  }

  lemma RolesAreTrimmed(role: string)
    requires RoleKind(role).Some?
    ensures Strip(role) == role && role != ""
  {
    hide PREFLIGHT_SUMMARY, STRUCTURED_PLAN, PLAN_MD, VALIDATION_REPORT, Strip;
    RoleLengths();
    RoleEnds();
    LettersAreTrimmed(role);
  }

  lemma {:induction false} EntrySchemaOfIndexed(x: Indexed)
    requires RoleKind(x.role) == Some(x.kind) && IsSha256(x.sha256)
    ensures EntrySchema(Obj(EntryFields(x))) == Ok(EntryOf(x))
  {
    hide EntryFields, Get, ENTRY_KEYS, Strip, Show, RoleKind, IsSha256;
    EntryKeys(x);
    EntryReads(x);
    EntryReadsMetadata(x);
    RolesAreTrimmed(x.role);
    ShownIsNonBlank(x.path);
  }

  lemma ManifestKeys(xs: seq<Indexed>)
    ensures ManifestFields(xs).Keys == TOP_LEVEL_KEYS
  {
    hide EntryList, MANIFEST_MODE, GENERATED_BY;
  }

  lemma ManifestReads(xs: seq<Indexed>)
    ensures var f := ManifestFields(xs);
      && Get(f, "version") == Int(1) && Get(f, "mode") == Str(MANIFEST_MODE) && Get(f, "status") == Str("ok")
      && Get(f, "stage") == Str("complete") && Get(f, "generated_by") == Str(GENERATED_BY)
  {
    hide EntryList, MANIFEST_MODE, GENERATED_BY, TOP_LEVEL_KEYS;
  }

  lemma ManifestReadsArtifacts(xs: seq<Indexed>)
    ensures var f := ManifestFields(xs);
      && Get(f, "artifacts") == List(EntryList(xs)) && Get(f, "artifacts_count") == Int(|xs|)
      && Get(f, "all_artifacts_present") == Bool(true) && Get(f, "commands_execute_in_builder") == Bool(false)
      && Get(f, "review_only") == Bool(true)
  {
    hide EntryList, MANIFEST_MODE, GENERATED_BY, TOP_LEVEL_KEYS;
  }

  /** The manifest holds no float, so it reads back as it was written. */
  lemma {:induction false} ManifestFloatFree(xs: seq<Indexed>)
    ensures FloatFree(Obj(ManifestFields(xs)))
  {
    hide Show, MANIFEST_MODE, GENERATED_BY;
    forall i | 0 <= i < |xs| ensures FloatFree(EntryList(xs)[i]) {
      EntryFloatFree(xs[i]);
    }
    assert FloatFree(List(EntryList(xs)));
    var f := ManifestFields(xs);
    forall k | k in f ensures FloatFree(f[k]) {}
  }

  lemma EntryFloatFree(x: Indexed)
    ensures FloatFree(Obj(EntryFields(x)))
  {
    hide Show;
    var f := EntryFields(x);
    forall k | k in f ensures FloatFree(f[k]) {}
  }

  function EntriesOf(xs: seq<Indexed>): (r: seq<Entry>)
    ensures |r| == |xs| && forall i | 0 <= i < |xs| :: r[i] == EntryOf(xs[i])
  {
    seq(|xs|, i requires 0 <= i < |xs| => EntryOf(xs[i]))
  }

  function IndexedRoles(xs: seq<Indexed>): (r: seq<string>)
    ensures |r| == |xs| && forall i | 0 <= i < |xs| :: r[i] == xs[i].role
  {
    seq(|xs|, i requires 0 <= i < |xs| => xs[i].role)
  }

  ghost predicate WellIndexed(xs: seq<Indexed>) {
    && xs != []
    && (forall i | 0 <= i < |xs| :: RoleKind(xs[i].role) == Some(xs[i].kind) && IsSha256(xs[i].sha256))
    && IsSubsequence(IndexedRoles(xs), CANONICAL_ROLES)
  }

  /** Every manifest the builder writes passes the verifier's schema, with entry for entry. */
  lemma {:induction false} ManifestSchemaOfIndexed(xs: seq<Indexed>)
    requires WellIndexed(xs)
    ensures ManifestSchema(ManifestFields(xs)) == Ok(EntriesOf(xs))
  {
    hide ManifestFields, Get, TOP_LEVEL_KEYS, MANIFEST_MODE, GENERATED_BY, EntrySchema, EntryFields, EntryOf, RoleKind, IsSha256,
         IsSubsequence, CANONICAL_ROLES, EntrySchemas;
    ManifestKeys(xs);
    ManifestReads(xs);
    ManifestReadsArtifacts(xs);
    var items := EntryList(xs);
    forall i | 0 <= i < |items| ensures EntrySchema(items[i]) == Ok(EntryOf(xs[i])) {
      EntrySchemaOfIndexed(xs[i]);
    }
    EntrySchemasExactly(items);
    assert EntrySchemas(items).value == EntriesOf(xs);
    RolesOfEntries(xs);
  }

  lemma RolesOfEntries(xs: seq<Indexed>)
    ensures Roles(EntriesOf(xs)) == IndexedRoles(xs)
  {
    hide Strip, Show;
  }

  // --------------------------------------------------- what the builder indexes

  /** The evidence recorded for an artifact describes these bytes. */
  predicate Matches(h: Host, x: Indexed, data: Bytes) {
    && |data| == x.size && h.digest(data) == x.sha256
    && (x.kind == "json" ==> ReadMetadata(h, x.role, data) == Some(x.meta))
  }

  /** The metadata the verifier finds in a JSON artifact. */
  function ReadMetadata(h: Host, role: string, data: Bytes): Option<Metadata> {
    match h.parse(data)
    case Parsed(Obj(f)) =>
      (match ActualMetadata(role, f)
       case Ok(meta) => Some(meta)
       case Err(_) => None)
    case _ => None
  }

  predicate IsSpec(role: string, kind: string) {
    RoleKind(role) == Some(kind)
  }

  /** Builder and verifier, written apart, read the same metadata from what the builder accepts. */
  lemma {:induction false} MetadataAgree(role: string, f: map<string, Json>)
    requires IndexedMetadata(role, f).Some?
    ensures ActualMetadata(role, f) == Ok(IndexedMetadata(role, f).value)
    ensures role == STRUCTURED_PLAN ==> IndexedMetadata(role, f).value.status.None? && IndexedMetadata(role, f).value.stage.None?
  {
    hide PREFLIGHT_SUMMARY, STRUCTURED_PLAN, PLAN_MODE, REPORT_MODE;
    RoleLengths();
  }

  lemma {:induction false} IndexedMatches(h: Host, d: Disk, role: string, kind: string, raw: string)
    requires IndexArtifact(h, d, role, kind, raw).Ok? && IsSpec(role, kind)
    ensures var x := IndexArtifact(h, d, role, kind, raw).value;
      && x.role == role && x.kind == kind && x.path == h.resolve(raw) && x.path in d.files
      && Matches(h, x, d.files[x.path])
      && x.sha256 == h.digest(d.files[x.path])
      && (role == STRUCTURED_PLAN ==> x.meta.status.None? && x.meta.stage.None?)
  {
    hide PREFLIGHT_SUMMARY, STRUCTURED_PLAN, PLAN_MD, VALIDATION_REPORT, PLAN_MODE, REPORT_MODE, ActualMetadata, IndexedMetadata, RoleKind;
    if kind == "json" {
      MetadataAgree(role, h.parse(d.files[h.resolve(raw)]).value.fields);
    } else {
      PlanIsJson(role, kind);
    }
  }

  lemma PlanIsJson(role: string, kind: string)
    requires IsSpec(role, kind) && kind != "json"
    ensures role != STRUCTURED_PLAN
  {
    hide PREFLIGHT_SUMMARY, STRUCTURED_PLAN, PLAN_MD, VALIDATION_REPORT;
    RoleLengths();
  }

  /** What is known of one artifact the builder indexed on disk `d`. */
  ghost predicate FromDisk(h: Host, d: Disk, paths: map<string, string>, x: Indexed) {
    && x.role in paths && x.path == h.resolve(paths[x.role]) && x.path in d.files
    && RoleKind(x.role) == Some(x.kind)
    && Matches(h, x, d.files[x.path]) && x.sha256 == h.digest(d.files[x.path])
    && (x.role == STRUCTURED_PLAN ==> x.meta.status.None? && x.meta.stage.None?)
  }

  function SpecRoles(specs: seq<(string, string)>): (r: seq<string>)
    ensures |r| == |specs| && forall i | 0 <= i < |specs| :: r[i] == specs[i].0
  {
    seq(|specs|, i requires 0 <= i < |specs| => specs[i].0)
  }

  ghost predicate AreSpecs(specs: seq<(string, string)>) {
    forall i | 0 <= i < |specs| :: IsSpec(specs[i].0, specs[i].1)
  }

  lemma {:induction false} IndexAllFromDisk(h: Host, d: Disk, paths: map<string, string>, specs: seq<(string, string)>)
    requires AreSpecs(specs) && IndexAll(h, d, paths, specs).Ok?
    ensures var xs := IndexAll(h, d, paths, specs).value;
      && (forall i | 0 <= i < |xs| :: FromDisk(h, d, paths, xs[i]))
      && IsSubsequence(IndexedRoles(xs), SpecRoles(specs))
      && (xs == [] <==> forall i | 0 <= i < |specs| :: specs[i].0 !in paths)
  {
    hide IndexArtifact, Matches, RoleKind, STRUCTURED_PLAN, IsSubsequence;
    if specs == [] {
      assert IsSubsequence(IndexedRoles([]), SpecRoles([])) by { NothingIsSubsequence(SpecRoles([])); }
    } else {
      var init, last := specs[..|specs| - 1], specs[|specs| - 1];
      IndexAllFromDisk(h, d, paths, init);
      var done := IndexAll(h, d, paths, init).value;
      SubsequenceGrows(IndexedRoles(done), SpecRoles(init), last.0);
      assert SpecRoles(specs) == SpecRoles(init) + [last.0];
      assert forall i | 0 <= i < |init| :: init[i] == specs[i];
      if last.0 in paths {
        assert IsSpec(last.0, last.1);
        IndexedMatches(h, d, last.0, last.1, paths[last.0]);
        var x := IndexArtifact(h, d, last.0, last.1, paths[last.0]).value;
        assert IndexedRoles(done + [x]) == IndexedRoles(done) + [last.0];
      }
    }
  }

  lemma NothingIsSubsequence(c: seq<string>)
    ensures IsSubsequence(IndexedRoles([]), c)
  {
  }

  lemma SpecsAreCanonical()
    ensures AreSpecs(ARTIFACT_SPECS) && SpecRoles(ARTIFACT_SPECS) == CANONICAL_ROLES
  {
    hide PREFLIGHT_SUMMARY, PLAN_MD, STRUCTURED_PLAN, VALIDATION_REPORT;
    RoleLengths();
  }

  lemma {:induction false} BuiltIsWellIndexed(h: Host, d: Disk, paths: map<string, string>)
    requires DigestsAreHex(h) && IndexAll(h, d, paths, ARTIFACT_SPECS).Ok? && IndexAll(h, d, paths, ARTIFACT_SPECS).value != []
    ensures WellIndexed(IndexAll(h, d, paths, ARTIFACT_SPECS).value)
  {
    hide IndexAll, Matches, RoleKind, STRUCTURED_PLAN, IsSubsequence, ARTIFACT_SPECS, CANONICAL_ROLES, IsSha256;
    SpecsAreCanonical();
    IndexAllFromDisk(h, d, paths, ARTIFACT_SPECS);
  }

  // ------------------------------------------------------- build then verify

  /** Where the verifier looks for an artifact: the recorded text is stripped first. */
  function Lookup(h: Host, x: Indexed): Path {
    h.resolve(Strip(Show(x.path)))
  }

  /** The verifier finds, inside the base directory, bytes that match the recorded evidence. */
  predicate Recoverable(h: Host, d: Disk, base: Option<Path>, x: Indexed) {
    var q := Lookup(h, x);
    && (base.Some? ==> Within(q, base.value))
    && q in d.files && Matches(h, x, d.files[q])
  }

  lemma {:induction false} EntryFaultExactly(h: Host, d: Disk, base: Option<Path>, x: Indexed)
    requires x.role == STRUCTURED_PLAN ==> x.meta.status.None? && x.meta.stage.None?
    ensures EntryFault(h, d, base, EntryOf(x)).None? <==> Recoverable(h, d, base, x)
  {
    hide Strip, Show, STRUCTURED_PLAN, ActualMetadata;
  }

  /**
   Build/verify completeness: a manifest built on a disk is accepted there exactly when every
   artifact is recoverable, that is, found again under its stripped path with the same evidence.
   */
  lemma {:induction false} CompletenessExactly(h: Host, d: Disk, paths: map<string, string>, e: Disk, base: Option<Path>)
    requires DigestsAreHex(h) && IndexAll(h, d, paths, ARTIFACT_SPECS).Ok?
    requires IndexAll(h, d, paths, ARTIFACT_SPECS).value != []
    ensures var xs := IndexAll(h, d, paths, ARTIFACT_SPECS).value;
      CheckPayload(h, e, base, Obj(ManifestFields(xs))).Accepted? <==> forall i | 0 <= i < |xs| :: Recoverable(h, e, base, xs[i])
  {
    hide IndexAll, CheckPayload, Recoverable, Matches, STRUCTURED_PLAN, RoleKind, ARTIFACT_SPECS, WellIndexed, ManifestFields, IsSubsequence;
    SpecsAreCanonical();
    IndexAllFromDisk(h, d, paths, ARTIFACT_SPECS);
    BuiltIsWellIndexed(h, d, paths);
    var xs := IndexAll(h, d, paths, ARTIFACT_SPECS).value;
    forall i | 0 <= i < |xs| ensures xs[i].role == STRUCTURED_PLAN ==> xs[i].meta.status.None? && xs[i].meta.stage.None? {
      assert FromDisk(h, d, paths, xs[i]);
    }
    PayloadExactly(h, xs, e, base);
  }

  lemma {:induction false} PayloadExactly(h: Host, xs: seq<Indexed>, e: Disk, base: Option<Path>)
    requires WellIndexed(xs)
    requires forall i | 0 <= i < |xs| :: xs[i].role == STRUCTURED_PLAN ==> xs[i].meta.status.None? && xs[i].meta.stage.None?
    ensures CheckPayload(h, e, base, Obj(ManifestFields(xs))).Accepted? <==> forall i | 0 <= i < |xs| :: Recoverable(h, e, base, xs[i])
  {
    hide ManifestSchema, EntryFault, Recoverable, Matches, STRUCTURED_PLAN, WellIndexed, ManifestFields, Roles, EntryOf;
    ManifestSchemaOfIndexed(xs);
    var entries := EntriesOf(xs);
    forall i | 0 <= i < |xs| ensures EntryFault(h, e, base, entries[i]).None? <==> Recoverable(h, e, base, xs[i]) {
      EntryFaultExactly(h, e, base, xs[i]);
    }
  }

  /** Paths without trailing whitespace are always recoverable on the disk they were indexed on. */
  lemma {:induction false} TrimmedPathsVerify(h: Host, d: Disk, paths: map<string, string>, base: Option<Path>)
    requires DigestsAreHex(h) && ResolvesShown(h) && IndexAll(h, d, paths, ARTIFACT_SPECS).Ok?
    requires IndexAll(h, d, paths, ARTIFACT_SPECS).value != []
    requires forall role | role in paths :: Strip(Show(h.resolve(paths[role]))) == Show(h.resolve(paths[role]))
    requires base.Some? ==> forall role | role in paths :: Within(h.resolve(paths[role]), base.value)
    ensures CheckPayload(h, d, base, Obj(ManifestFields(IndexAll(h, d, paths, ARTIFACT_SPECS).value))).Accepted?
  {
    hide IndexAll, CheckPayload, Matches, STRUCTURED_PLAN, RoleKind, ARTIFACT_SPECS, ManifestFields, Strip, Show, IsSubsequence;
    SpecsAreCanonical();
    IndexAllFromDisk(h, d, paths, ARTIFACT_SPECS);
    CompletenessExactly(h, d, paths, d, base);
    var xs := IndexAll(h, d, paths, ARTIFACT_SPECS).value;
    forall i | 0 <= i < |xs| ensures Recoverable(h, d, base, xs[i]) {
      assert FromDisk(h, d, paths, xs[i]);
      assert Lookup(h, xs[i]) == xs[i].path;
    }
  }

  /**
   A path with trailing whitespace shows why that is needed: the builder indexes the file,
   and the verifier then looks for another one.
   */
  lemma {:induction false} TrailingSpaceIsRefused(h: Host, raw: string, data: Bytes)
    requires DigestsAreHex(h)
    requires var p := h.resolve(raw); h.resolve(Strip(Show(p))) != p
    ensures var d := Disk(map[h.resolve(raw) := data], {}); var built := IndexAll(h, d, map[PLAN_MD := raw], ARTIFACT_SPECS);
      built.Ok? && built.value != [] && !CheckPayload(h, d, None, Obj(ManifestFields(built.value))).Accepted?
  {
    hide CheckPayload, ManifestFields, Strip, Show, IsSubsequence, PREFLIGHT_SUMMARY, PLAN_MD, STRUCTURED_PLAN, VALIDATION_REPORT;
    RoleLengths();
    var d, paths := Disk(map[h.resolve(raw) := data], {}), map[PLAN_MD := raw];
    var specs := ARTIFACT_SPECS;
    assert specs[..4] == specs;
    assert IndexAll(h, d, paths, specs[..0]) == Ok([]);
    assert specs[..1][..0] == specs[..0];
    assert IndexAll(h, d, paths, specs[..1]) == Ok([]);
    assert specs[..2][..1] == specs[..1];
    var x := IndexArtifact(h, d, PLAN_MD, "markdown", raw).value;
    assert specs[..2][1] == (PLAN_MD, "markdown") && [] + [x] == [x];
    assert IndexAll(h, d, paths, specs[..2]) == Ok([x]);
    assert specs[..3][..2] == specs[..2];
    assert IndexAll(h, d, paths, specs[..3]) == Ok([x]);
    assert specs[..4][..3] == specs[..3];
    assert IndexAll(h, d, paths, specs[..4]) == Ok([x]);
    CompletenessExactly(h, d, paths, d, None);
    assert !Recoverable(h, d, None, [x][0]);
  }
}
