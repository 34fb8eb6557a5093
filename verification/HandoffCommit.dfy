/** Writing the handoff manifest: temporary file, verification, atomic replacement, clean-up. */
module HandoffCommit {
  import opened Wrappers
  import opened PyText
  import opened PyJson
  import opened CanonicalOrder
  import opened HandoffFiles
  import opened HandoffVerify
  import opened HandoffBuild

  /** What the operating system may refuse during one run. */
  datatype Faults = Faults(mkdir: bool, partialDirs: set<Path>, write: WriteFault, replace: bool, unlink: bool)

  predicate NoFaults(f: Faults) {
    !f.mkdir && f.write.NoFault? && !f.replace
  }

  function TempPath(out: Path, name: string): Path {
    Parent(out) + [name]
  }

  /** The complete temporary file verifies on the disk that holds it. */
  ghost predicate FilledAccepted(h: Host, d: Disk, temp: Path, manifest: Json, base: Option<Path>) {
    VerifyMeaning(h, d.(files := d.files[temp := h.dump(manifest)]), temp, base).Accepted?
  }

  /** The same, once the output's directories are made. */
  ghost predicate StagedAccepted(h: Host, d: Disk, out: Path, temp: Path, manifest: Json, base: Option<Path>) {
    FilledAccepted(h, d.(dirs := d.dirs + Ancestors(Parent(out))), temp, manifest, base)
  }

  /** The temporary file is created: nothing stops the run before it, and it can be opened. */
  predicate ReachesTemp(d: Disk, out: Path, force: bool, faults: Faults) {
    && (force || !Exists(d, out))
    && !faults.mkdir && d.files.Keys !! Ancestors(Parent(out))
    && !faults.write.CannotOpen?
  }

  /** Apart from the temporary file nothing differs from before, unless verified bytes are in place as a whole. */
  ghost predicate OldOrVerified(files: map<Path, Bytes>, before: map<Path, Bytes>, temp: Path, out: Path, data: Bytes, verified: bool) {
    files - {temp} == before || (verified && files == before[out := data])
  }

  lemma TempIsNew(out: Path, name: string)
    ensures TempPath(out, name) !in Ancestors(Parent(out))
  {
    forall q | q in Ancestors(Parent(out)) ensures q != TempPath(out, name) {
      assert |q| <= |Parent(out)|;
    }
  }

  /** The guarded part: fill the temporary file, verify it, and put it in place of the output. */
  method StageAndReplace(h: Host, fs: FileSystem, temp: Path, out: Path, manifest: Json, base: Option<Path>, faults: Faults)
    returns (stop: Option<Stop>)
    requires fs.Valid() && !Exists(fs.disk, temp) && temp != out
    modifies fs
    ensures fs.Valid() && fs.disk.dirs == old(fs.disk.dirs)
    ensures |fs.history| >= |old(fs.history)| && fs.history[..|old(fs.history)|] == old(fs.history)
    ensures forall k | |old(fs.history)| <= k < |fs.history| ::
              OldOrVerified(fs.history[k].files, old(fs.disk.files), temp, out, h.dump(manifest), FilledAccepted(h, old(fs.disk), temp, manifest, base))
    ensures fs.disk.files - {temp} == if stop.None? then old(fs.disk.files)[out := h.dump(manifest)] else old(fs.disk.files)
    ensures temp in fs.disk.files <==> stop.Some? && !faults.write.CannotOpen?
    ensures stop.None? <==>
      faults.write.NoFault? && FilledAccepted(h, old(fs.disk), temp, manifest, base) && !faults.replace && out !in old(fs.disk.dirs)
  {
    hide VerifyMeaning;
    ghost var before := fs.disk;
    var data := h.dump(manifest);
    assert before.files - {temp} == before.files;
    var written := fs.Write(temp, data, faults.write);
    if !written {
      return Some(if faults.write.kind.OsFault? then Fails(WriteFailed) else Raises);
    }
    assert fs.disk == before.(files := before.files[temp := data]);
    var verified := VerifyManifest(h, fs, temp, base);
    if verified.Refused? {
      return Some(if verified.fault.Rejects? then Fails(Invalid(verified.fault.error)) else Raises);
    }
    var replaced := fs.Replace(temp, out, faults.replace);
    if !replaced {
      return Some(Fails(WriteFailed));
    }
    assert fs.disk.files == before.files[out := data];
    return None;
  }

  /** The guarded part with its clean-up: a temporary file that is left is removed, whatever stopped the run. */
  method StageAndCleanUp(h: Host, fs: FileSystem, temp: Path, out: Path, manifest: Json, base: Option<Path>, faults: Faults)
    returns (stop: Option<Stop>)
    requires fs.Valid() && !Exists(fs.disk, temp) && temp != out
    modifies fs
    ensures fs.Valid() && fs.disk.dirs == old(fs.disk.dirs)
    ensures |fs.history| >= |old(fs.history)| && fs.history[..|old(fs.history)|] == old(fs.history)
    ensures forall k | |old(fs.history)| <= k < |fs.history| ::
              OldOrVerified(fs.history[k].files, old(fs.disk.files), temp, out, h.dump(manifest), FilledAccepted(h, old(fs.disk), temp, manifest, base))
    ensures fs.disk.files - {temp} == if stop.None? then old(fs.disk.files)[out := h.dump(manifest)] else old(fs.disk.files)
    ensures temp in fs.disk.files <==> faults.unlink && stop.Some? && !faults.write.CannotOpen?
    ensures temp in fs.disk.files ==> stop == Some(Raises)
    ensures stop.None? <==>
      faults.write.NoFault? && FilledAccepted(h, old(fs.disk), temp, manifest, base) && !faults.replace && out !in old(fs.disk.dirs)
  {
    hide FilledAccepted;
    stop := StageAndReplace(h, fs, temp, out, manifest, base, faults);
    if temp in fs.disk.files {
      ghost var left := fs.disk.files;
      var removed := fs.Unlink(temp, faults.unlink);
      assert removed ==> fs.disk.files - {temp} == left - {temp};
      if !removed {
        stop := Some(Raises);
      }
    }
  }

  /**
   `_write_manifest_output`. In every state the disk goes through, the output holds its old bytes
   or the whole verified manifest, and no third file differs. The temporary file remains exactly
   when it was created, the run stopped short of replacing, and removing it was itself refused.
   */
  method WriteManifestOutput(h: Host, fs: FileSystem, out: Path, manifest: Json, force: bool, base: Option<Path>, name: string, faults: Faults)
    returns (stop: Option<Stop>)
    requires fs.Valid()
    requires !Exists(fs.disk, TempPath(out, name)) && TempPath(out, name) != out
    modifies fs
    ensures fs.Valid() && fs.disk.dirs >= old(fs.disk.dirs)
    ensures |fs.history| >= |old(fs.history)|
    ensures forall k | |old(fs.history)| <= k < |fs.history| ::
              OldOrVerified(fs.history[k].files, old(fs.disk.files), TempPath(out, name), out, h.dump(manifest),
                            StagedAccepted(h, old(fs.disk), out, TempPath(out, name), manifest, base))
    ensures fs.disk.files - {TempPath(out, name)} ==
            if stop.None? then old(fs.disk.files)[out := h.dump(manifest)] else old(fs.disk.files)
    ensures TempPath(out, name) in fs.disk.files <==> faults.unlink && stop.Some? && ReachesTemp(old(fs.disk), out, force, faults)
    ensures TempPath(out, name) in fs.disk.files ==> stop == Some(Raises)
    ensures stop.None? <==>
      && (force || !Exists(old(fs.disk), out))
      && NoFaults(faults) && old(fs.disk.files).Keys !! Ancestors(Parent(out))
      && StagedAccepted(h, old(fs.disk), out, TempPath(out, name), manifest, base)
      && out !in old(fs.disk.dirs) + Ancestors(Parent(out))
  {
    hide FilledAccepted, Ancestors;
    if Exists(fs.disk, out) && !force {
      return Some(Fails(OutputExists));
    }
    ghost var before := fs.disk;
    var temp := TempPath(out, name);
    assert before.files - {temp} == before.files;
    var made := fs.MakeDirs(Parent(out), faults.mkdir, faults.partialDirs);
    if !made {
      return Some(Raises);
    }
    TempIsNew(out, name);
    assert fs.disk == before.(dirs := before.dirs + Ancestors(Parent(out)));
    stop := StageAndCleanUp(h, fs, temp, out, manifest, base, faults);
  }

  // ---------------------------------------------------------- the whole builder

  /** `_resolve_base_dir` */
  function ResolveBase(h: Host, d: Disk, raw: Option<string>): Result<Option<Path>, BuildError> {
    if raw.None? then Ok(None)
    else if Strip(raw.value) == "" then Err(BlankBase)
    else
      var p := h.resolve(raw.value);
      if !Exists(d, p) then Err(NoBase)
      else if p !in d.dirs then Err(BaseIsFile)
      else Ok(Some(p))
  }

  /** The first supplied artifact, in order of `specs`, that lies outside the base directory. */
  function FirstEscape(h: Host, paths: map<string, string>, base: Path, specs: seq<(string, string)>): (r: Option<string>)
    ensures r.None? <==> forall i | 0 <= i < |specs| :: specs[i].0 in paths ==> Within(h.resolve(paths[specs[i].0]), base)
  {
    if specs == [] then None
    else
      var before := FirstEscape(h, paths, base, specs[..|specs| - 1]);
      var role := specs[|specs| - 1].0;
      if before.Some? then before
      else if role in paths && !Within(h.resolve(paths[role]), base) then Some(role)
      else None
  }

  /** `_assert_inputs_within_base` */
  method InputsWithinBase(h: Host, paths: map<string, string>, out: Path, base: Path) returns (e: Option<BuildError>)
    ensures e == if !Within(out, base) then Some(OutEscapesBase)
                 else if FirstEscape(h, paths, base, ARTIFACT_SPECS).Some?
                   then Some(ArtifactEscapesBase(FirstEscape(h, paths, base, ARTIFACT_SPECS).value))
                 else None
  {
    hide ARTIFACT_SPECS;
    if !Within(out, base) {
      return Some(OutEscapesBase);
    }
    for i := 0 to |ARTIFACT_SPECS|
      invariant FirstEscape(h, paths, base, ARTIFACT_SPECS[..i]).None?
    {
      var role := ARTIFACT_SPECS[i].0;
      assert ARTIFACT_SPECS[..i + 1][..i] == ARTIFACT_SPECS[..i];
      if role in paths && !Within(h.resolve(paths[role]), base) {
        EscapeStays(h, paths, base, ARTIFACT_SPECS, i + 1);
        return Some(ArtifactEscapesBase(role));
      }
    }
    assert ARTIFACT_SPECS[..|ARTIFACT_SPECS|] == ARTIFACT_SPECS;
    return None;
  }

  lemma {:induction false} EscapeStays(h: Host, paths: map<string, string>, base: Path, specs: seq<(string, string)>, i: nat)
    requires i <= |specs| && FirstEscape(h, paths, base, specs[..i]).Some?
    ensures FirstEscape(h, paths, base, specs) == FirstEscape(h, paths, base, specs[..i])
    decreases |specs|
  {
    if i == |specs| {
      assert specs[..i] == specs;
    } else {
      var init := specs[..|specs| - 1];
      assert init[..i] == specs[..i];
      EscapeStays(h, paths, base, init, i);
    }
  }

  /** What the builder demands of its inputs before it writes anything. */
  ghost predicate InputsAccepted(h: Host, d: Disk, out: Path, paths: map<string, string>, base: Option<Path>) {
    && paths != map[]
    && (base.Some? ==> Within(out, base.value) && FirstEscape(h, paths, base.value, ARTIFACT_SPECS).None?)
    && IndexAll(h, d, paths, ARTIFACT_SPECS).Ok?
  }

  ghost predicate AllRecoverable(h: Host, d: Disk, base: Option<Path>, xs: seq<Indexed>) {
    forall i | 0 <= i < |xs| :: Recoverable(h, d, base, xs[i])
  }

  /** No artifact is looked up under this path: what a random file name is trusted to guarantee. */
  ghost predicate NotLookedUp(h: Host, paths: map<string, string>, p: Path) {
    forall role | role in paths :: h.resolve(Strip(Show(h.resolve(paths[role])))) != p
  }

  predicate CanWrite(d: Disk, out: Path, force: bool) {
    && (force || !Exists(d, out))
    && d.files.Keys !! Ancestors(Parent(out))
    && out !in d.dirs + Ancestors(Parent(out))
  }

  lemma SuppliedIsIndexed(h: Host, d: Disk, paths: map<string, string>)
    requires paths != map[] && (forall role | role in paths :: role in CANONICAL_ROLES)
    requires IndexAll(h, d, paths, ARTIFACT_SPECS).Ok?
    ensures IndexAll(h, d, paths, ARTIFACT_SPECS).value != []
  {
    hide IndexAll, CANONICAL_ROLES, ARTIFACT_SPECS, FromDisk;
    SpecsAreCanonical();
    IndexAllFromDisk(h, d, paths, ARTIFACT_SPECS);
    var role :| role in paths;
    var i :| 0 <= i < |CANONICAL_ROLES| && CANONICAL_ROLES[i] == role;
    assert ARTIFACT_SPECS[i].0 == role;
  }

  lemma TempWithin(out: Path, name: string, base: Path)
    requires Within(out, base) && out != base
    ensures Within(TempPath(out, name), base)
  {
    assert |base| < |out|;
    assert base == out[..|base|] == Parent(out)[..|base|];
  }

  /** On the staged disk the manifest is accepted exactly when its artifacts are recoverable on the disk as it was. */
  lemma {:induction false} StagedExactly(h: Host, d: Disk, out: Path, name: string, paths: map<string, string>, base: Option<Path>)
    requires DigestsAreHex(h) && ReadsBack(h) && IndexAll(h, d, paths, ARTIFACT_SPECS).Ok? && IndexAll(h, d, paths, ARTIFACT_SPECS).value != []
    requires BaseFault(d, base).None? && (base.Some? ==> Within(out, base.value)) && out !in d.dirs
    requires NotLookedUp(h, paths, TempPath(out, name))
    ensures var xs := IndexAll(h, d, paths, ARTIFACT_SPECS).value;
      StagedAccepted(h, d, out, TempPath(out, name), Obj(ManifestFields(xs)), base) <==> AllRecoverable(h, d, base, xs)
  {
    hide FloatFree, IndexAll, CheckPayload, ARTIFACT_SPECS, ManifestFields, Matches, Strip, Show, Ancestors, RoleKind, STRUCTURED_PLAN, IsSubsequence, CANONICAL_ROLES;
    var temp, xs := TempPath(out, name), IndexAll(h, d, paths, ARTIFACT_SPECS).value;
    var data := h.dump(Obj(ManifestFields(xs)));
    var e := Disk(d.files[temp := data], d.dirs + Ancestors(Parent(out)));
    CompletenessExactly(h, d, paths, e, base);
    SpecsAreCanonical();
    IndexAllFromDisk(h, d, paths, ARTIFACT_SPECS);
    forall i | 0 <= i < |xs| ensures Recoverable(h, e, base, xs[i]) <==> Recoverable(h, d, base, xs[i]) {
      assert FromDisk(h, d, paths, xs[i]);
    }
    if base.Some? { TempWithin(out, name, base.value); }
    ManifestFloatFree(xs);
    assert h.parse(e.files[temp]) == Parsed(Obj(ManifestFields(xs)));
  }

  /**
   After the commit the manifest verifies in place exactly when no artifact is looked up at the
   output itself, or its recorded evidence happens to describe the manifest.
   */
  lemma {:induction false} CommittedExactly(h: Host, d: Disk, out: Path, dirs: set<Path>, paths: map<string, string>, base: Option<Path>)
    requires DigestsAreHex(h) && ReadsBack(h) && IndexAll(h, d, paths, ARTIFACT_SPECS).Ok? && IndexAll(h, d, paths, ARTIFACT_SPECS).value != []
    requires BaseFault(d, base).None? && (base.Some? ==> Within(out, base.value)) && d.dirs <= dirs
    requires AllRecoverable(h, d, base, IndexAll(h, d, paths, ARTIFACT_SPECS).value)
    ensures var xs := IndexAll(h, d, paths, ARTIFACT_SPECS).value; var data := h.dump(Obj(ManifestFields(xs)));
      VerifyMeaning(h, Disk(d.files[out := data], dirs), out, base).Accepted? <==>
      forall i | 0 <= i < |xs| && Lookup(h, xs[i]) == out :: Matches(h, xs[i], data)
  {
    hide FloatFree, IndexAll, CheckPayload, ARTIFACT_SPECS, ManifestFields, Matches, Strip, Show;
    var xs := IndexAll(h, d, paths, ARTIFACT_SPECS).value;
    var data := h.dump(Obj(ManifestFields(xs)));
    var e := Disk(d.files[out := data], dirs);
    CompletenessExactly(h, d, paths, e, base);
    forall i | 0 <= i < |xs| ensures Recoverable(h, e, base, xs[i]) <==> (Lookup(h, xs[i]) == out ==> Matches(h, xs[i], data)) {
      assert Recoverable(h, d, base, xs[i]);
    }
    ManifestFloatFree(xs);
    assert h.parse(e.files[out]) == Parsed(Obj(ManifestFields(xs)));
  }

  /** A plan or a validation report never survives being overwritten by the manifest that indexes it. */
  lemma {:induction false} ManifestIsNoPlan(h: Host, x: Indexed, xs: seq<Indexed>)
    requires ReadsBack(h) && x.kind == "json" && (x.role == STRUCTURED_PLAN || x.role == VALIDATION_REPORT)
    ensures !Matches(h, x, h.dump(Obj(ManifestFields(xs))))
  {
    hide FloatFree, ManifestFields, Get, MANIFEST_MODE, GENERATED_BY, PLAN_MODE, REPORT_MODE, PREFLIGHT_SUMMARY, STRUCTURED_PLAN, VALIDATION_REPORT;
    ManifestReads(xs);
    RoleLengths();
    ModesDiffer();
    ManifestFloatFree(xs);
    assert h.parse(h.dump(Obj(ManifestFields(xs)))) == Parsed(Obj(ManifestFields(xs)));
  }

  lemma ModesDiffer()
    ensures |MANIFEST_MODE| == 30 && |PLAN_MODE| == 34 && |REPORT_MODE| == 46
  {
  }

  /** A state of the whole builder: nothing but the temporary file differs, or the verified manifest is in place. */
  ghost predicate BuiltOrOld(h: Host, files: map<Path, Bytes>, before: Disk, out: Path, name: string, paths: map<string, string>, rawBase: Option<string>) {
    || files - {TempPath(out, name)} == before.files
    || (&& ResolveBase(h, before, rawBase).Ok? && IndexAll(h, before, paths, ARTIFACT_SPECS).Ok?
        && var manifest := Obj(ManifestFields(IndexAll(h, before, paths, ARTIFACT_SPECS).value));
           && StagedAccepted(h, before, out, TempPath(out, name), manifest, ResolveBase(h, before, rawBase).value)
           && files == before.files[out := h.dump(manifest)])
  }

  /**
   `build_kr_end_to_end_handoff_manifest`. It succeeds exactly when the inputs are accepted, every
   artifact is recoverable and the operating system refuses nothing; a failure leaves every file
   but the temporary one as it was, and so does every state on the way.
   */
  method BuildHandoff(h: Host, fs: FileSystem, rawOut: string, paths: map<string, string>, force: bool,
                      rawBase: Option<string>, name: string, faults: Faults)
    returns (stop: Option<Stop>)
    requires fs.Valid() && DigestsAreHex(h) && ReadsBack(h)
    requires forall role | role in paths :: role in CANONICAL_ROLES
    requires var temp := TempPath(h.resolve(rawOut), name);
      !Exists(fs.disk, temp) && temp != h.resolve(rawOut) && NotLookedUp(h, paths, temp)
    modifies fs
    ensures fs.Valid()
    ensures stop.None? <==>
      && ResolveBase(h, old(fs.disk), rawBase).Ok?
      && var base := ResolveBase(h, old(fs.disk), rawBase).value;
         && InputsAccepted(h, old(fs.disk), h.resolve(rawOut), paths, base)
         && AllRecoverable(h, old(fs.disk), base, IndexAll(h, old(fs.disk), paths, ARTIFACT_SPECS).value)
         && CanWrite(old(fs.disk), h.resolve(rawOut), force) && NoFaults(faults)
    ensures fs.disk.files - {TempPath(h.resolve(rawOut), name)} ==
            if stop.None?
            then old(fs.disk.files)[h.resolve(rawOut) := h.dump(Obj(ManifestFields(IndexAll(h, old(fs.disk), paths, ARTIFACT_SPECS).value)))]
            else old(fs.disk.files)
    ensures TempPath(h.resolve(rawOut), name) in fs.disk.files <==>
      && faults.unlink && stop.Some? && ReachesTemp(old(fs.disk), h.resolve(rawOut), force, faults)
      && ResolveBase(h, old(fs.disk), rawBase).Ok?
      && InputsAccepted(h, old(fs.disk), h.resolve(rawOut), paths, ResolveBase(h, old(fs.disk), rawBase).value)
    ensures TempPath(h.resolve(rawOut), name) in fs.disk.files ==> stop == Some(Raises)
    ensures |fs.history| >= |old(fs.history)|
    ensures forall k | |old(fs.history)| <= k < |fs.history| ::
              BuiltOrOld(h, fs.history[k].files, old(fs.disk), h.resolve(rawOut), name, paths, rawBase)
  {
    hide IndexAll, ManifestFields, ARTIFACT_SPECS, CANONICAL_ROLES, Recoverable, Ancestors, StagedAccepted, Strip, Show, FirstEscape, DigestsAreHex, ReadsBack, FloatFree;
    ghost var before := fs.disk;
    var out := h.resolve(rawOut);
    assert before.files - {TempPath(out, name)} == before.files;
    var resolved := ResolveBase(h, fs.disk, rawBase);
    if resolved.Err? {
      return Some(Fails(resolved.error));
    }
    var base := resolved.value;
    if paths == map[] {
      return Some(Fails(NoInputs));
    }
    if base.Some? {
      var escape := InputsWithinBase(h, paths, out, base.value);
      if escape.Some? {
        return Some(Fails(escape.value));
      }
    }
    var indexed := BuildHandoffManifest(h, fs, paths);
    if indexed.Err? {
      return Some(indexed.error);
    }
    SuppliedIsIndexed(h, before, paths);
    if out !in before.dirs {
      StagedExactly(h, before, out, name, paths, base);
    }
    stop := WriteManifestOutput(h, fs, out, Obj(ManifestFields(indexed.value)), force, base, name, faults);
  }
}
