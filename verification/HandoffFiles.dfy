/** The file system the handoff tools work on, and the host services they call. */
module HandoffFiles {
  import opened PyJson
  import opened PyText

  type Bytes = seq<bv8>

  /** A resolved absolute path, as its components. */
  type Path = seq<string>

  function ShowParts(p: Path): string {
    if p == [] then "" else "/" + p[0] + ShowParts(p[1..])
  }

  /** `str(path)` */
  function Show(p: Path): (s: string)
    ensures s != "" && s[0] == '/'
  {
    if p == [] then "/" else ShowParts(p)
  }

  /** `path.parent`; the root is its own parent. */
  function Parent(p: Path): Path {
    if p == [] then [] else p[..|p| - 1]
  }

  /** `path.is_relative_to(base)` on resolved paths. */
  predicate Within(p: Path, base: Path) {
    base <= p
  }

  datatype Disk = Disk(files: map<Path, Bytes>, dirs: set<Path>)

  predicate Exists(d: Disk, p: Path) {
    p in d.files || p in d.dirs
  }

  datatype Parsed = NotUtf8 | NotJson | Parsed(value: Json)

  /**
   Path resolution, SHA-256 in lowercase hex, decoding of UTF-8 JSON,
   and `json.dumps(..., indent=2, ensure_ascii=False) + "\n"` encoded.
   */
  datatype Host = Host(
    resolve: string -> Path, digest: Bytes -> string, parse: Bytes -> Parsed, dump: Json -> Bytes)

  predicate IsHex(c: char) {
    '0' <= c <= '9' || 'a' <= c <= 'f'
  }

  predicate IsSha256(s: string) {
    |s| == 64 && forall i | 0 <= i < 64 :: IsHex(s[i])
  }

  /** A resolved path prints to a text that resolves to it. */
  ghost predicate ResolvesShown(h: Host) {
    forall s :: h.resolve(Show(h.resolve(s))) == h.resolve(s)
  }

  ghost predicate DigestsAreHex(h: Host) {
    forall b :: IsSha256(h.digest(b))
  }

  /** Dumped JSON without floats reads back; floats are rounded when they are printed. */
  ghost predicate ReadsBack(h: Host) {
    forall j | FloatFree(j) :: h.parse(h.dump(j)) == Parsed(j)
  }

  lemma ShownIsNonBlank(p: Path)
    ensures Strip(Show(p)) != ""
  {
    var s := Show(p);
    StripFromNonSpace(s);
    RStripKeepsThrough(s, 0);
  }

  // --------------------------------------------------------------- operations

  /** How an operation of the operating system may go wrong. */
  datatype FaultKind = OsFault | OtherFault

  datatype WriteFault = NoFault | CannotOpen(kind: FaultKind) | Interrupted(written: nat, kind: FaultKind)

  function Ancestors(p: Path): set<Path> {
    set n: nat | n <= |p| :: p[..n]
  }

  class FileSystem {
    var disk: Disk
    /** Every state the disk has gone through, the present one last. */
    ghost var history: seq<Disk>

    ghost predicate Valid()
      reads this
    {
      history != [] && history[|history| - 1] == disk
    }

    constructor (initial: Disk)
      ensures Valid() && disk == initial && history == [initial]
    {
      disk, history := initial, [initial];
    }

    method Become(next: Disk)
      requires Valid()
      modifies this
      ensures Valid() && disk == next && history == old(history) + [next]
    {
      disk := next;
      history := history + [next];
    }

    /** `mkdir(parents=True, exist_ok=True)`; a failure may leave some of the new directories. */
    method MakeDirs(p: Path, fault: bool, partial: set<Path>) returns (ok: bool)
      requires Valid()
      modifies this
      ensures Valid() && disk.files == old(disk.files)
      ensures old(disk.dirs) <= disk.dirs <= old(disk.dirs) + Ancestors(p)
      ensures ok <==> !fault && old(disk.files).Keys !! Ancestors(p)
      ensures ok ==> disk.dirs == old(disk.dirs) + Ancestors(p)
      ensures history == old(history) + [disk]
    {
      if fault || !(disk.files.Keys !! Ancestors(p)) {
        Become(disk.(dirs := disk.dirs + (partial * Ancestors(p))));
        return false;
      }
      Become(disk.(dirs := disk.dirs + Ancestors(p)));
      return true;
    }

    /** `write_text`: the file is created or emptied, then filled. */
    method Write(p: Path, data: Bytes, fault: WriteFault) returns (ok: bool)
      requires Valid() && p !in disk.dirs
      modifies this
      ensures Valid() && disk.dirs == old(disk.dirs)
      ensures ok <==> fault.NoFault?
      ensures ok ==> disk.files == old(disk.files)[p := data]
      ensures fault.CannotOpen? ==> disk == old(disk)
      ensures !fault.CannotOpen? ==> disk.files.Keys == old(disk.files).Keys + {p}
      ensures disk.files - {p} == old(disk.files) - {p}
      ensures |old(history)| <= |history| && history[..|old(history)|] == old(history)
      ensures forall k | |old(history)| <= k < |history| ::
                history[k].files - {p} == old(disk.files) - {p}
    {
      ghost var before := disk;
      if fault.CannotOpen? {
        return false;
      }
      Become(disk.(files := disk.files[p := []]));
      assert disk.files - {p} == before.files - {p};
      if fault.Interrupted? {
        Become(disk.(files := disk.files[p := if fault.written < |data| then data[..fault.written] else data]));
        assert disk.files - {p} == before.files - {p};
        return false;
      }
      Become(disk.(files := disk.files[p := data]));
      assert disk.files == before.files[p := data];
      assert disk.files - {p} == before.files - {p};
      return true;
    }

    /** `os.replace` of a file: refused onto a directory, otherwise one atomic step. */
    method Replace(src: Path, dst: Path, fault: bool) returns (ok: bool)
      requires Valid() && src in disk.files && src != dst
      modifies this
      ensures Valid() && disk.dirs == old(disk.dirs)
      ensures ok <==> !fault && dst !in old(disk.dirs)
      ensures disk.files == if ok then (old(disk.files) - {src})[dst := old(disk.files)[src]] else old(disk.files)
      ensures history == if ok then old(history) + [disk] else old(history)
    {
      if fault || dst in disk.dirs {
        return false;
      }
      Become(disk.(files := (disk.files - {src})[dst := disk.files[src]]));
      return true;
    }

    /** `unlink(missing_ok=True)` */
    method Unlink(p: Path, fault: bool) returns (ok: bool)
      requires Valid()
      modifies this
      ensures Valid() && disk.dirs == old(disk.dirs)
      ensures ok <==> !fault
      ensures disk.files == if ok then old(disk.files) - {p} else old(disk.files)
      ensures history == if ok then old(history) + [disk] else old(history)
    {
      if fault {
        return false;
      }
      Become(disk.(files := disk.files - {p}));
      return true;
    }
  }
}
