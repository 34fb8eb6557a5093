/**
 Research-source intake: reading a batch, saving it to the Date-ID store in one
 transaction, exporting Date.md, and the smoke check that compares file and store.
 */
module Intake {
  import opened Wrappers
  import opened PyText
  import opened Sorting
  import DateIds
  import opened SourceRecords
  import opened DateMdParser
  import opened DateMdRender
  import opened DateMdRoundTrip

  // ------------------------------------------------------------- batch input

  /** What decoding and validating one line of the JSONL file yields. */
  datatype JsonlLine = Blank | NotJson | NotObject | NotRecord | Good(record: SourceRecord)

  datatype IntakeError =
    | InvalidJson(line: nat)
    | NotAnObject(line: nat)
    | InvalidRecord(line: nat)
    | RepeatedInInput(line: nat, dateId: string)
    | OutputExists
    | AlreadyStored(dateId: string)
    | StoreNotFound

  /** The records of the good lines, in order. */
  function GoodRecords(lines: seq<JsonlLine>): seq<SourceRecord> {
    if lines == [] then []
    else GoodRecords(lines[..|lines| - 1]) + (if lines[|lines| - 1].Good? then [lines[|lines| - 1].record] else [])
  }

  /** Every record is one that `DateIdSourceRecord` accepts. */
  predicate AllValid(rs: seq<SourceRecord>) {
    forall i | 0 <= i < |rs| :: ValidRecord(rs[i])
  }

  /** Decoding yields validated records only. */
  predicate AreDecoded(lines: seq<JsonlLine>) {
    forall i | 0 <= i < |lines| && lines[i].Good? :: ValidRecord(lines[i].record)
  }

  lemma {:induction false} GoodRecordsValid(lines: seq<JsonlLine>)
    requires AreDecoded(lines)
    ensures AllValid(GoodRecords(lines))
  {
    hide ValidRecord;
    if lines != [] {
      var init := lines[..|lines| - 1];
      assert forall i | 0 <= i < |init| :: init[i] == lines[i];
      GoodRecordsValid(init);
    }
  }

  /** What is wrong with line `i` (numbered from one), given the lines before it. */
  function LineFault(lines: seq<JsonlLine>, i: nat): Option<IntakeError>
    requires i < |lines|
  {
    match lines[i]
    case Blank => None
    case NotJson => Some(InvalidJson(i + 1))
    case NotObject => Some(NotAnObject(i + 1))
    case NotRecord => Some(InvalidRecord(i + 1))
    case Good(r) =>
      if r.dateId in IdsOf(GoodRecords(lines[..i])) then Some(RepeatedInInput(i + 1, r.dateId)) else None
  }

  lemma IdsOfSnoc(rs: seq<SourceRecord>, r: SourceRecord)
    ensures IdsOf(rs + [r]) == IdsOf(rs) + {r.dateId}
    ensures DistinctIds(rs + [r]) <==> DistinctIds(rs) && r.dateId !in IdsOf(rs)
  {
    var all := rs + [r];
    assert r in all && all[|rs|] == r;
    forall x | x in IdsOf(rs) ensures x in IdsOf(all) {
      var t :| t in rs && t.dateId == x;
      assert t in all;
    }
    assert forall i | 0 <= i < |rs| :: all[i] == rs[i];
    if r.dateId in IdsOf(rs) {
      var t :| t in rs && t.dateId == r.dateId;
      var i :| 0 <= i < |rs| && rs[i] == t;
      assert all[i].dateId == all[|rs|].dateId;
    }
  }

  lemma NoIds()
    ensures IdsOf([]) == {} && DistinctIds([])
  {
  }

  /** `parse_jsonl_records`: a clean batch has distinct ids, one record per non-blank line; otherwise the first bad line is named. */
  method ParseJsonlRecords(lines: seq<JsonlLine>) returns (r: Result<seq<SourceRecord>, IntakeError>, linesRead: nat)
    ensures r.Ok? <==> forall i | 0 <= i < |lines| :: LineFault(lines, i).None?
    ensures r.Ok? ==> r.value == GoodRecords(lines) && DistinctIds(r.value) && linesRead == |r.value|
    ensures r.Err? ==> exists i | 0 <= i < |lines| ::
              LineFault(lines, i) == Some(r.error) && forall j | 0 <= j < i :: LineFault(lines, j).None?
  {
    hide ValidRecord, IdsOf, DistinctIds;
    var records: seq<SourceRecord> := [];
    var seen: set<string> := {};
    linesRead := 0;
    NoIds();
    for i := 0 to |lines|
      invariant records == GoodRecords(lines[..i]) && seen == IdsOf(records)
      invariant DistinctIds(records) && linesRead == |records|
      invariant forall j | 0 <= j < i :: LineFault(lines, j).None?
    {
      assert lines[..i + 1][..i] == lines[..i];
      match lines[i] {
        case Blank =>
        case NotJson =>
          r := Err(InvalidJson(i + 1));
          assert LineFault(lines, i) == Some(r.error);
          return;
        case NotObject =>
          r := Err(NotAnObject(i + 1));
          assert LineFault(lines, i) == Some(r.error);
          return;
        case NotRecord =>
          r := Err(InvalidRecord(i + 1));
          assert LineFault(lines, i) == Some(r.error);
          return;
        case Good(record) =>
          linesRead := linesRead + 1;
          if record.dateId in seen {
            r := Err(RepeatedInInput(i + 1, record.dateId));
            assert LineFault(lines, i) == Some(r.error);
            return;
          }
          IdsOfSnoc(records, record);
          seen := seen + {record.dateId};
          records := records + [record];
      }
    }
    assert lines[..|lines|] == lines;
    r := Ok(records);
  }

  // ------------------------------------------------------------------- store

  predicate IdLe(a: SourceRecord, b: SourceRecord) {
    StrLe(a.dateId, b.dateId)
  }

  lemma IdLeIsPreorder()
    ensures TotalPreorder(IdLe)
  {
    hide StrLe;
    forall a, b ensures IdLe(a, b) || IdLe(b, a) {
      StrLeTotal(a.dateId, b.dateId);
    }
    forall a, b, c | IdLe(a, b) && IdLe(b, c) ensures IdLe(a, c) {
      StrLeTransitive(a.dateId, b.dateId, c.dateId);
    }
  }

  /** The rows in ascending order of id. */
  function Listed(rows: seq<SourceRecord>): (rs: seq<SourceRecord>)
    ensures multiset(rs) == multiset(rows)
  {
    SortBy(rows, IdLe)
  }

  lemma {:induction false} ListedAscends(rows: seq<SourceRecord>)
    requires DistinctIds(rows)
    ensures forall i, j | 0 <= i < j < |Listed(rows)| :: StrLt(Listed(rows)[i].dateId, Listed(rows)[j].dateId)
  {
    hide StrLe, TotalPreorder, SortBy;
    IdLeIsPreorder();
    SortBySorts(rows, IdLe);
    PermutedDistinct(Listed(rows), rows);
    var rs := Listed(rows);
    forall i, j | 0 <= i < j < |rs| ensures StrLt(rs[i].dateId, rs[j].dateId) {
      assert IdLe(rs[i], rs[j]);
    }
  }

  /** Rows in insertion order; `working` is what the open connection sees before commit. */
  class DateIdStore {
    var committed: seq<SourceRecord>
    var working: seq<SourceRecord>

    constructor ()
      ensures Valid() && Idle() && committed == []
    {
      committed, working := [], [];
    }

    ghost predicate Valid()
      reads this
    {
      DistinctIds(committed) && DistinctIds(working) && AllValid(committed) && AllValid(working)
    }

    ghost predicate Idle()
      reads this
    {
      working == committed
    }

    /** INSERT: refused when the primary key exists. */
    method SaveRecord(r: SourceRecord) returns (saved: bool)
      requires Valid() && ValidRecord(r)
      modifies `working
      ensures Valid()
      ensures saved <==> r.dateId !in IdsOf(old(working))
      ensures working == if saved then old(working) + [r] else old(working)
    {
      hide ValidRecord;
      IdsOfSnoc(working, r);
      if r.dateId in IdsOf(working) {
        return false;
      }
      working := working + [r];
      saved := true;
    }

    method Commit()
      requires Valid()
      modifies `committed
      ensures Valid() && Idle() && committed == working
    {
      committed := working;
    }

    method Rollback()
      requires Valid()
      modifies `working
      ensures Valid() && Idle() && working == committed
    {
      working := committed;
    }

    /** `SELECT * ... ORDER BY date_id ASC`: every row once, ids strictly ascending. */
    method ListRecords() returns (rs: seq<SourceRecord>)
      requires Valid()
      ensures multiset(rs) == multiset(working)
      ensures forall i, j | 0 <= i < j < |rs| :: StrLt(rs[i].dateId, rs[j].dateId)
      ensures rs == Listed(working)
    {
      rs := Listed(working);
      ListedAscends(working);
    }
  }

  /** No id of the batch repeats or is already stored. */
  predicate Fresh(stored: seq<SourceRecord>, batch: seq<SourceRecord>) {
    DistinctIds(batch) && IdsOf(batch) !! IdsOf(stored)
  }

  lemma DistinctAppend(a: seq<SourceRecord>, b: seq<SourceRecord>)
    requires DistinctIds(a)
    ensures DistinctIds(a + b) <==> Fresh(a, b)
  {
    var all := a + b;
    if Fresh(a, b) {
      forall i, j | 0 <= i < j < |all| ensures all[i].dateId != all[j].dateId {
        if i < |a| <= j {
          assert all[i] in a && all[j] in b;
          assert all[i].dateId in IdsOf(a) && all[j].dateId in IdsOf(b);
        }
      }
    } else if DistinctIds(b) {
      var x :| x in IdsOf(a) && x in IdsOf(b);
      var s :| s in a && s.dateId == x;
      var t :| t in b && t.dateId == x;
      var i :| 0 <= i < |a| && a[i] == s;
      var j :| 0 <= j < |b| && b[j] == t;
      assert all[i].dateId == all[|a| + j].dateId;
    } else {
      var i, j :| 0 <= i < j < |b| && b[i].dateId == b[j].dateId;
      assert all[|a| + i].dateId == all[|a| + j].dateId;
    }
  }

  /** `_save_records_to_store`: all of the batch or none of it. */
  method SaveRecordsToStore(store: DateIdStore, records: seq<SourceRecord>) returns (r: Result<nat, IntakeError>)
    requires store.Valid() && store.Idle() && AllValid(records)
    modifies store
    ensures store.Valid() && store.Idle()
    ensures r.Ok? <==> Fresh(old(store.committed), records)
    ensures r.Ok? ==> r.value == |records| && store.committed == old(store.committed) + records
    ensures r.Err? ==> store.committed == old(store.committed)
    ensures r.Err? ==> exists k | 0 <= k < |records| ::
              && r.error == AlreadyStored(records[k].dateId)
              && Fresh(old(store.committed), records[..k])
              && records[k].dateId in IdsOf(old(store.committed) + records[..k])
  {
    hide ValidRecord, DistinctIds, IdsOf;
    ghost var before := store.committed;
    DistinctAppend(before, []);
    assert before + records[..0] == before;
    for k := 0 to |records|
      invariant store.Valid() && store.committed == before
      invariant store.working == before + records[..k]
    {
      var saved := store.SaveRecord(records[k]);
      assert records[..k + 1] == records[..k] + [records[k]];
      assert before + records[..k + 1] == before + records[..k] + [records[k]];
      DistinctAppend(before, records[..k]);
      if !saved {
        IdsOfSnoc(before + records[..k], records[k]);
        PrefixDistinct(before, records, k + 1);
        DistinctAppend(before, records);
        assert !Fresh(before, records) && Fresh(before, records[..k]);
        store.Rollback();
        return Err(AlreadyStored(records[k].dateId));
      }
    }
    assert records[..|records|] == records;
    DistinctAppend(before, records);
    store.Commit();
    return Ok(|records|);
  }

  lemma PrefixDistinct(before: seq<SourceRecord>, records: seq<SourceRecord>, k: nat)
    requires k <= |records|
    ensures DistinctIds(before + records) ==> DistinctIds(before + records[..k])
  {
    var p, all := before + records[..k], before + records;
    assert forall i | 0 <= i < |p| :: p[i] == all[i];
  }

  // ------------------------------------------------------------ normal mode

  /** A text file that was written out, or whose writing stopped after some bytes of the encoded text. */
  datatype Written = Whole(text: string) | Cut(intended: string, bytes: nat)

  /** What stands at the output path. */
  datatype Output = Absent | Directory | File(content: Written)

  /** What the operating system may refuse while Date.md is written. */
  datatype ExportFault = NoFault | NoParent | CannotOpen | Interrupted(bytes: nat)

  /** What it may refuse during a run: opening or writing the store, listing it, writing the file. */
  datatype Faults = Faults(store: bool, listing: bool, write: ExportFault)

  /** A run reports success or its own error, or an error nobody handles leaves it. */
  datatype End = Done(count: nat) | Refused(error: IntakeError) | Crashed

  class ExportPath {
    var output: Output

    constructor (initial: Output)
      ensures output == initial
    {
      output := initial;
    }
  }

  function AfterExport(before: Output, text: string, fault: ExportFault): (bool, Output) {
    if before.Directory? || fault.NoParent? || fault.CannotOpen? then (false, before)
    else if fault.Interrupted? then (false, File(Cut(text, fault.bytes)))
    else (true, File(Whole(text)))
  }

  /** `export_date_md`: written in place, so a failure part-way leaves the file cut short. */
  method ExportDateMd(path: ExportPath, records: seq<SourceRecord>, fault: ExportFault) returns (ok: bool)
    modifies path
    ensures (ok, path.output) == AfterExport(old(path.output), Rendered(records), fault)
  {
    if fault.NoParent? {
      return false;
    }
    var text := RenderDateMd(records);
    if path.output.Directory? || fault.CannotOpen? {
      return false;
    }
    path.output := File(Cut(text, 0));
    if fault.Interrupted? {
      path.output := File(Cut(text, fault.bytes));
      return false;
    }
    path.output := File(Whole(text));
    return true;
  }

  /** Context-budget selection is a function from the stored records to those exported. */
  type Selector = seq<SourceRecord> -> seq<SourceRecord>

  function Exported(rows: seq<SourceRecord>, select: Option<Selector>): seq<SourceRecord> {
    if select.Some? then select.value(Listed(rows)) else Listed(rows)
  }

  /** The batch parses and the output is free or may be overwritten. */
  predicate Admitted(lines: seq<JsonlLine>, before: Output, force: bool) {
    (forall i | 0 <= i < |lines| :: LineFault(lines, i).None?) && (before.Absent? || force)
  }

  predicate IsNew(lines: seq<JsonlLine>, rows: seq<SourceRecord>) {
    IdsOf(GoodRecords(lines)) !! IdsOf(rows)
  }

  /** The batch reaches the store: admitted, all ids new, and the store is not refused. */
  predicate Commits(lines: seq<JsonlLine>, rows: seq<SourceRecord>, before: Output, force: bool, faults: Faults) {
    Admitted(lines, before, force) && !faults.store && IsNew(lines, rows)
  }

  /** What stands at the output path after a run. */
  function OutputAfter(lines: seq<JsonlLine>, rows: seq<SourceRecord>, before: Output, force: bool, select: Option<Selector>, faults: Faults): Output {
    if Commits(lines, rows, before, force, faults) && !faults.listing
    then AfterExport(before, Rendered(Exported(rows + GoodRecords(lines), select)), faults.write).1
    else before
  }

  /** Every step succeeds. */
  predicate Succeeds(lines: seq<JsonlLine>, rows: seq<SourceRecord>, before: Output, force: bool, faults: Faults) {
    Commits(lines, rows, before, force, faults) && !faults.listing && faults.write.NoFault? && !before.Directory?
  }

  /**
   `run_normal`: parse, refuse to overwrite, save, list, select, export. Its own refusals change
   nothing. Once the batch is committed it stays, even when the export then fails.
   */
  method RunNormal(lines: seq<JsonlLine>, store: DateIdStore, path: ExportPath, force: bool, select: Option<Selector>, faults: Faults)
    returns (end: End)
    requires store.Valid() && store.Idle() && AreDecoded(lines)
    modifies store, path
    ensures store.Valid() && store.Idle()
    ensures end.Done? <==> Succeeds(lines, old(store.committed), old(path.output), force, faults)
    ensures end.Refused? <==>
      || !Admitted(lines, old(path.output), force)
      || (!faults.store && !IsNew(lines, old(store.committed)))
    ensures end.Refused? ==> store.committed == old(store.committed) && path.output == old(path.output)
    ensures store.committed ==
      if Commits(lines, old(store.committed), old(path.output), force, faults)
      then old(store.committed) + GoodRecords(lines) else old(store.committed)
    ensures path.output == OutputAfter(lines, old(store.committed), old(path.output), force, select, faults)
    ensures end.Done? && select.None? ==>
      path.output == File(Whole(Rendered(Listed(store.committed)))) && AgreesExactly(store.committed)
  {
    hide Rendered, LineFault, GoodRecords, IdsOf, AllValid, AreDecoded, AgreesExactly, DistinctIds;
    GoodRecordsValid(lines);
    var parsed, _ := ParseJsonlRecords(lines);
    if parsed.Err? {
      return Refused(parsed.error);
    }
    if !path.output.Absent? && !force {
      return Refused(OutputExists);
    }
    if faults.store {
      return Crashed;
    }
    var saved := SaveRecordsToStore(store, parsed.value);
    if saved.Err? {
      return Refused(saved.error);
    }
    if faults.listing {
      return Crashed;
    }
    var listed := store.ListRecords();
    var exported := if select.Some? then select.value(listed) else listed;
    var ok := ExportDateMd(path, exported, faults.write);
    if !ok {
      return Crashed;
    }
    StoreAgreesExactly(store.committed);
    return Done(saved.value);
  }

  /** The failing input: a directory as output, forced. Every clean new batch is then committed and the run crashes. */
  lemma {:induction false} DirectoryOutputCommitsAndCrashes(lines: seq<JsonlLine>, rows: seq<SourceRecord>, select: Option<Selector>)
    requires (forall i | 0 <= i < |lines| :: LineFault(lines, i).None?) && IsNew(lines, rows)
    ensures var none := Faults(false, false, NoFault);
      && Commits(lines, rows, Directory, true, none) && !Succeeds(lines, rows, Directory, true, none)
      && OutputAfter(lines, rows, Directory, true, select, none) == Directory
  {
    hide Rendered, LineFault, GoodRecords, IdsOf;
  }

  /** What a run leaves at the output: the whole export, what was there, or the export cut short. */
  lemma {:induction false} OutputLeft(lines: seq<JsonlLine>, rows: seq<SourceRecord>, before: Output, force: bool, select: Option<Selector>, faults: Faults)
    ensures var after := OutputAfter(lines, rows, before, force, select, faults);
      && (Succeeds(lines, rows, before, force, faults) ==>
            after == File(Whole(Rendered(Exported(rows + GoodRecords(lines), select)))))
      && (!Commits(lines, rows, before, force, faults) ==> after == before)
      && (Commits(lines, rows, before, force, faults) && !Succeeds(lines, rows, before, force, faults) ==>
            after == before || (faults.write.Interrupted? &&
              after == File(Cut(Rendered(Exported(rows + GoodRecords(lines), select)), faults.write.bytes))))
  {
    hide Rendered, LineFault, GoodRecords, IdsOf, Listed;
  }

  function RowsAfter(lines: seq<JsonlLine>, rows: seq<SourceRecord>, before: Output, force: bool, faults: Faults): seq<SourceRecord> {
    if Commits(lines, rows, before, force, faults) then rows + GoodRecords(lines) else rows
  }

  /** The run succeeds, or it leaves both the store and the output as they were. */
  predicate IsAllOrNothing(lines: seq<JsonlLine>, rows: seq<SourceRecord>, before: Output, force: bool, select: Option<Selector>, faults: Faults) {
    || Succeeds(lines, rows, before, force, faults)
    || (RowsAfter(lines, rows, before, force, faults) == rows && OutputAfter(lines, rows, before, force, select, faults) == before)
  }

  const NO_FAULTS := Faults(false, false, NoFault)

  /**
   When the operating system refuses nothing of its own accord, a run is all or nothing exactly
   unless a non-empty clean new batch is sent to an output that is a directory, with overwriting allowed.
   */
  lemma {:induction false} AtomicExactly(lines: seq<JsonlLine>, rows: seq<SourceRecord>, before: Output, force: bool, select: Option<Selector>)
    ensures IsAllOrNothing(lines, rows, before, force, select, NO_FAULTS) <==>
            !(before.Directory? && force && Admitted(lines, before, force) && IsNew(lines, rows) && GoodRecords(lines) != [])
  {
    hide Rendered, LineFault, GoodRecords, IdsOf, Listed, IsNew;
    AppendChanges(rows, GoodRecords(lines));
  }

  /** Under any refusals: a non-empty batch is all or nothing exactly when it is not committed or everything succeeds. */
  lemma {:induction false} AtomicUnderFaultsExactly(
    lines: seq<JsonlLine>, rows: seq<SourceRecord>, before: Output, force: bool, select: Option<Selector>, faults: Faults)
    requires GoodRecords(lines) != []
    ensures IsAllOrNothing(lines, rows, before, force, select, faults) <==>
            !Commits(lines, rows, before, force, faults) || Succeeds(lines, rows, before, force, faults)
  {
    hide Rendered, LineFault, GoodRecords, IdsOf, Listed, Admitted, IsNew;
    AppendChanges(rows, GoodRecords(lines));
  }

  lemma AppendChanges<T>(a: seq<T>, b: seq<T>)
    ensures a + b == a <==> b == []
  {
    assert |a + b| == |a| + |b|;
  }

  /** `run_export_only`: re-exports what is stored, refuses a missing store, and never writes the store. */
  method RunExportOnly(store: DateIdStore, storeExists: bool, path: ExportPath, force: bool, select: Option<Selector>, listingFails: bool, fault: ExportFault)
    returns (end: End)
    requires store.Valid() && store.Idle()
    modifies path
    ensures end.Refused? <==> (!old(path.output).Absent? && !force) || !storeExists
    ensures end.Done? <==>
      !end.Refused? && !listingFails && AfterExport(old(path.output), Rendered(Exported(store.committed, select)), fault).0
    ensures path.output ==
      if end.Refused? || listingFails then old(path.output)
      else AfterExport(old(path.output), Rendered(Exported(store.committed, select)), fault).1
    ensures end.Done? ==> end.count == |store.committed|
  {
    hide Rendered;
    if !path.output.Absent? && !force {
      return Refused(OutputExists);
    }
    if !storeExists {
      return Refused(StoreNotFound);
    }
    if listingFails {
      return Crashed;
    }
    var listed := store.ListRecords();
    SameSize(listed, store.committed);
    var exported := if select.Some? then select.value(listed) else listed;
    var ok := ExportDateMd(path, exported, fault);
    return if ok then Done(|listed|) else Crashed;
  }

  // ------------------------------------------------------------- smoke check

  datatype SmokeError =
    | BadLimit
    | TooLarge
    | Unreadable(error: ParseError)
    | MissingFromStore(dateIds: set<string>)
    | NotCovered(pairs: set<(string, string)>)

  datatype SmokeSummary = SmokeSummary(dateIds: nat, storeRecords: Option<nat>, covered: nat, missing: set<(string, string)>)

  function Utf8Width(c: char): nat {
    var n := c as int;
    if n < 0x80 then 1 else if n < 0x800 then 2 else if n < 0x10000 then 3 else 4
  }

  function Utf8Length(s: string): nat {
    if s == "" then 0 else Utf8Length(s[..|s| - 1]) + Utf8Width(s[|s| - 1])
  }

  function SectionPairs(sections: seq<Section>): set<(string, string)> {
    set s | s in sections && s.symbol.Some? && s.market.Some? :: (s.market.value, s.symbol.value)
  }

  function RecordPairs(records: seq<SourceRecord>): set<(string, string)> {
    set r | r in records && r.symbol.Some? && r.market.Some? :: (r.market.value, r.symbol.value)
  }

  function ReferencedPairs(stored: Option<seq<SourceRecord>>, sections: seq<Section>): set<(string, string)> {
    if stored.Some? then RecordPairs(stored.value) else SectionPairs(sections)
  }

  /** Some stored record has this market and symbol; without a store, some section of the file. */
  predicate IsCovered(stored: Option<seq<SourceRecord>>, sections: seq<Section>, pair: (string, string)) {
    if stored.Some? then exists r | r in stored.value :: r.market == Some(pair.0) && r.symbol == Some(pair.1)
    else exists s | s in sections :: s.market == Some(pair.0) && s.symbol == Some(pair.1)
  }

  lemma CoveredExactly(stored: Option<seq<SourceRecord>>, sections: seq<Section>)
    ensures forall pair :: pair in ReferencedPairs(stored, sections) <==> IsCovered(stored, sections, pair)
  {
  }

  /** Reading the file and comparing its ids with the store's. */
  function StoreStage(text: string, stored: seq<SourceRecord>): Result<seq<Section>, SmokeError> {
    match ParseMeaning(text)
    case Err(e) => Err(Unreadable(e))
    case Ok(sections) =>
      var missing := SectionIds(sections) - IdsOf(stored);
      if missing != {} then Err(MissingFromStore(missing)) else Ok(sections)
  }

  /** What the smoke check demands of a file, an optional store and the universe's pairs. */
  predicate SmokeAccepts(text: string, stored: Option<seq<SourceRecord>>, required: set<(string, string)>,
                         requireCoverage: bool, maxBytes: int)
  {
    && 0 < maxBytes && Utf8Length(text) <= maxBytes
    && ParseMeaning(text).Ok?
    && (stored.Some? ==> StoreStage(text, stored.value).Ok?)
    && (requireCoverage ==> forall pair | pair in required :: IsCovered(stored, ParseMeaning(text).value, pair))
  }

  /** The first stage that refuses, with what it reports. */
  function SmokeFault(text: string, stored: Option<seq<SourceRecord>>, required: set<(string, string)>,
                      requireCoverage: bool, maxBytes: int): Option<SmokeError>
  {
    if maxBytes <= 0 then Some(BadLimit)
    else if Utf8Length(text) > maxBytes then Some(TooLarge)
    else
      match ParseMeaning(text)
      case Err(e) => Some(Unreadable(e))
      case Ok(sections) =>
        if stored.Some? && StoreStage(text, stored.value).Err? then Some(StoreStage(text, stored.value).error)
        else
          var missing := required - ReferencedPairs(stored, sections);
          if requireCoverage && missing != {} then Some(NotCovered(missing)) else None
  }

  lemma {:induction false} SmokeExactly(text: string, stored: Option<seq<SourceRecord>>, required: set<(string, string)>,
                                        requireCoverage: bool, maxBytes: int)
    ensures SmokeFault(text, stored, required, requireCoverage, maxBytes).None? <==>
            SmokeAccepts(text, stored, required, requireCoverage, maxBytes)
  {
    hide ParseMeaning, Utf8Length, ReferencedPairs, IsCovered, StoreStage;
    if ParseMeaning(text).Ok? {
      CoveredExactly(stored, ParseMeaning(text).value);
      NothingMissing(required, ReferencedPairs(stored, ParseMeaning(text).value));
    }
  }

  lemma NothingMissing<T>(a: set<T>, b: set<T>)
    ensures a - b == {} <==> a <= b
  {
    if a - b == {} {
      forall x | x in a ensures x in b {
        assert x !in a - b;
      }
    }
  }

  /** `run_date_md_smoke` on a loaded universe (its enabled market/symbol pairs), file and optional store. */
  method RunDateMdSmoke(text: string, stored: Option<seq<SourceRecord>>, required: set<(string, string)>,
                        requireCoverage: bool, maxBytes: int)
    returns (r: Result<SmokeSummary, SmokeError>)
    ensures r.Ok? <==> SmokeAccepts(text, stored, required, requireCoverage, maxBytes)
    ensures r.Err? ==> SmokeFault(text, stored, required, requireCoverage, maxBytes) == Some(r.error)
    ensures r.Ok? ==>
      && r.value.covered + |r.value.missing| == |required|
      && (forall pair :: pair in r.value.missing <==> pair in required && !IsCovered(stored, ParseMeaning(text).value, pair))
      && r.value.dateIds == |ParseMeaning(text).value|
      && r.value.storeRecords == if stored.Some? then Some(|stored.value|) else None
    ensures r.Err? && r.error.NotCovered? ==>
      ParseMeaning(text).Ok? && forall pair :: pair in r.error.pairs <==> pair in required && !IsCovered(stored, ParseMeaning(text).value, pair)
  {
    hide ParseMeaning, Utf8Length, ReferencedPairs, IsCovered, DateIds.IsCanonical, SmokeAccepts;
    SmokeExactly(text, stored, required, requireCoverage, maxBytes);
    if maxBytes <= 0 {
      return Err(BadLimit);
    }
    if Utf8Length(text) > maxBytes {
      return Err(TooLarge);
    }
    var parsed := ParseDateMdSections(text);
    if parsed.Err? {
      return Err(Unreadable(parsed.error));
    }
    var sections := parsed.value;
    var dateIds := SectionIds(sections);
    if stored.Some? && dateIds - IdsOf(stored.value) != {} {
      return Err(MissingFromStore(dateIds - IdsOf(stored.value)));
    }
    var referenced := ReferencedPairs(stored, sections);
    CoveredExactly(stored, sections);
    var missing := required - referenced;
    if requireCoverage && missing != {} {
      return Err(NotCovered(missing));
    }
    SummaryCounts(text, required, referenced);
    r := Ok(SmokeSummary(|dateIds|, if stored.Some? then Some(|stored.value|) else None, |required * referenced|, missing));
  }

  lemma {:induction false} SummaryCounts(text: string, required: set<(string, string)>, referenced: set<(string, string)>)
    requires ParseMeaning(text).Ok?
    ensures |SectionIds(ParseMeaning(text).value)| == |ParseMeaning(text).value|
    ensures |required * referenced| + |required - referenced| == |required|
  {
    hide ParseMeaning, DateIds.IsCanonical;
    ParsedIdsDistinct(text);
    DistinctSectionsCount(ParseMeaning(text).value);
    assert required == (required * referenced) + (required - referenced) && (required * referenced) !! (required - referenced);
  }

  lemma {:induction false} DistinctSectionsCount(sections: seq<Section>)
    requires forall i, j | 0 <= i < j < |sections| :: sections[i].dateId != sections[j].dateId
    ensures |SectionIds(sections)| == |sections|
  {
    if sections != [] {
      var init, last := sections[..|sections| - 1], sections[|sections| - 1];
      DistinctSectionsCount(init);
      assert sections == init + [last];
      SectionIdsSnoc(init, last);
      assert last.dateId !in SectionIds(init);
    }
  }

  lemma {:induction false} IdsCount(rs: seq<SourceRecord>)
    ensures |IdsOf(rs)| <= |rs|
  {
    if rs != [] {
      var init, last := rs[..|rs| - 1], rs[|rs| - 1];
      IdsCount(init);
      assert rs == init + [last];
      IdsOfSnoc(init, last);
    }
  }

  // ------------------------------------------------- file and store agreement

  /** Distinct records without false headings print to a readable document that names only their ids. */
  lemma {:induction false} ExportReads(selected: seq<SourceRecord>)
    requires selected != [] && DistinctIds(selected)
    requires forall r | r in selected :: ValidRecord(r)
    requires forall r | r in selected :: NoFalseHeading(r)
    ensures ParseMeaning(Rendered(selected)).Ok?
    ensures SectionIds(ParseMeaning(Rendered(selected)).value) <= IdsOf(selected)
  {
    hide ValidRecord, NoFalseHeading, ParseMeaning, Rendered, CheckBlocks, SymbolKept, MarketKept, IsHeading, BlockSection, FaultAt,
         DocumentBlocks, IdsOf;
    ParseRendered(selected);
    var bs := DocumentBlocks(selected);
    var r := CheckBlocks([], bs);
    assert bs[..0] == [] && bs[0..] == bs;
    CheckBlocksIsFirstFault(bs, 0, []);
    BlockPerRecord(selected);
    OneBlockEach(selected, r);
    SectionIdsAreRecordIds(selected, r.value);
  }

  /** Any selection of stored records without false headings passes the store stage. */
  lemma {:induction false} SelectionPasses(selected: seq<SourceRecord>, stored: seq<SourceRecord>)
    requires selected != [] && DistinctIds(selected) && IdsOf(selected) <= IdsOf(stored)
    requires forall r | r in selected :: ValidRecord(r)
    requires forall r | r in selected :: NoFalseHeading(r)
    ensures StoreStage(Rendered(selected), stored).Ok?
  {
    hide ValidRecord, NoFalseHeading, ParseMeaning, Rendered, IdsOf, SectionIds, DistinctIds;
    ExportReads(selected);
    NothingMissing(SectionIds(ParseMeaning(Rendered(selected)).value), IdsOf(stored));
  }

  lemma {:induction false} SectionIdsAreRecordIds(rs: seq<SourceRecord>, sections: seq<Section>)
    requires forall r | r in rs :: ValidRecord(r)
    requires |DocumentBlocks(rs)| == |rs| && ReadsAs(DocumentBlocks(rs), sections)
    ensures SectionIds(sections) <= IdsOf(rs)
  {
    hide ValidRecord, NoFalseHeading, SymbolKept, MarketKept, IsHeading, BlockFault, HeadingId, TailLines, HeadingElement, DocumentBlocks;
    BlockPerRecord(rs);
    forall x | x in SectionIds(sections) ensures x in IdsOf(rs) {
      var s :| s in sections && s.dateId == x;
      var i :| 0 <= i < |sections| && sections[i] == s;
      RecordBlockReads(rs[i]);
      assert rs[i] in rs;
    }
  }

  /**
   The full export of a store passes the store stage exactly when the store is not empty
   and no continuation line of a stored field reads as a heading.
   */
  lemma {:induction false} FullExportPassesExactly(stored: seq<SourceRecord>)
    requires DistinctIds(stored) && forall r | r in stored :: ValidRecord(r)
    ensures StoreStage(Rendered(Listed(stored)), stored).Ok? <==>
            stored != [] && forall r | r in stored :: NoFalseHeading(r)
  {
    hide ValidRecord, NoFalseHeading, ParseMeaning, Rendered, IsHeading;
    var rs := Listed(stored);
    SameElements(rs, stored);
    PermutedDistinct(rs, stored);
    assert IdsOf(rs) == IdsOf(stored);
    ParseRendered(rs);
    if stored != [] {
      assert rs != [];
      if forall r | r in stored :: NoFalseHeading(r) {
        SelectionPasses(rs, stored);
      } else {
        FalseHeadingFails(rs);
      }
    }
  }

  /** The full export of these rows passes the smoke check's store stage exactly when there is a row and none hides a heading. */
  ghost predicate AgreesExactly(rows: seq<SourceRecord>)
    requires AllValid(rows)
  {
    StoreStage(Rendered(Listed(rows)), rows).Ok? <==> rows != [] && forall i | 0 <= i < |rows| :: NoFalseHeading(rows[i])
  }

  lemma {:induction false} StoreAgreesExactly(rows: seq<SourceRecord>)
    requires DistinctIds(rows) && AllValid(rows)
    ensures AgreesExactly(rows)
  {
    hide ValidRecord, NoFalseHeading, Rendered, Listed, DistinctIds, StoreStage;
    forall r | r in rows ensures ValidRecord(r) {
      var i :| 0 <= i < |rows| && rows[i] == r;
    }
    FullExportPassesExactly(rows);
    if forall i | 0 <= i < |rows| :: NoFalseHeading(rows[i]) {
      forall r | r in rows ensures NoFalseHeading(r) {
        var i :| 0 <= i < |rows| && rows[i] == r;
      }
    }
  }

  lemma {:induction false} PermutedDistinct(a: seq<SourceRecord>, b: seq<SourceRecord>)
    requires multiset(a) == multiset(b) && DistinctIds(b)
    ensures DistinctIds(a)
  {
    forall i, j | 0 <= i < j < |a| ensures a[i].dateId != a[j].dateId {
      if a[i].dateId == a[j].dateId {
        SameElements(a, b);
        assert a[i] in b && a[j] in b;
        if a[i] == a[j] {
          TwiceInMultiset(a, i, j);
          DistinctOnce(b, a[i]);
        }
      }
    }
  }

  lemma {:induction false} TwiceInMultiset(a: seq<SourceRecord>, i: nat, j: nat)
    requires i < j < |a| && a[i] == a[j]
    ensures multiset(a)[a[i]] >= 2
  {
    assert a == a[..j] + [a[j]] + a[j + 1..];
    assert a[..j] == a[..i] + [a[i]] + a[i + 1..j];
  }

  lemma {:induction false} DistinctOnce(b: seq<SourceRecord>, r: SourceRecord)
    requires DistinctIds(b)
    ensures multiset(b)[r] <= 1
  {
    if b != [] {
      var init, last := b[..|b| - 1], b[|b| - 1];
      assert b == init + [last];
      DistinctOnce(init, r);
      if last == r {
        assert r !in init;
        assert r !in multiset(init);
      }
    }
  }

  /** A false heading adds a section whose id cannot be both new and stored. */
  lemma {:induction false} FalseHeadingFails(rs: seq<SourceRecord>)
    requires rs != [] && forall r | r in rs :: ValidRecord(r)
    requires exists r | r in rs :: !NoFalseHeading(r)
    ensures !StoreStage(Rendered(rs), rs).Ok?
  {
    hide ValidRecord, NoFalseHeading, ParseMeaning, Rendered, CheckBlocks, DocumentBlocks, IsHeading, BlockSection, FaultAt, BlockId, DateIds.IsCanonical;
    ParseRendered(rs);
    var bs := DocumentBlocks(rs);
    var r := ParseMeaning(Rendered(rs));
    assert bs[..0] == [] && bs[0..] == bs;
    CheckBlocksIsFirstFault(bs, 0, []);
    BlockPerRecord(rs);
    if r.Ok? {
      ParsedIdsDistinct(Rendered(rs));
      DistinctSectionsCount(r.value);
      IdsCount(rs);
      var missing := SectionIds(r.value) - IdsOf(rs);
      if missing == {} {
        assert SectionIds(r.value) <= IdsOf(rs) by {
          forall x | x in SectionIds(r.value) ensures x in IdsOf(rs) {
            assert x !in missing;
          }
        }
        SubsetCount(SectionIds(r.value), IdsOf(rs));
      }
    }
  }

  lemma {:induction false} SubsetCount<T>(a: set<T>, b: set<T>)
    requires a <= b
    ensures |a| <= |b|
  {
    assert b == a + (b - a);
  }
}
