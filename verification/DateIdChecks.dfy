/** Existence and staleness of cited Date-IDs, as the allocator and analysis validators use them. */
module DateIdChecks {
  import opened Wrappers
  import opened Sorting
  import opened SourceRecords

  const HOUR: int := 3_600_000_000
  const DAY: int := 24 * HOUR

  /** Longest accepted age, in microseconds, by kind of fact. */
  function MaxAge(f: FactType): int {
    match f
    case Price => DAY
    case Flow => DAY
    case Fx => DAY
    case News => 7 * DAY
    case Disclosure => 90 * DAY
    case Macro => 30 * DAY
    case Manual => 365 * DAY
  }

  function FindRecord(stored: seq<SourceRecord>, id: string): (r: Option<SourceRecord>)
    ensures r.Some? <==> id in IdsOf(stored)
    ensures r.Some? ==> r.value in stored && r.value.dateId == id
  {
    if stored == [] then None
    else if stored[0].dateId == id then Some(stored[0])
    else
      var rest := FindRecord(stored[1..], id);
      assert stored == [stored[0]] + stored[1..];
      assert IdsOf(stored) == {stored[0].dateId} + IdsOf(stored[1..]);
      rest
  }

  datatype Severity = Info | Warning | Error

  /** What `DateIdValidator` can report about an id. */
  datatype DateIdKind = Invalid | MissingField | Missing | Stale | FutureSource

  datatype Owner = AllocatorOwner | AnalysisOwner

  /** The allocator's business rules in order of priority. */
  datatype Rule = SumIs100 | GoldInBand | CashInBand | WeightsAgree | CashAgrees | ConsistencyPassed

  /** A validator's own codes and those it takes over from `DateIdValidator`. */
  datatype Code =
    | DateIdCode(kind: DateIdKind)
    | OwnedDateIdCode(owner: Owner, kind: DateIdKind)
    | RuleCode(rule: Rule)
    | ToleranceCode

  datatype Issue = Issue(code: Code, message: string, severity: Severity, path: Option<string>)

  predicate IsReported(k: DateIdKind) {
    k.Missing? || k.Stale? || k.FutureSource?
  }

  /** A cited id is usable when it is stored, its source is not in the future, and it is not too old. */
  predicate Usable(stored: seq<SourceRecord>, id: string, now: int) {
    match FindRecord(stored, id)
    case None => false
    case Some(r) => r.instant <= now && now - r.instant <= MaxAge(r.factType)
  }

  function DateIdIssue(stored: seq<SourceRecord>, id: string, now: int): (r: Option<Issue>)
    ensures r.None? <==> Usable(stored, id, now)
    ensures r.Some? ==> r.value.code.DateIdCode? && IsReported(r.value.code.kind)
    ensures r.Some? && r.value.code == DateIdCode(Missing) ==> id !in IdsOf(stored)
  {
    match FindRecord(stored, id)
    case None => Some(Issue(DateIdCode(Missing), "date_id not found in store: " + id, Error, None))
    case Some(r) =>
      if r.instant > now then
        Some(Issue(DateIdCode(FutureSource),
                   "date_id source_timestamp is in the future: " + id + " (" + r.sourceTimestamp + ")", Error, None))
      else if now - r.instant > MaxAge(r.factType) then
        Some(Issue(DateIdCode(Stale), "date_id is stale: " + id + " (fact_type=" + FactName(r.factType) + ")", Error, None))
      else None
  }

  /** The hours after which a fact of a kind is stale. */
  predicate StaysFresh(f: FactType, hours: int) {
    || (f in {Price, Flow, Fx} && hours == 24)
    || (f == News && hours == 7 * 24)
    || (f == Macro && hours == 30 * 24)
    || (f == Disclosure && hours == 90 * 24)
    || (f == Manual && hours == 365 * 24)
  }

  /** Record `k` is the one an id stands for: the first stored under it. */
  predicate IsRecordOf(stored: seq<SourceRecord>, id: string, k: int) {
    0 <= k < |stored| && stored[k].dateId == id && forall j | 0 <= j < k :: stored[j].dateId != id
  }

  lemma {:induction false} FoundAt(stored: seq<SourceRecord>, id: string, k: int)
    requires IsRecordOf(stored, id, k)
    ensures FindRecord(stored, id) == Some(stored[k])
  {
    if k > 0 {
      assert stored[0].dateId != id;
      assert forall j | 0 <= j < k - 1 :: stored[1..][j] == stored[j + 1];
      FoundAt(stored[1..], id, k - 1);
    }
  }

  /**
   Which of the three problems an id has: not stored, from the future, or older than its kind
   stays fresh, in microseconds; and none exactly when it is stored, not from the future and fresh.
   */
  lemma {:induction false} IssueExactly(stored: seq<SourceRecord>, id: string, now: int, k: int, hours: int)
    requires IsRecordOf(stored, id, k) && StaysFresh(stored[k].factType, hours)
    ensures var issue := DateIdIssue(stored, id, now); var age := now - stored[k].instant;
      && (issue.None? <==> 0 <= age <= hours * 3_600_000_000)
      && (issue.Some? && issue.value.code == DateIdCode(FutureSource) <==> age < 0)
      && (issue.Some? && issue.value.code == DateIdCode(Stale) <==> age > hours * 3_600_000_000)
      && (issue.Some? ==> issue.value.severity == Error)
  {
    FoundAt(stored, id, k);
  }

  lemma {:induction false} MissingExactly(stored: seq<SourceRecord>, id: string, now: int)
    ensures var issue := DateIdIssue(stored, id, now);
      issue.Some? && issue.value.code == DateIdCode(Missing) <==> forall r | r in stored :: r.dateId != id
  {
    hide FindRecord, FactName;
  }

  function IssuesOf(stored: seq<SourceRecord>, ids: seq<string>, now: int): (r: seq<Issue>)
    ensures r == [] <==> forall id | id in ids :: Usable(stored, id, now)
    ensures forall i | i in r :: i.code.DateIdCode? && IsReported(i.code.kind) && exists id | id in ids :: DateIdIssue(stored, id, now) == Some(i)
  {
    if ids == [] then []
    else
      var first := DateIdIssue(stored, ids[0], now);
      var rest := IssuesOf(stored, ids[1..], now);
      assert ids == [ids[0]] + ids[1..];
      assert ids[0] in ids;
      (if first.Some? then [first.value] else []) + rest
  }

  // ------------------------------------------------------------ issue order

  /** Tuples of strings in dictionary order. */
  predicate TupleLe(a: seq<string>, b: seq<string>) {
    a == [] || (b != [] && (StrLt(a[0], b[0]) || (a[0] == b[0] && TupleLe(a[1..], b[1..]))))
  }

  lemma {:induction false} TupleLeTotal(a: seq<string>, b: seq<string>)
    ensures TupleLe(a, b) || TupleLe(b, a)
  {
    if a != [] && b != [] {
      StrLeTotal(a[0], b[0]);
      if a[0] == b[0] { TupleLeTotal(a[1..], b[1..]); }
    }
  }

  lemma {:induction false} TupleLeTransitive(a: seq<string>, b: seq<string>, c: seq<string>)
    requires TupleLe(a, b) && TupleLe(b, c)
    ensures TupleLe(a, c)
  {
    if a != [] {
      if a[0] == b[0] && b[0] == c[0] {
        TupleLeTransitive(a[1..], b[1..], c[1..]);
      } else if a[0] != b[0] && b[0] != c[0] {
        StrLtTransitive(a[0], b[0], c[0]);
      }
    }
  }

  function KindText(k: DateIdKind): string {
    match k
    case Invalid => "DATE_ID_INVALID"
    case MissingField => "DATE_ID_MISSING_FIELD"
    case Missing => "DATE_ID_MISSING"
    case Stale => "DATE_ID_STALE"
    case FutureSource => "DATE_ID_FUTURE_SOURCE"
  }

  function OwnerPrefix(o: Owner): string {
    match o
    case AllocatorOwner => "ALLOCATOR_"
    case AnalysisOwner => "ANALYSIS_"
  }

  function RuleText(r: Rule): string {
    match r
    case SumIs100 => "ALLOCATOR_TARGET_WEIGHTS_SUM_INVALID"
    case GoldInBand => "ALLOCATOR_GOLD_BAND_VIOLATION"
    case CashInBand => "ALLOCATOR_CASH_TARGET_BAND_VIOLATION"
    case WeightsAgree => "ALLOCATOR_TARGET_WEIGHTS_MISMATCH"
    case CashAgrees => "ALLOCATOR_CASH_TARGET_MISMATCH"
    case ConsistencyPassed => "ALLOCATOR_CONSISTENCY_CHECK_FAILED"
  }

  function CodeText(c: Code): string {
    match c
    case DateIdCode(k) => KindText(k)
    case OwnedDateIdCode(o, k) => OwnerPrefix(o) + KindText(k)
    case RuleCode(r) => RuleText(r)
    case ToleranceCode => "ANALYSIS_ALLOCATOR_TOLERANCE_VIOLATION"
  }

  function IssueKey(i: Issue): seq<string> {
    [CodeText(i.code), if i.path.Some? then i.path.value else "", i.message]
  }

  predicate IssueLe(a: Issue, b: Issue) {
    TupleLe(IssueKey(a), IssueKey(b))
  }

  lemma IssueLeIsPreorder()
    ensures TotalPreorder(IssueLe)
  {
    hide IssueKey;
    forall a, b ensures IssueLe(a, b) || IssueLe(b, a) {
      TupleLeTotal(IssueKey(a), IssueKey(b));
    }
    forall a, b, c | IssueLe(a, b) && IssueLe(b, c) ensures IssueLe(a, c) {
      TupleLeTransitive(IssueKey(a), IssueKey(b), IssueKey(c));
    }
  }

  /** `validate_date_ids`: each distinct id once, in ascending order, issues sorted by code, path and message. */
  method ValidateDateIds(stored: seq<SourceRecord>, ids: seq<string>, now: int) returns (issues: seq<Issue>)
    ensures issues == DateIdReport(stored, ids, now)
  {
    var unique := SortedUnique(ids);
    issues := [];
    for k := 0 to |unique|
      invariant issues == IssuesOf(stored, unique[..k], now)
    {
      var issue := DateIdIssue(stored, unique[k], now);
      assert unique[..k + 1] == unique[..k] + [unique[k]];
      IssuesOfSnoc(stored, unique[..k], unique[k], now);
      if issue.Some? {
        issues := issues + [issue.value];
      }
    }
    assert unique[..|unique|] == unique;
    issues := SortBy(issues, IssueLe);
  }

  lemma {:induction false} IssuesOfSnoc(stored: seq<SourceRecord>, ids: seq<string>, id: string, now: int)
    ensures IssuesOf(stored, ids + [id], now) ==
            IssuesOf(stored, ids, now) +
            (if DateIdIssue(stored, id, now).Some? then [DateIdIssue(stored, id, now).value] else [])
  {
    hide DateIdIssue, Usable, IsReported;
    if ids == [] {
      assert ids + [id] == [id] && [id][1..] == [];
      assert IssuesOf(stored, [], now) == [];
    } else {
      var all := ids + [id];
      assert all[1..] == ids[1..] + [id] && all[0] == ids[0];
      IssuesOfSnoc(stored, ids[1..], id, now);
    }
  }

  function DateIdReport(stored: seq<SourceRecord>, ids: seq<string>, now: int): seq<Issue> {
    SortBy(IssuesOf(stored, SortedUnique(ids), now), IssueLe)
  }

  /** The report is empty exactly when every cited id is usable, and it reports only cited ids. */
  lemma {:induction false} DateIdReportExact(stored: seq<SourceRecord>, ids: seq<string>, now: int)
    ensures DateIdReport(stored, ids, now) == [] <==> forall id | id in ids :: Usable(stored, id, now)
    ensures forall i | i in DateIdReport(stored, ids, now) ::
              i.code.DateIdCode? && IsReported(i.code.kind) && exists id | id in ids :: DateIdIssue(stored, id, now) == Some(i)
    ensures SortedBy(DateIdReport(stored, ids, now), IssueLe)
  {
    hide DateIdIssue, Usable, IssueKey;
    var raw := IssuesOf(stored, SortedUnique(ids), now);
    IssueLeIsPreorder();
    SortBySorts(raw, IssueLe);
    SameElements(SortBy(raw, IssueLe), raw);
  }

  // ------------------------------------------------ issues taken over by owners

  /** A reported Date-ID issue under the owner's code; any other issue is dropped. */
  function Mapped(owner: Owner, i: Issue): Option<Issue> {
    if i.code.DateIdCode? && IsReported(i.code.kind)
    then Some(i.(code := OwnedDateIdCode(owner, i.code.kind)))
    else None
  }

  function MappedIssues(owner: Owner, issues: seq<Issue>): (r: seq<Issue>)
    ensures |r| <= |issues|
    ensures (forall i | i in issues :: Mapped(owner, i).Some?) ==>
              |r| == |issues| && forall k | 0 <= k < |r| :: Some(r[k]) == Mapped(owner, issues[k])
  {
    if issues == [] then []
    else
      var m := Mapped(owner, issues[|issues| - 1]);
      var init := issues[..|issues| - 1];
      assert issues == init + [issues[|issues| - 1]];
      MappedIssues(owner, init) + (if m.Some? then [m.value] else [])
  }

  /** `_map_date_id_issues` */
  method MapDateIdIssues(owner: Owner, issues: seq<Issue>) returns (mapped: seq<Issue>)
    ensures mapped == MappedIssues(owner, issues)
  {
    mapped := [];
    for k := 0 to |issues|
      invariant mapped == MappedIssues(owner, issues[..k])
    {
      assert issues[..k + 1][..k] == issues[..k];
      var m := Mapped(owner, issues[k]);
      if m.Some? {
        mapped := mapped + [m.value];
      }
    }
    assert issues[..|issues|] == issues;
  }

  lemma StrLePrefixed(p: string, a: string, b: string)
    ensures StrLe(p + a, p + b) <==> StrLe(a, b)
  {
    if p == "" {
      assert p + a == a && p + b == b;
    } else {
      assert (p + a)[1..] == p[1..] + a && (p + b)[1..] == p[1..] + b;
      StrLePrefixed(p[1..], a, b);
    }
  }

  /** Renaming the codes of one owner keeps their order. */
  lemma {:induction false} MappingKeepsOrder(owner: Owner, a: Issue, b: Issue)
    requires Mapped(owner, a).Some? && Mapped(owner, b).Some? && IssueLe(a, b)
    ensures IssueLe(Mapped(owner, a).value, Mapped(owner, b).value)
  {
    hide OwnerPrefix, KindText, StrLe;
    var p, x, y := OwnerPrefix(owner), KindText(a.code.kind), KindText(b.code.kind);
    StrLePrefixed(p, x, y);
    assert p + x == p + y ==> x == y by {
      if p + x == p + y { assert (p + x)[|p|..] == x && (p + y)[|p|..] == y; }
    }
    var (ka, kb) := (IssueKey(a), IssueKey(b));
    var (ma, mb) := (IssueKey(Mapped(owner, a).value), IssueKey(Mapped(owner, b).value));
    assert ma[1..] == ka[1..] && mb[1..] == kb[1..];
  }

  /** Sorting the taken-over issues again changes nothing: they are the report under new codes. */
  lemma {:induction false} MappedReport(owner: Owner, stored: seq<SourceRecord>, ids: seq<string>, now: int)
    ensures var report := DateIdReport(stored, ids, now); var mapped := MappedIssues(owner, report);
      && SortBy(mapped, IssueLe) == mapped
      && |mapped| == |report|
      && (forall k | 0 <= k < |report| :: Some(mapped[k]) == Mapped(owner, report[k]))
      && (mapped == [] <==> forall id | id in ids :: Usable(stored, id, now))
  {
    hide DateIdReport, Usable, IssueLe, DateIdIssue;
    var report := DateIdReport(stored, ids, now);
    DateIdReportExact(stored, ids, now);
    var mapped := MappedIssues(owner, report);
    forall i, j | 0 <= i < j < |mapped| ensures IssueLe(mapped[i], mapped[j]) {
      MappingKeepsOrder(owner, report[i], report[j]);
    }
    SortBySortedIsIdentity(mapped, IssueLe);
  }

  /** Citations of stored ids can be stale or from the future, never missing. */
  lemma {:induction false} StoredIdsAreNeverMissing(owner: Owner, stored: seq<SourceRecord>, ids: seq<string>, now: int)
    requires forall id | id in ids :: id in IdsOf(stored)
    ensures forall i | i in MappedIssues(owner, DateIdReport(stored, ids, now)) :: i.code != OwnedDateIdCode(owner, Missing)
  {
    hide DateIdReport, Usable, IssueLe, DateIdIssue, MappedIssues, SortedBy, SortBy;
    var report := DateIdReport(stored, ids, now);
    DateIdReportExact(stored, ids, now);
    MappedReport(owner, stored, ids, now);
    var mapped := MappedIssues(owner, report);
    forall k | 0 <= k < |mapped| ensures mapped[k].code != OwnedDateIdCode(owner, Missing) {
      assert report[k] in report;
      var id :| id in ids && DateIdIssue(stored, id, now) == Some(report[k]);
    }
  }
}
