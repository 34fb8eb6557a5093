/** The evidence stream of a paper-day run and what one pass over it records. */
module PaperEvidence {
  import opened Wrappers
  import opened PyJson

  type Fields = map<string, Json>

  /** A line of evidence.jsonl: blank, not a JSON object, or a row. */
  datatype Line = Blank | Malformed | Row(fields: Fields)

  datatype EvidenceError = EvidenceMissing | EvidenceUnreadable

  datatype Failure = Failure(recordedAt: Json, stage: Json, event: Json, reasonCode: Json)

  datatype Session = Session(row: Failure, sessionState: Json, marketDataHealth: Json, requiredSessionState: Json)

  datatype Readiness = Readiness(recordedAt: Json, stage: Json, event: Json, subscriptionReady: Json, quoteFrames: Json,
                                 normalizedQuotes: Json, marketDataHealth: Json, sessionState: Json)

  datatype Evidence = Evidence(
    error: Option<EvidenceError>, rows: nat, malformed: nat, sensitive: nat,
    firstFailure: Option<Failure>, latestSession: Option<Session>, latestQuoteReadiness: Option<Readiness>,
    subcodes: map<string, nat>)

  const NO_EVIDENCE := Evidence(None, 0, 0, 0, None, None, None, map[])

  // --------------------------------------------------------- reading one row

  function RowInfo(row: Fields): Failure {
    Failure(Get(row, "recorded_at"), Get(row, "stage"), Get(row, "event"), Get(row, "reason_code"))
  }

  /** Anything but an explicit `false` counts as sensitive. */
  predicate IsSensitiveRow(row: Fields) {
    Get(row, "sensitive_data_present") != Bool(false)
  }

  predicate IsFailure(row: Fields) {
    Get(row, "event") == Str("failed_closed")
  }

  function Snapshot(row: Fields): Option<Fields> {
    if Get(row, "snapshot").Obj? then Some(Get(row, "snapshot").fields) else None
  }

  function SessionOf(row: Fields): Option<Session> {
    match Snapshot(row)
    case None => None
    case Some(s) =>
      if Get(s, "session_state").Null? then None
      else Some(Session(RowInfo(row), Get(s, "session_state"), Get(s, "market_data_health"), Get(s, "required_session_state")))
  }

  function ReadinessOf(row: Fields): Option<Readiness> {
    match Snapshot(row)
    case None => None
    case Some(s) =>
      if "quote_subscription_ready" in s || "quote_frames" in s || "normalized_quotes" in s
      then Some(Readiness(Get(row, "recorded_at"), Get(row, "stage"), Get(row, "event"), Get(s, "quote_subscription_ready"),
                          Get(s, "quote_frames"), Get(s, "normalized_quotes"), Get(s, "market_data_health"), Get(s, "session_state")))
      else None
  }

  /** The subcode a source-error row adds to the totals. */
  function DropSubcode(row: Fields): Option<string> {
    match Snapshot(row)
    case None => None
    case Some(s) =>
      if Get(row, "reason_code") == Str("source_error") && Get(s, "reason_subcode").Str?
      then Some(Get(s, "reason_subcode").text)
      else None
  }

  // ------------------------------------------------------- meaning of a stream

  function Count<T>(xs: seq<T>, p: T -> bool): nat {
    if xs == [] then 0 else Count(xs[..|xs| - 1], p) + (if p(xs[|xs| - 1]) then 1 else 0)
  }

  function First<T, U>(xs: seq<T>, f: T -> Option<U>): Option<U> {
    if xs == [] then None
    else
      var before := First(xs[..|xs| - 1], f);
      if before.Some? then before else f(xs[|xs| - 1])
  }

  function Last<T, U>(xs: seq<T>, f: T -> Option<U>): Option<U> {
    if xs == [] then None
    else
      var here := f(xs[|xs| - 1]);
      if here.Some? then here else Last(xs[..|xs| - 1], f)
  }

  function FailureIn(l: Line): Option<Failure> {
    if l.Row? && IsFailure(l.fields) then Some(RowInfo(l.fields)) else None
  }

  function SessionIn(l: Line): Option<Session> {
    if l.Row? then SessionOf(l.fields) else None
  }

  function ReadinessIn(l: Line): Option<Readiness> {
    if l.Row? then ReadinessOf(l.fields) else None
  }

  function SubcodeIn(l: Line): Option<string> {
    if l.Row? then DropSubcode(l.fields) else None
  }

  predicate IsRow(l: Line) {
    l.Row?
  }

  predicate IsMalformed(l: Line) {
    l.Malformed?
  }

  predicate IsSensitiveLine(l: Line) {
    l.Row? && IsSensitiveRow(l.fields)
  }

  predicate IsNonBlank(l: Line) {
    !l.Blank?
  }

  function HasSubcode(s: string): Line -> bool {
    l => SubcodeIn(l) == Some(s)
  }

  function Subcodes(lines: seq<Line>): set<string> {
    set l | l in lines && SubcodeIn(l).Some? :: SubcodeIn(l).value
  }

  function Totals(lines: seq<Line>): map<string, nat> {
    map s | s in Subcodes(lines) :: Count(lines, HasSubcode(s))
  }

  /** The declarative meaning of a readable stream. */
  function ScanOf(lines: seq<Line>): Evidence {
    Evidence(None, Count(lines, IsRow), Count(lines, IsMalformed), Count(lines, IsSensitiveLine),
             First(lines, FailureIn), Last(lines, SessionIn), Last(lines, ReadinessIn), Totals(lines))
  }

  // ------------------------------------------------------------ the one pass

  function Bump(totals: map<string, nat>, s: string): map<string, nat> {
    totals[s := (if s in totals then totals[s] else 0) + 1]
  }

  /** What one line does to the running result. */
  function Absorb(e: Evidence, l: Line): Evidence {
    match l
    case Blank => e
    case Malformed => e.(malformed := e.malformed + 1)
    case Row(row) =>
      var session, readiness, subcode := SessionOf(row), ReadinessOf(row), DropSubcode(row);
      e.(rows := e.rows + 1,
         sensitive := if IsSensitiveRow(row) then e.sensitive + 1 else e.sensitive,
         firstFailure := if e.firstFailure.None? && IsFailure(row) then Some(RowInfo(row)) else e.firstFailure,
         latestSession := if session.Some? then session else e.latestSession,
         latestQuoteReadiness := if readiness.Some? then readiness else e.latestQuoteReadiness,
         subcodes := if subcode.Some? then Bump(e.subcodes, subcode.value) else e.subcodes)
  }

  lemma {:induction false} CountZero<T>(xs: seq<T>, p: T -> bool)
    ensures Count(xs, p) == 0 <==> forall x | x in xs :: !p(x)
  {
    if xs != [] {
      CountZero(xs[..|xs| - 1], p);
      assert xs == xs[..|xs| - 1] + [xs[|xs| - 1]];
    }
  }

  lemma {:induction false} SubcodesSnoc(lines: seq<Line>, l: Line)
    ensures Subcodes(lines + [l]) == Subcodes(lines) + (if SubcodeIn(l).Some? then {SubcodeIn(l).value} else {})
  {
    hide SubcodeIn;
    assert l in lines + [l];
    forall s | s in Subcodes(lines) ensures s in Subcodes(lines + [l]) {
      var k :| k in lines && SubcodeIn(k).Some? && SubcodeIn(k).value == s;
      assert k in lines + [l];
    }
  }

  lemma {:induction false} CountSnoc<T>(xs: seq<T>, x: T, p: T -> bool)
    ensures Count(xs + [x], p) == Count(xs, p) + (if p(x) then 1 else 0)
  {
    assert (xs + [x])[..|xs|] == xs;
  }

  lemma {:induction false} TotalSnoc(lines: seq<Line>, l: Line, s: string)
    ensures Count(lines + [l], HasSubcode(s)) == Count(lines, HasSubcode(s)) + (if SubcodeIn(l) == Some(s) then 1 else 0)
    ensures s !in Subcodes(lines) ==> Count(lines, HasSubcode(s)) == 0
  {
    hide SubcodeIn, Count;
    CountSnoc(lines, l, HasSubcode(s));
    if s !in Subcodes(lines) {
      CountZero(lines, HasSubcode(s));
    }
  }

  lemma {:induction false} TotalsSnoc(lines: seq<Line>, l: Line)
    ensures Totals(lines + [l]) == if SubcodeIn(l).Some? then Bump(Totals(lines), SubcodeIn(l).value) else Totals(lines)
  {
    hide SubcodeIn, Count, Subcodes, HasSubcode;
    SubcodesSnoc(lines, l);
    forall s ensures Count(lines + [l], HasSubcode(s)) == Count(lines, HasSubcode(s)) + (if SubcodeIn(l) == Some(s) then 1 else 0)
                     && (s !in Subcodes(lines) ==> Count(lines, HasSubcode(s)) == 0) {
      TotalSnoc(lines, l, s);
    }
  }

  lemma {:induction false} ScanSnoc(lines: seq<Line>, l: Line)
    ensures ScanOf(lines + [l]) == Absorb(ScanOf(lines), l)
  {
    hide SessionOf, ReadinessOf, DropSubcode, IsFailure, IsSensitiveRow, RowInfo, Totals, Bump;
    var all := lines + [l];
    assert all[..|all| - 1] == lines && all[|all| - 1] == l;
    TotalsSnoc(lines, l);
  }

  /** `_scan_evidence` over the lines of the file, or the reason there are none. */
  method ScanEvidence(input: Result<seq<Line>, EvidenceError>) returns (e: Evidence)
    ensures input.Err? ==> e == NO_EVIDENCE.(error := Some(input.error))
    ensures input.Ok? ==> e == ScanOf(input.value)
  {
    hide SessionOf, ReadinessOf, DropSubcode, IsFailure, IsSensitiveRow, RowInfo, Count, First, Last, Totals, Bump;
    e := NO_EVIDENCE;
    if input.Err? {
      e := e.(error := Some(input.error));
      return;
    }
    var lines := input.value;
    NothingScanned();
    for i := 0 to |lines|
      invariant e == ScanOf(lines[..i])
    {
      ScanSnoc(lines[..i], lines[i]);
      assert lines[..i + 1] == lines[..i] + [lines[i]];
      match lines[i] {
        case Blank =>
        case Malformed =>
          e := e.(malformed := e.malformed + 1);
        case Row(row) =>
          e := e.(rows := e.rows + 1);
          if IsSensitiveRow(row) {
            e := e.(sensitive := e.sensitive + 1);
          }
          if e.firstFailure.None? && IsFailure(row) {
            e := e.(firstFailure := Some(RowInfo(row)));
          }
          var session := SessionOf(row);
          if session.Some? {
            e := e.(latestSession := session);
          }
          var readiness := ReadinessOf(row);
          if readiness.Some? {
            e := e.(latestQuoteReadiness := readiness);
          }
          var subcode := DropSubcode(row);
          if subcode.Some? {
            e := e.(subcodes := Bump(e.subcodes, subcode.value));
          }
      }
    }
    assert lines[..|lines|] == lines;
  }

  lemma NothingScanned()
    ensures ScanOf([]) == NO_EVIDENCE
  {
  }

  // ---------------------------------------------------- consequences of meaning

  /** Every non-blank line is a row or malformed, and sensitive lines are rows. */
  lemma {:induction false} LinesAccounted(lines: seq<Line>)
    ensures ScanOf(lines).rows + ScanOf(lines).malformed == Count(lines, IsNonBlank)
    ensures ScanOf(lines).sensitive <= ScanOf(lines).rows
  {
    hide IsSensitiveRow, Totals;
    if lines != [] {
      LinesAccounted(lines[..|lines| - 1]);
    }
  }

  ghost function Sum(m: map<string, nat>): nat {
    if m == map[] then 0
    else
      var k :| k in m;
      m[k] + Sum(m - {k})
  }

  /** The sum does not depend on which key is taken first. */
  lemma {:induction false} SumWithout(m: map<string, nat>, k: string)
    requires k in m
    ensures Sum(m) == m[k] + Sum(m - {k})
    decreases m
  {
    var c :| c in m && Sum(m) == m[c] + Sum(m - {c});
    if c != k {
      SumWithout(m - {c}, k);
      SumWithout(m - {k}, c);
      assert m - {c} - {k} == m - {k} - {c};
    }
  }

  lemma {:induction false} SumBumped(m: map<string, nat>, s: string)
    ensures Sum(Bump(m, s)) == Sum(m) + 1
  {
    var n := Bump(m, s);
    SumWithout(n, s);
    if s in m {
      SumWithout(m, s);
      assert n - {s} == m - {s};
    } else {
      assert n - {s} == m;
    }
  }

  predicate HasAnySubcode(l: Line) {
    SubcodeIn(l).Some?
  }

  /** Each total counts its own rows, and together they count every row with a subcode. */
  lemma {:induction false} SubcodesAccounted(lines: seq<Line>)
    ensures forall s | s in ScanOf(lines).subcodes :: ScanOf(lines).subcodes[s] == Count(lines, HasSubcode(s)) > 0
    ensures Sum(ScanOf(lines).subcodes) == Count(lines, HasAnySubcode)
  {
    hide SubcodeIn, IsSensitiveRow, Bump;
    if lines != [] {
      var init, last := lines[..|lines| - 1], lines[|lines| - 1];
      assert lines == init + [last];
      SubcodesAccounted(init);
      TotalsSnoc(init, last);
      if SubcodeIn(last).Some? {
        SumBumped(Totals(init), SubcodeIn(last).value);
      }
      forall s | s in Totals(lines) ensures Count(lines, HasSubcode(s)) > 0 {
        SubcodesSnoc(init, last);
        CountSnoc(init, last, HasSubcode(s));
      }
    }
  }

  /** The recorded failure is the earliest failed-closed row. */
  lemma {:induction false} FirstIsEarliest<T, U>(xs: seq<T>, f: T -> Option<U>)
    ensures First(xs, f).None? <==> forall x | x in xs :: f(x).None?
    ensures First(xs, f).Some? ==> exists k | 0 <= k < |xs| :: f(xs[k]) == First(xs, f) && forall j | 0 <= j < k :: f(xs[j]).None?
  {
    if xs != [] {
      var init, last := xs[..|xs| - 1], xs[|xs| - 1];
      FirstIsEarliest(init, f);
      assert xs == init + [last];
      if First(init, f).Some? {
        var k :| 0 <= k < |init| && f(init[k]) == First(init, f) && forall j | 0 <= j < k :: f(init[j]).None?;
        assert xs[k] == init[k] && forall j | 0 <= j < k :: xs[j] == init[j];
      } else if f(last).Some? {
        assert forall j | 0 <= j < |init| :: xs[j] == init[j] && init[j] in init;
        assert f(xs[|xs| - 1]) == First(xs, f);
      }
    }
  }

  /** The recorded session and readiness are the latest ones. */
  lemma {:induction false} LastIsLatest<T, U>(xs: seq<T>, f: T -> Option<U>)
    ensures Last(xs, f).None? <==> forall x | x in xs :: f(x).None?
    ensures Last(xs, f).Some? ==> exists k | 0 <= k < |xs| :: f(xs[k]) == Last(xs, f) && forall j | k < j < |xs| :: f(xs[j]).None?
  {
    if xs != [] {
      var init, last := xs[..|xs| - 1], xs[|xs| - 1];
      LastIsLatest(init, f);
      assert xs == init + [last] && last in xs;
      if f(last).Some? {
        assert f(xs[|xs| - 1]) == Last(xs, f);
      } else if Last(init, f).Some? {
        var k :| 0 <= k < |init| && f(init[k]) == Last(init, f) && forall j | k < j < |init| :: f(init[j]).None?;
        assert xs[k] == init[k] && forall j | k < j < |init| :: xs[j] == init[j];
      }
    }
  }

  // ------------------------------------------------------ order does not count

  lemma {:induction false} CountAppend<T>(a: seq<T>, b: seq<T>, p: T -> bool)
    ensures Count(a + b, p) == Count(a, p) + Count(b, p)
  {
    if b == [] {
      assert a + b == a;
    } else {
      var init, last := b[..|b| - 1], b[|b| - 1];
      assert (a + b)[..|a + b| - 1] == a + init && (a + b)[|a + b| - 1] == last;
      CountAppend(a, init, p);
    }
  }

  lemma {:induction false} WithoutOne<T>(b: seq<T>, k: nat, p: T -> bool)
    requires k < |b|
    ensures var rest := b[..k] + b[k + 1..];
      && multiset(b) == multiset(rest) + multiset{b[k]}
      && Count(b, p) == Count(rest, p) + (if p(b[k]) then 1 else 0)
  {
    var x := b[k];
    assert b == b[..k] + [x] + b[k + 1..];
    CountAppend(b[..k] + [x], b[k + 1..], p);
    CountAppend(b[..k], [x], p);
    CountAppend(b[..k], b[k + 1..], p);
    assert [x][..0] == [];
  }

  lemma Cancel<T>(m: multiset<T>, n: multiset<T>, x: T)
    requires m + multiset{x} == n + multiset{x}
    ensures m == n
  {
    assert m == m + multiset{x} - multiset{x};
    assert n == n + multiset{x} - multiset{x};
  }

  /** Counting is blind to order. */
  lemma {:induction false} CountOfPermutation<T>(a: seq<T>, b: seq<T>, p: T -> bool)
    requires multiset(a) == multiset(b)
    ensures Count(a, p) == Count(b, p)
  {
    if a == [] {
      assert |b| == |multiset(b)|;
    } else {
      var n := |a| - 1;
      assert a[n] in multiset(b);
      var k :| 0 <= k < |b| && b[k] == a[n];
      WithoutOne(a, n, p);
      WithoutOne(b, k, p);
      Cancel(multiset(a[..n] + a[n + 1..]), multiset(b[..k] + b[k + 1..]), a[n]);
      CountOfPermutation(a[..n] + a[n + 1..], b[..k] + b[k + 1..], p);
    }
  }
}
