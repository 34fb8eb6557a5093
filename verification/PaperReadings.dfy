/** What a scan of the evidence stream records, said of the rows themselves. */
module PaperReadings {
  import opened Wrappers
  import opened PyJson
  import opened PaperEvidence
  import opened PaperDay

  /** The line is a row with a snapshot object. */
  predicate HasSnapshot(l: Line) {
    l.Row? && "snapshot" in l.fields && l.fields["snapshot"].Obj?
  }

  /** A failed-closed row, and what is kept of it. */
  predicate FailsClosed(l: Line, x: Failure) {
    && l.Row? && Has(l.fields, "event", Str("failed_closed"))
    && x.recordedAt == Get(l.fields, "recorded_at") && x.stage == Get(l.fields, "stage")
    && x.event == Str("failed_closed") && x.reasonCode == Get(l.fields, "reason_code")
  }

  /** A row whose snapshot states the session, and what is kept of it. */
  predicate StatesSession(l: Line, x: Session) {
    && HasSnapshot(l)
    && var row := l.fields; var snapshot := l.fields["snapshot"].fields;
       && "session_state" in snapshot && !snapshot["session_state"].Null? && x.sessionState == snapshot["session_state"]
       && x.marketDataHealth == Get(snapshot, "market_data_health") && x.requiredSessionState == Get(snapshot, "required_session_state")
       && x.row.recordedAt == Get(row, "recorded_at") && x.row.stage == Get(row, "stage")
       && x.row.event == Get(row, "event") && x.row.reasonCode == Get(row, "reason_code")
  }

  /** A row whose snapshot mentions quotes, and what is kept of it. */
  predicate StatesReadiness(l: Line, x: Readiness) {
    && HasSnapshot(l)
    && var row := l.fields; var snapshot := l.fields["snapshot"].fields;
       && ("quote_subscription_ready" in snapshot || "quote_frames" in snapshot || "normalized_quotes" in snapshot)
       && x.recordedAt == Get(row, "recorded_at") && x.stage == Get(row, "stage") && x.event == Get(row, "event")
       && x.subscriptionReady == Get(snapshot, "quote_subscription_ready") && x.quoteFrames == Get(snapshot, "quote_frames")
       && x.normalizedQuotes == Get(snapshot, "normalized_quotes")
       && x.marketDataHealth == Get(snapshot, "market_data_health") && x.sessionState == Get(snapshot, "session_state")
  }

  /** A source-error row whose snapshot names the subcode. */
  predicate DropsWith(l: Line, subcode: string) {
    HasSnapshot(l) && Has(l.fields, "reason_code", Str("source_error")) && Has(l.fields["snapshot"].fields, "reason_subcode", Str(subcode))
  }

  lemma FailureRead(l: Line, x: Failure)
    ensures FailureIn(l) == Some(x) <==> FailsClosed(l, x)
  {
  }

  lemma SessionRead(l: Line, x: Session)
    ensures SessionIn(l) == Some(x) <==> StatesSession(l, x)
  {
  }

  lemma ReadinessRead(l: Line, x: Readiness)
    ensures ReadinessIn(l) == Some(x) <==> StatesReadiness(l, x)
  {
  }

  lemma SubcodeRead(l: Line, s: string)
    ensures SubcodeIn(l) == Some(s) <==> DropsWith(l, s)
  {
  }

  ghost predicate EarliestAt<T(!new), U(!new)>(xs: seq<T>, says: (T, U) -> bool, x: U, k: int) {
    0 <= k < |xs| && says(xs[k], x) && forall j, y | 0 <= j < k :: !says(xs[j], y)
  }

  ghost predicate LatestAt<T(!new), U(!new)>(xs: seq<T>, says: (T, U) -> bool, x: U, k: int) {
    0 <= k < |xs| && says(xs[k], x) && forall j, y | k < j < |xs| :: !says(xs[j], y)
  }

  lemma {:induction false} FirstReads<T(!new), U(!new)>(xs: seq<T>, f: T -> Option<U>, says: (T, U) -> bool, x: U)
    requires forall t, y :: f(t) == Some(y) <==> says(t, y)
    ensures First(xs, f) == Some(x) <==> exists k :: EarliestAt(xs, says, x, k)
  {
    hide First;
    FirstIsEarliest(xs, f);
    if First(xs, f).Some? {
      var k :| 0 <= k < |xs| && f(xs[k]) == First(xs, f) && forall j | 0 <= j < k :: f(xs[j]).None?;
      assert EarliestAt(xs, says, First(xs, f).value, k);
      if n :| EarliestAt(xs, says, x, n) {
        assert f(xs[n]) == Some(x);
        assert n >= k;
        assert n <= k;
      }
    } else {
      forall n ensures !EarliestAt(xs, says, x, n) {
        if 0 <= n < |xs| { assert xs[n] in xs && f(xs[n]).None?; }
      }
    }
  }

  lemma {:induction false} LastReads<T(!new), U(!new)>(xs: seq<T>, f: T -> Option<U>, says: (T, U) -> bool, x: U)
    requires forall t, y :: f(t) == Some(y) <==> says(t, y)
    ensures Last(xs, f) == Some(x) <==> exists k :: LatestAt(xs, says, x, k)
  {
    hide Last;
    LastIsLatest(xs, f);
    if Last(xs, f).Some? {
      var k :| 0 <= k < |xs| && f(xs[k]) == Last(xs, f) && forall j | k < j < |xs| :: f(xs[j]).None?;
      assert LatestAt(xs, says, Last(xs, f).value, k);
      if n :| LatestAt(xs, says, x, n) {
        assert f(xs[n]) == Some(x);
        assert n <= k;
        assert n >= k;
      }
    } else {
      forall n ensures !LatestAt(xs, says, x, n) {
        if 0 <= n < |xs| { assert xs[n] in xs && f(xs[n]).None?; }
      }
    }
  }

  /** The recorded failure is exactly the earliest failed-closed row. */
  lemma {:induction false} FailureExactly(lines: seq<Line>, x: Failure)
    ensures ScanOf(lines).firstFailure == Some(x) <==> exists k :: EarliestAt(lines, FailsClosed, x, k)
  {
    hide FailureIn, FailsClosed, Count, Totals, First, Last, EarliestAt;
    forall l, y ensures FailureIn(l) == Some(y) <==> FailsClosed(l, y) { FailureRead(l, y); }
    FirstReads(lines, FailureIn, FailsClosed, x);
  }

  /** The recorded session is exactly the latest one a snapshot states. */
  lemma {:induction false} SessionExactly(lines: seq<Line>, x: Session)
    ensures ScanOf(lines).latestSession == Some(x) <==> exists k :: LatestAt(lines, StatesSession, x, k)
  {
    hide SessionIn, StatesSession, Count, Totals, First, Last, LatestAt;
    forall l, y ensures SessionIn(l) == Some(y) <==> StatesSession(l, y) { SessionRead(l, y); }
    LastReads(lines, SessionIn, StatesSession, x);
  }

  /** The recorded quote readiness is exactly the latest one a snapshot states. */
  lemma {:induction false} ReadinessExactly(lines: seq<Line>, x: Readiness)
    ensures ScanOf(lines).latestQuoteReadiness == Some(x) <==> exists k :: LatestAt(lines, StatesReadiness, x, k)
  {
    hide ReadinessIn, StatesReadiness, Count, Totals, First, Last, LatestAt;
    forall l, y ensures ReadinessIn(l) == Some(y) <==> StatesReadiness(l, y) { ReadinessRead(l, y); }
    LastReads(lines, ReadinessIn, StatesReadiness, x);
  }

  /** A subcode is recorded exactly when some source-error row names it. */
  lemma {:induction false} SubcodeExactly(lines: seq<Line>, s: string)
    ensures s in ScanOf(lines).subcodes <==> exists l | l in lines :: DropsWith(l, s)
  {
    hide SubcodeIn, DropsWith, Count, First, Last;
    forall l ensures SubcodeIn(l) == Some(s) <==> DropsWith(l, s) { SubcodeRead(l, s); }
  }

  /**
   A readable stream is intact exactly when no line is malformed and every row says, in so many
   words, that it holds no sensitive data; an empty or blank one always is.
   */
  lemma {:induction false} IntactExactly(lines: seq<Line>)
    ensures IsIntact(ScanOf(lines)) <==>
            forall l | l in lines :: !l.Malformed? && (l.Row? ==> Has(l.fields, "sensitive_data_present", Bool(false)))
  {
    hide Count, First, Last, Totals;
    CountZero(lines, IsMalformed);
    CountZero(lines, IsSensitiveLine);
  }
}
