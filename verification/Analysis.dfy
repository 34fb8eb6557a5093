/** The analysis decision, its tolerance context and its validator. */
module Analysis {
  import opened Wrappers
  import opened Sorting
  import opened SourceRecords
  import opened DateIdChecks
  import opened Allocator

  datatype AnalysisDecision = AnalysisDecision(
    universe: string, market: string, symbol: string,
    reasons: seq<Reason>, bearReasons: seq<Reason>, bullReasons: seq<Reason>,
    riskReasons: seq<Reason>, fundReasons: seq<Reason>,
    targetWeight: real)

  function AnalysisReasonLists(d: AnalysisDecision): seq<seq<Reason>> {
    [d.reasons, d.bearReasons, d.bullReasons, d.riskReasons, d.fundReasons]
  }

  function AnalysisCited(d: AnalysisDecision): seq<string> {
    CitedIn(AnalysisReasonLists(d))
  }

  /** A reason given anywhere in an analysis decision. */
  predicate IsAnalysisReason(r: Reason, d: AnalysisDecision) {
    r in d.reasons || r in d.bearReasons || r in d.bullReasons || r in d.riskReasons || r in d.fundReasons
  }

  /** An analysis cites exactly the ids of its reasons, once for each reason. */
  lemma {:induction false} AnalysisCitedExactly(d: AnalysisDecision, id: string)
    ensures id in AnalysisCited(d) <==> exists r :: IsAnalysisReason(r, d) && r.dateId == id
    ensures |AnalysisCited(d)| == |d.reasons| + |d.bearReasons| + |d.bullReasons| + |d.riskReasons| + |d.fundReasons|
  {
    hide CitedIn;
    var lists := AnalysisReasonLists(d);
    CitedInExact(lists, id);
    CitedInCounts(lists);
    assert lists[0..] == lists && lists[5..] == [];
    TotalLengthFrom(lists, 0);
    TotalLengthFrom(lists, 1);
    TotalLengthFrom(lists, 2);
    TotalLengthFrom(lists, 3);
    TotalLengthFrom(lists, 4);
    ListOfAnalysisReason(d);
    forall r | IsAnalysisReason(r, d) ensures exists l :: l in lists && r in l {
      assert lists[0] in lists && lists[1] in lists && lists[2] in lists && lists[3] in lists && lists[4] in lists;
    }
  }

  lemma ListOfAnalysisReason(d: AnalysisDecision)
    ensures forall l, r | l in AnalysisReasonLists(d) && r in l :: IsAnalysisReason(r, d)
  {
  }

  // --------------------------------------------------------------- tolerance

  /** The optional `allocator_tolerance_context` of the analysis input, its values as text. */
  datatype ToleranceContext = NoContext | NotAnObject | Context(target: Option<string>, tolerance: Option<string>)

  datatype ToleranceError = ContextNotAnObject | IncompleteInput | IncompleteArguments | NotPercent

  /** Both values, or neither. */
  datatype Tolerance = Tolerance(target: Option<real>, percent: Option<real>)

  predicate Complete(t: Tolerance) {
    t.target.Some? <==> t.percent.Some?
  }

  function ParsePair(percent: string -> Option<real>, target: Option<string>, tolerance: Option<string>, incomplete: ToleranceError)
    : (r: Result<Tolerance, ToleranceError>)
    ensures r.Ok? ==> Complete(r.value) && (r.value.target.Some? <==> target.Some? && tolerance.Some?)
  {
    if target.None? && tolerance.None? then Ok(Tolerance(None, None))
    else if target.None? != tolerance.None? then Err(incomplete)
    else
      var t, p := percent(target.value), percent(tolerance.value);
      if t.None? || p.None? then Err(NotPercent) else Ok(Tolerance(t, p))
  }

  /** Both values given and both percents, or neither given. */
  predicate IsPair(percent: string -> Option<real>, target: Option<string>, tolerance: Option<string>) {
    || (target.None? && tolerance.None?)
    || (target.Some? && tolerance.Some? && percent(target.value).Some? && percent(tolerance.value).Some?)
  }

  /**
   `_resolve_tolerance_context`: a pair given on the command line replaces the input's pair,
   but a malformed input pair is refused even then. The result is never half a pair.
   */
  function ResolveTolerance(percent: string -> Option<real>, argTarget: Option<string>, argTolerance: Option<string>, context: ToleranceContext)
    : (r: Result<Tolerance, ToleranceError>)
    ensures r.Ok? <==>
      && !context.NotAnObject? && (context.Context? ==> IsPair(percent, context.target, context.tolerance))
      && IsPair(percent, argTarget, argTolerance)
    ensures r.Ok? ==> Complete(r.value)
    ensures r.Ok? && argTarget.Some? ==> r.value.target == percent(argTarget.value) && r.value.percent == percent(argTolerance.value)
    ensures r.Ok? && argTarget.None? && context.Context? && context.target.Some? ==>
              r.value.target == percent(context.target.value) && r.value.percent == percent(context.tolerance.value)
  {
    if context.NotAnObject? then Err(ContextNotAnObject)
    else
      var fromInput :=
        if context.Context? then ParsePair(percent, context.target, context.tolerance, IncompleteInput)
        else Ok(Tolerance(None, None));
      if fromInput.Err? then fromInput
      else
        var fromArguments := ParsePair(percent, argTarget, argTolerance, IncompleteArguments);
        if fromArguments.Err? then fromArguments
        else if argTarget.Some? || argTolerance.Some? then fromArguments
        else fromInput
  }

  // --------------------------------------------------------------- validator

  predicate WithinBand(target: real, centre: real, width: real) {
    centre - width <= target <= centre + width
  }

  function Distance(a: real, b: real): real {
    if a < b then b - a else a - b
  }

  /** The fund manager's target is at most the tolerance away from the allocator's. */
  predicate ToleranceRespected(d: AnalysisDecision, t: Tolerance) {
    t.target.Some? && t.percent.Some? ==> Distance(d.targetWeight, t.target.value) <= t.percent.value
  }

  function BandIssues(message: string, d: AnalysisDecision, t: Tolerance): seq<Issue> {
    if t.target.Some? && t.percent.Some? && !WithinBand(d.targetWeight, t.target.value, t.percent.value)
    then [Issue(ToleranceCode, message, Error, None)]
    else []
  }

  predicate BandIssueLe(a: Issue, b: Issue) {
    var (pa, pb) := (if a.code.ToleranceCode? then 0 else 2, if b.code.ToleranceCode? then 0 else 2);
    pa < pb || (pa == pb && StrLe(a.message, b.message))
  }

  function AnalysisVerdict(message: string, d: AnalysisDecision, t: Tolerance, stored: seq<SourceRecord>, now: int): Validation {
    var issues :=
      SortBy(BandIssues(message, d, t), BandIssueLe)
      + SortBy(MappedIssues(AnalysisOwner, DateIdReport(stored, AnalysisCited(d), now)), IssueLe);
    Validation(issues == [], issues)
  }

  /** `AnalysisDecisionValidator.validate` */
  method ValidateAnalysis(message: string, d: AnalysisDecision, t: Tolerance, stored: seq<SourceRecord>, now: int) returns (v: Validation)
    requires Complete(t)
    ensures v == AnalysisVerdict(message, d, t, stored, now)
  {
    var ids := ExtractDateIds(AnalysisReasonLists(d));
    var report := ValidateDateIds(stored, ids, now);
    var mapped := MapDateIdIssues(AnalysisOwner, report);
    var issues := SortBy(BandIssues(message, d, t), BandIssueLe) + SortBy(mapped, IssueLe);
    v := Validation(issues == [], issues);
  }

  lemma BandIssuesExactly(message: string, d: AnalysisDecision, t: Tolerance)
    ensures BandIssues(message, d, t) == [] <==> ToleranceRespected(d, t)
    ensures |BandIssues(message, d, t)| <= 1
    ensures BandIssues(message, d, t) != [] ==> BandIssues(message, d, t)[0].code == ToleranceCode
  {
  }

  /** Passed exactly when the tolerance is respected and every reason cites a usable id; a tolerance issue comes first. */
  lemma {:induction false} AnalysisVerdictExactly(message: string, d: AnalysisDecision, t: Tolerance, stored: seq<SourceRecord>, now: int)
    ensures var v := AnalysisVerdict(message, d, t, stored, now);
      && (v.passed <==> ToleranceRespected(d, t) && forall r | IsAnalysisReason(r, d) :: Usable(stored, r.dateId, now))
      && v.issues == BandIssues(message, d, t) + MappedIssues(AnalysisOwner, DateIdReport(stored, AnalysisCited(d), now))
      && (v.issues != [] ==> (v.issues[0].code == ToleranceCode <==> !ToleranceRespected(d, t)))
  {
    hide DateIdReport, Usable, AnalysisCited, BandIssues, ToleranceRespected, MappedIssues, IsAnalysisReason, AnalysisVerdict;
    AnalysisVerdictOfCited(message, d, t, stored, now);
    forall id ensures id in AnalysisCited(d) <==> exists r :: IsAnalysisReason(r, d) && r.dateId == id {
      AnalysisCitedExactly(d, id);
    }
  }

  lemma {:induction false} AnalysisVerdictOfCited(message: string, d: AnalysisDecision, t: Tolerance, stored: seq<SourceRecord>, now: int)
    ensures var v := AnalysisVerdict(message, d, t, stored, now);
      && (v.passed <==> ToleranceRespected(d, t) && forall id | id in AnalysisCited(d) :: Usable(stored, id, now))
      && v.issues == BandIssues(message, d, t) + MappedIssues(AnalysisOwner, DateIdReport(stored, AnalysisCited(d), now))
      && (v.issues != [] ==> (v.issues[0].code == ToleranceCode <==> !ToleranceRespected(d, t)))
  {
    hide DateIdReport, Usable, IssueLe, BandIssueLe, AnalysisCited, BandIssues, ToleranceRespected, MappedIssues, SortBy;
    var band := BandIssues(message, d, t);
    BandIssuesExactly(message, d, t);
    SortBySortedIsIdentity(band, BandIssueLe);
    MappedReport(AnalysisOwner, stored, AnalysisCited(d), now);
    var report := DateIdReport(stored, AnalysisCited(d), now);
    var mapped := MappedIssues(AnalysisOwner, report);
    assert mapped != [] ==> Some(mapped[0]) == Mapped(AnalysisOwner, report[0]);
  }
}
