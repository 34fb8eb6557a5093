/**
 Evidence along the decision chain: Scout packet, Scout validation, Allocator packet and
 validation, Analysis packet and validation, assembly of the paper-loop input.
 Every stage runs against the same Date.md and store.
 */
module EvidenceChain {
  import opened Wrappers
  import opened Sorting
  import DateIds
  import opened SourceRecords
  import DateMdParser
  import Intake
  import opened DateIdChecks
  import opened Allocator
  import opened Analysis
  import opened ScoutPacket

  datatype ScoutFactor = ScoutFactor(name: string, reasons: seq<Reason>)

  datatype ScoutSummary = ScoutSummary(
    universe: string, positive: seq<ScoutFactor>, negative: seq<ScoutFactor>, neutral: seq<ScoutFactor>)

  /** What the summary model guarantees: at least one factor, each with a reason. */
  predicate IsScoutSummary(s: ScoutSummary) {
    && s.positive + s.negative + s.neutral != []
    && forall f | f in s.positive + s.negative + s.neutral :: f.reasons != []
  }

  datatype AllocatorPacket = AllocatorPacket(universe: string, allowed: seq<string>)

  datatype AnalysisPacket = AnalysisPacket(
    universe: string, market: string, symbol: string, allowed: seq<string>, tolerance: ToleranceContext)

  datatype ChainError =
    | DateMdError(error: Intake.SmokeError)
    | UniverseMismatch
    | MarketMismatch
    | SymbolMismatch
    | SymbolNotEnabled
    | NotInScoutInput(id: string)
    | Bracketed(id: string)
    | NotAllowed(id: string)
    | NotInDateMd(id: string)
    | NothingAllowed
    | BadTolerance(cause: ToleranceError)
    | BusinessRule(issue: Issue)

  // --------------------------------------------------------------- citations

  function FactorReasons(fs: seq<ScoutFactor>): (r: seq<seq<Reason>>)
    ensures |r| == |fs| && forall i | 0 <= i < |fs| :: r[i] == fs[i].reasons
  {
    seq(|fs|, i requires 0 <= i < |fs| => fs[i].reasons)
  }

  /** Citations in reading order: positive, negative, then neutral factors. */
  function ScoutCited(s: ScoutSummary): seq<string> {
    CitedIn(FactorReasons(s.positive)) + CitedIn(FactorReasons(s.negative)) + CitedIn(FactorReasons(s.neutral))
  }

  /** A reason given for any factor of a summary. */
  predicate IsScoutReason(r: Reason, s: ScoutSummary) {
    || (exists f | f in s.positive :: r in f.reasons)
    || (exists f | f in s.negative :: r in f.reasons)
    || (exists f | f in s.neutral :: r in f.reasons)
  }

  lemma {:induction false} FactorsCitedExactly(fs: seq<ScoutFactor>, id: string)
    ensures id in CitedIn(FactorReasons(fs)) <==> exists r: Reason :: r.dateId == id && exists f | f in fs :: r in f.reasons
  {
    hide CitedIn;
    var lists := FactorReasons(fs);
    CitedInExact(lists, id);
    forall l | l in lists ensures exists f :: f in fs && f.reasons == l {
      var k :| 0 <= k < |lists| && lists[k] == l;
      assert fs[k] in fs;
    }
    forall f | f in fs ensures f.reasons in lists {
      var k :| 0 <= k < |fs| && fs[k] == f;
      assert lists[k] == f.reasons;
    }
  }

  /** A summary cites exactly the ids of its factors' reasons. */
  lemma {:induction false} ScoutCitedExactly(s: ScoutSummary, id: string)
    ensures id in ScoutCited(s) <==> exists r :: IsScoutReason(r, s) && r.dateId == id
  {
    hide CitedIn, FactorReasons;
    FactorsCitedExactly(s.positive, id);
    FactorsCitedExactly(s.negative, id);
    FactorsCitedExactly(s.neutral, id);
  }

  /** `_collect_cited_date_ids`: ascending, without repetition. */
  method CollectScoutCited(s: ScoutSummary) returns (cited: seq<string>)
    ensures cited == SortedUnique(ScoutCited(s))
  {
    hide CitedIn;
    var groups := [s.positive, s.negative, s.neutral];
    var found: seq<string> := [];
    for g := 0 to 3
      invariant g == 0 ==> found == []
      invariant g == 1 ==> found == CitedIn(FactorReasons(s.positive))
      invariant g == 2 ==> found == CitedIn(FactorReasons(s.positive)) + CitedIn(FactorReasons(s.negative))
      invariant g == 3 ==> found == ScoutCited(s)
    {
      var ids := ExtractDateIds(FactorReasons(groups[g]));
      found := found + ids;
    }
    cited := SortedUnique(found);
  }

  lemma {:induction false} SummaryCites(s: ScoutSummary)
    requires IsScoutSummary(s)
    ensures ScoutCited(s) != []
  {
    hide CitedIn;
    var all := s.positive + s.negative + s.neutral;
    var f := all[0];
    assert f in all && f.reasons != [];
    if s.positive != [] {
      FactorsCite(s.positive, f);
    } else if s.negative != [] {
      FactorsCite(s.negative, f);
    } else {
      FactorsCite(s.neutral, f);
    }
  }

  lemma {:induction false} FactorsCite(fs: seq<ScoutFactor>, f: ScoutFactor)
    requires fs != [] && fs[0] == f && f.reasons != []
    ensures CitedIn(FactorReasons(fs)) != []
  {
    var lists := FactorReasons(fs);
    assert lists[0] == f.reasons;
    assert lists[0] in lists && f.reasons[0] in lists[0];
    CitedInExact(lists, f.reasons[0].dateId);
  }

  // -------------------------------------------------------- membership checks

  /** The error of the first faulty id of a list. */
  function FirstFault(ids: seq<string>, fault: string -> Option<ChainError>): Option<ChainError> {
    if ids == [] then None
    else if fault(ids[0]).Some? then fault(ids[0])
    else FirstFault(ids[1..], fault)
  }

  lemma {:induction false} FirstFaultNone(ids: seq<string>, fault: string -> Option<ChainError>)
    ensures FirstFault(ids, fault).None? <==> forall id | id in ids :: fault(id).None?
  {
    if ids != [] {
      assert ids == [ids[0]] + ids[1..];
      FirstFaultNone(ids[1..], fault);
    }
  }

  lemma {:induction false} FirstFaultPrefix(ids: seq<string>, fault: string -> Option<ChainError>, k: nat)
    requires k < |ids| && (forall j | 0 <= j < k :: fault(ids[j]).None?) && fault(ids[k]).Some?
    ensures FirstFault(ids, fault) == fault(ids[k])
  {
    if k > 0 {
      FirstFaultPrefix(ids[1..], fault, k - 1);
    }
  }

  function ScoutFault(inputIds: set<string>, dateMd: set<string>): string -> Option<ChainError> {
    id => if id !in inputIds then Some(NotInScoutInput(id))
          else if id !in dateMd then Some(NotInDateMd(id))
          else None
  }

  predicate HasBracket(id: string) {
    id != "" && (id[0] == '[' || id[|id| - 1] == ']')
  }

  function CitationFault(allowed: seq<string>, dateMd: set<string>): string -> Option<ChainError> {
    id => if HasBracket(id) then Some(Bracketed(id))
          else if id !in allowed then Some(NotAllowed(id))
          else if id !in dateMd then Some(NotInDateMd(id))
          else None
  }

  function DateMdFault(dateMd: set<string>): string -> Option<ChainError> {
    id => if id !in dateMd then Some(NotInDateMd(id)) else None
  }

  /** The membership loop of the Scout validator. */
  method CheckScoutCitations(cited: seq<string>, inputIds: set<string>, dateMd: set<string>) returns (e: Option<ChainError>)
    ensures e == FirstFault(cited, ScoutFault(inputIds, dateMd))
  {
    ghost var fault := ScoutFault(inputIds, dateMd);
    for k := 0 to |cited|
      invariant forall j | 0 <= j < k :: fault(cited[j]).None?
    {
      if cited[k] !in inputIds {
        FirstFaultPrefix(cited, fault, k);
        return Some(NotInScoutInput(cited[k]));
      }
      if cited[k] !in dateMd {
        FirstFaultPrefix(cited, fault, k);
        return Some(NotInDateMd(cited[k]));
      }
    }
    FirstFaultNone(cited, fault);
    return None;
  }

  /** The membership loop shared by the Allocator and Analysis validators. */
  method CheckCitations(cited: seq<string>, allowed: seq<string>, dateMd: set<string>) returns (e: Option<ChainError>)
    ensures e == FirstFault(cited, CitationFault(allowed, dateMd))
  {
    ghost var fault := CitationFault(allowed, dateMd);
    for k := 0 to |cited|
      invariant forall j | 0 <= j < k :: fault(cited[j]).None?
    {
      if HasBracket(cited[k]) {
        FirstFaultPrefix(cited, fault, k);
        return Some(Bracketed(cited[k]));
      }
      if cited[k] !in allowed {
        FirstFaultPrefix(cited, fault, k);
        return Some(NotAllowed(cited[k]));
      }
      if cited[k] !in dateMd {
        FirstFaultPrefix(cited, fault, k);
        return Some(NotInDateMd(cited[k]));
      }
    }
    FirstFaultNone(cited, fault);
    return None;
  }

  /** What is wrong with the first faulty citation, and that it is the first: brackets, then the packet, then Date.md. */
  lemma {:induction false} CitationFaultExactly(cited: seq<string>, allowed: seq<string>, dateMd: set<string>, k: nat)
    requires k < |cited| && forall j | 0 <= j < k :: IsCitable(cited[j], allowed, dateMd)
    ensures var e := FirstFault(cited, CitationFault(allowed, dateMd)); var id := cited[k];
      && (id != "" && (id[0] == '[' || id[|id| - 1] == ']') ==> e == Some(Bracketed(id)))
      && (Unbracketed(id) && id !in allowed ==> e == Some(NotAllowed(id)))
      && (Unbracketed(id) && id in allowed && id !in dateMd ==> e == Some(NotInDateMd(id)))
  {
    var fault := CitationFault(allowed, dateMd);
    if fault(cited[k]).Some? {
      FirstFaultPrefix(cited, fault, k);
    }
  }

  predicate Unbracketed(id: string) {
    id != "" ==> id[0] != '[' && id[|id| - 1] != ']'
  }

  predicate IsCitable(id: string, allowed: seq<string>, dateMd: set<string>) {
    Unbracketed(id) && id in allowed && id in dateMd
  }

  /** `_verify_cited_in_date_md`, in the packet builders and the assembler. */
  method VerifyCitedInDateMd(cited: seq<string>, dateMd: set<string>) returns (e: Option<ChainError>)
    ensures e == FirstFault(cited, DateMdFault(dateMd))
  {
    ghost var fault := DateMdFault(dateMd);
    for k := 0 to |cited|
      invariant forall j | 0 <= j < k :: fault(cited[j]).None?
    {
      if cited[k] !in dateMd {
        FirstFaultPrefix(cited, fault, k);
        return Some(NotInDateMd(cited[k]));
      }
    }
    FirstFaultNone(cited, fault);
    return None;
  }

  // ------------------------------------------------------------------ stages

  /** Reading Date.md and checking that the store holds all of its ids. */
  function LoadDateMd(e: Evidence): Result<set<string>, ChainError> {
    match Intake.StoreStage(e.dateMd, e.stored)
    case Err(x) => Err(DateMdError(x))
    case Ok(sections) => Ok(DateMdParser.SectionIds(sections))
  }

  /** `run_validate_scout_raw_json`, with the store given. */
  function ScoutStage(e: Evidence, input: ScoutInput, s: ScoutSummary): Result<seq<string>, ChainError> {
    match LoadDateMd(e)
    case Err(x) => Err(x)
    case Ok(dateMd) =>
      if s.universe != input.universe then Err(UniverseMismatch)
      else
        var cited := SortedUnique(ScoutCited(s));
        match FirstFault(cited, ScoutFault(IdsOf(input.records), dateMd))
        case Some(x) => Err(x)
        case None => Ok(cited)
  }

  predicate UniverseAgrees(u: Option<Universe>, name: string) {
    u.Some? ==> u.value.name == name
  }

  function Both(a: seq<string>, b: set<string>): (r: seq<string>)
    ensures forall x :: x in r <==> x in a && x in b
  {
    if a == [] then [] else (if a[0] in b then [a[0]] else []) + Both(a[1..], b)
  }

  /** `run_build_allocator_manual_packet` */
  function AllocatorPacketStage(e: Evidence, u: Option<Universe>, s: ScoutSummary): Result<AllocatorPacket, ChainError> {
    match LoadDateMd(e)
    case Err(x) => Err(x)
    case Ok(dateMd) =>
      if !UniverseAgrees(u, s.universe) then Err(UniverseMismatch)
      else
        var cited := SortedUnique(ScoutCited(s));
        match FirstFault(cited, DateMdFault(dateMd))
        case Some(x) => Err(x)
        case None =>
          var allowed := SortedUnique(Both(cited, dateMd));
          if allowed == [] then Err(NothingAllowed) else Ok(AllocatorPacket(s.universe, allowed))
  }

  /** `run_validate_allocator_raw_json`; the first issue of a failed verdict is the one raised. */
  function AllocatorStage(describe: Describe, e: Evidence, p: AllocatorPacket, d: AllocatorDecision, now: int)
    : Result<seq<string>, ChainError>
  {
    match LoadDateMd(e)
    case Err(x) => Err(x)
    case Ok(dateMd) =>
      if d.universe != p.universe then Err(UniverseMismatch)
      else
        var cited := SortedUnique(Cited(d));
        match FirstFault(cited, CitationFault(p.allowed, dateMd))
        case Some(x) => Err(x)
        case None =>
          var v := Verdict(describe, d, e.stored, now);
          if v.passed then Ok(cited) else Err(BusinessRule(v.issues[0]))
  }

  /** `run_build_analysis_manual_packet` for a market and symbol already normalized. */
  function AnalysisPacketStage(e: Evidence, u: Option<Universe>, s: ScoutSummary, d: AllocatorDecision,
                               market: string, symbol: string, tolerance: ToleranceContext)
    : Result<AnalysisPacket, ChainError>
  {
    match LoadDateMd(e)
    case Err(x) => Err(x)
    case Ok(dateMd) =>
      if s.universe != d.universe || !UniverseAgrees(u, s.universe) then Err(UniverseMismatch)
      else if u.Some? && (market, symbol) !in u.value.enabled then Err(SymbolNotEnabled)
      else
        var (fromScout, fromAllocator) := (SortedUnique(ScoutCited(s)), SortedUnique(Cited(d)));
        match FirstFault(fromScout, DateMdFault(dateMd))
        case Some(x) => Err(x)
        case None =>
          match FirstFault(fromAllocator, DateMdFault(dateMd))
          case Some(x) => Err(x)
          case None =>
            var allowed := SortedUnique(fromScout + fromAllocator);
            if allowed == [] then Err(NothingAllowed)
            else Ok(AnalysisPacket(s.universe, market, symbol, allowed, tolerance))
  }

  /** How the tolerance arguments and the message of a tolerance violation are given. */
  datatype AnalysisArgs = AnalysisArgs(
    percent: string -> Option<real>, target: Option<string>, tolerance: Option<string>, bandMessage: string, now: int)

  /** `run_validate_analysis_raw_json` */
  function AnalysisStage(e: Evidence, p: AnalysisPacket, a: AnalysisDecision, args: AnalysisArgs): Result<seq<string>, ChainError> {
    match LoadDateMd(e)
    case Err(x) => Err(x)
    case Ok(dateMd) =>
      if a.universe != p.universe then Err(UniverseMismatch)
      else if a.market != p.market then Err(MarketMismatch)
      else if a.symbol != p.symbol then Err(SymbolMismatch)
      else
        var cited := SortedUnique(AnalysisCited(a));
        match FirstFault(cited, CitationFault(p.allowed, dateMd))
        case Some(x) => Err(x)
        case None =>
          match ResolveTolerance(args.percent, args.target, args.tolerance, p.tolerance)
          case Err(x) => Err(BadTolerance(x))
          case Ok(t) =>
            var v := AnalysisVerdict(args.bandMessage, a, t, e.stored, args.now);
            if v.passed then Ok(cited) else Err(BusinessRule(v.issues[0]))
  }

  /** The evidence checks of `run_assemble_paper_loop_input`; the Scout summary is optional. */
  function AssemblyStage(e: Evidence, s: Option<ScoutSummary>, d: AllocatorDecision, a: AnalysisDecision)
    : Result<seq<string>, ChainError>
  {
    match LoadDateMd(e)
    case Err(x) => Err(x)
    case Ok(dateMd) =>
      if a.universe != d.universe then Err(UniverseMismatch)
      else if s.Some? && s.value.universe != d.universe then Err(UniverseMismatch)
      else
        var scoutCited := if s.Some? then ScoutCited(s.value) else [];
        match FirstFault(SortedUnique(scoutCited), DateMdFault(dateMd))
        case Some(x) => Err(x)
        case None =>
          match FirstFault(SortedUnique(Cited(d)), DateMdFault(dateMd))
          case Some(x) => Err(x)
          case None =>
            match FirstFault(SortedUnique(AnalysisCited(a)), DateMdFault(dateMd))
            case Some(x) => Err(x)
            case None => Ok(SortedUnique(scoutCited + Cited(d) + AnalysisCited(a)))
  }

  // ----------------------------------------------------- what each stage means

  predicate AllIn(ids: seq<string>, s: set<string>) {
    forall id | id in ids :: id in s
  }

  function Range(ids: seq<string>): set<string> {
    set id | id in ids
  }

  lemma {:induction false} DateMdIdsHaveNoBracket(e: Evidence)
    requires LoadDateMd(e).Ok?
    ensures forall id | id in LoadDateMd(e).value :: !HasBracket(id)
    ensures LoadDateMd(e).value <= IdsOf(e.stored)
    ensures LoadDateMd(e).value != {}
  {
    hide DateMdParser.ParseMeaning, DateIds.IsCanonical;
    DateMdParser.ParsedIdsDistinct(e.dateMd);
    var sections := DateMdParser.ParseMeaning(e.dateMd).value;
    assert sections[0].dateId in DateMdParser.SectionIds(sections);
    var missing := DateMdParser.SectionIds(sections) - IdsOf(e.stored);
    forall id | id in LoadDateMd(e).value ensures !HasBracket(id) && id in IdsOf(e.stored) {
      assert id !in missing;
      var k :| 0 <= k < |sections| && sections[k].dateId == id;
      CanonicalHasNoBracket(id);
    }
  }

  lemma CanonicalHasNoBracket(id: string)
    requires DateIds.IsCanonical(id)
    ensures !HasBracket(id)
  {
    DateIds.CanonicalCharacters(id);
  }

  lemma {:induction false} ScoutStageOfCited(e: Evidence, input: ScoutInput, s: ScoutSummary)
    requires LoadDateMd(e).Ok?
    ensures ScoutStage(e, input, s).Ok? <==>
            && s.universe == input.universe
            && AllIn(ScoutCited(s), IdsOf(input.records)) && AllIn(ScoutCited(s), LoadDateMd(e).value)
    ensures ScoutStage(e, input, s).Ok? ==> ScoutStage(e, input, s).value == SortedUnique(ScoutCited(s))
  {
    hide LoadDateMd, ScoutCited, FirstFault;
    FirstFaultNone(SortedUnique(ScoutCited(s)), ScoutFault(IdsOf(input.records), LoadDateMd(e).value));
  }

  lemma {:induction false} AllocatorStageOfCited(describe: Describe, e: Evidence, p: AllocatorPacket, d: AllocatorDecision, now: int)
    requires LoadDateMd(e).Ok?
    ensures AllocatorStage(describe, e, p, d, now).Ok? <==>
            && d.universe == p.universe
            && AllIn(Cited(d), Range(p.allowed)) && AllIn(Cited(d), LoadDateMd(e).value)
            && RulesHold(d) && forall id | id in Cited(d) :: Usable(e.stored, id, now)
    ensures AllocatorStage(describe, e, p, d, now).Ok? ==> AllocatorStage(describe, e, p, d, now).value == SortedUnique(Cited(d))
  {
    hide LoadDateMd, Cited, FirstFault, Verdict, RulesHold, Usable, HasBracket, IsFirstViolated, Violations;
    DateMdIdsHaveNoBracket(e);
    FirstFaultNone(SortedUnique(Cited(d)), CitationFault(p.allowed, LoadDateMd(e).value));
    VerdictOfCited(describe, d, e.stored, now);
  }

  lemma {:induction false} AnalysisStageOfCited(e: Evidence, p: AnalysisPacket, a: AnalysisDecision, args: AnalysisArgs)
    requires LoadDateMd(e).Ok?
    ensures AnalysisStage(e, p, a, args).Ok? <==>
            && a.universe == p.universe && a.market == p.market && a.symbol == p.symbol
            && AllIn(AnalysisCited(a), Range(p.allowed)) && AllIn(AnalysisCited(a), LoadDateMd(e).value)
            && (var t := ResolveTolerance(args.percent, args.target, args.tolerance, p.tolerance);
                t.Ok? && ToleranceRespected(a, t.value))
            && forall id | id in AnalysisCited(a) :: Usable(e.stored, id, args.now)
    ensures AnalysisStage(e, p, a, args).Ok? ==> AnalysisStage(e, p, a, args).value == SortedUnique(AnalysisCited(a))
  {
    hide LoadDateMd, AnalysisCited, FirstFault, AnalysisVerdict, Usable, HasBracket, ToleranceRespected, ResolveTolerance;
    DateMdIdsHaveNoBracket(e);
    FirstFaultNone(SortedUnique(AnalysisCited(a)), CitationFault(p.allowed, LoadDateMd(e).value));
    var t := ResolveTolerance(args.percent, args.target, args.tolerance, p.tolerance);
    if t.Ok? {
      AnalysisVerdictOfCited(args.bandMessage, a, t.value, e.stored, args.now);
    }
  }

  lemma {:induction false} AllocatorPacketOfCited(e: Evidence, u: Option<Universe>, s: ScoutSummary)
    requires LoadDateMd(e).Ok? && IsScoutSummary(s)
    ensures AllocatorPacketStage(e, u, s).Ok? <==> UniverseAgrees(u, s.universe) && AllIn(ScoutCited(s), LoadDateMd(e).value)
    ensures AllocatorPacketStage(e, u, s).Ok? ==>
              AllocatorPacketStage(e, u, s).value == AllocatorPacket(s.universe, SortedUnique(ScoutCited(s)))
  {
    hide LoadDateMd, ScoutCited, FirstFault, IsScoutSummary, UniverseAgrees;
    var cited, dateMd := SortedUnique(ScoutCited(s)), LoadDateMd(e).value;
    FirstFaultNone(cited, DateMdFault(dateMd));
    SummaryCites(s);
    assert ScoutCited(s)[0] in cited;
    if AllIn(ScoutCited(s), dateMd) {
      SameListing(Both(cited, dateMd), ScoutCited(s));
    }
  }

  lemma {:induction false} AssemblyStageOfCited(e: Evidence, s: Option<ScoutSummary>, d: AllocatorDecision, a: AnalysisDecision)
    requires LoadDateMd(e).Ok?
    ensures AssemblyStage(e, s, d, a).Ok? <==>
            && a.universe == d.universe && (s.Some? ==> s.value.universe == d.universe && AllIn(ScoutCited(s.value), LoadDateMd(e).value))
            && AllIn(Cited(d), LoadDateMd(e).value) && AllIn(AnalysisCited(a), LoadDateMd(e).value)
    ensures AssemblyStage(e, s, d, a).Ok? ==>
              AssemblyStage(e, s, d, a).value == SortedUnique((if s.Some? then ScoutCited(s.value) else []) + Cited(d) + AnalysisCited(a))
  {
    hide LoadDateMd, ScoutCited, Cited, AnalysisCited, FirstFault;
    var fault := DateMdFault(LoadDateMd(e).value);
    FirstFaultNone(SortedUnique(if s.Some? then ScoutCited(s.value) else []), fault);
    FirstFaultNone(SortedUnique(Cited(d)), fault);
    FirstFaultNone(SortedUnique(AnalysisCited(a)), fault);
  }

  // --------------------------------------------- ... over the reasons themselves

  lemma {:induction false} ScoutReasonsIn(s: ScoutSummary, ids: set<string>)
    ensures AllIn(ScoutCited(s), ids) <==> forall r | IsScoutReason(r, s) :: r.dateId in ids
  {
    hide ScoutCited, IsScoutReason;
    forall id ensures id in ScoutCited(s) <==> exists r :: IsScoutReason(r, s) && r.dateId == id {
      ScoutCitedExactly(s, id);
    }
  }

  lemma {:induction false} ReasonsIn(d: AllocatorDecision, ids: set<string>)
    ensures AllIn(Cited(d), ids) <==> forall r | IsReasonOf(r, d) :: r.dateId in ids
  {
    hide Cited, IsReasonOf;
    forall id ensures id in Cited(d) <==> exists r :: IsReasonOf(r, d) && r.dateId == id {
      CitedExactly(d, id);
    }
  }

  lemma {:induction false} AnalysisReasonsIn(a: AnalysisDecision, ids: set<string>)
    ensures AllIn(AnalysisCited(a), ids) <==> forall r | IsAnalysisReason(r, a) :: r.dateId in ids
  {
    hide AnalysisCited, IsAnalysisReason;
    forall id ensures id in AnalysisCited(a) <==> exists r :: IsAnalysisReason(r, a) && r.dateId == id {
      AnalysisCitedExactly(a, id);
    }
  }

  lemma {:induction false} ScoutStageExactly(e: Evidence, input: ScoutInput, s: ScoutSummary)
    requires LoadDateMd(e).Ok?
    ensures ScoutStage(e, input, s).Ok? <==>
            && s.universe == input.universe
            && forall r | IsScoutReason(r, s) :: r.dateId in IdsOf(input.records) && r.dateId in LoadDateMd(e).value
    ensures ScoutStage(e, input, s).Ok? ==>
              var ids := ScoutStage(e, input, s).value;
              StrictlyAscending(ids) && forall id :: id in ids <==> exists r :: IsScoutReason(r, s) && r.dateId == id
  {
    hide LoadDateMd, ScoutCited, IsScoutReason, ScoutStage, StrictlyAscending;
    SortedUniqueAscends(ScoutCited(s));
    forall id ensures id in ScoutCited(s) <==> exists r :: IsScoutReason(r, s) && r.dateId == id {
      ScoutCitedExactly(s, id);
    }
    ScoutStageOfCited(e, input, s);
    ScoutReasonsIn(s, IdsOf(input.records));
    ScoutReasonsIn(s, LoadDateMd(e).value);
  }

  /** The packet allows exactly the ids of the summary's reasons, ascending. */
  lemma {:induction false} AllocatorPacketStageExactly(e: Evidence, u: Option<Universe>, s: ScoutSummary)
    requires LoadDateMd(e).Ok? && IsScoutSummary(s)
    ensures AllocatorPacketStage(e, u, s).Ok? <==>
            && (u.Some? ==> u.value.name == s.universe)
            && forall r | IsScoutReason(r, s) :: r.dateId in LoadDateMd(e).value
    ensures AllocatorPacketStage(e, u, s).Ok? ==>
              var p := AllocatorPacketStage(e, u, s).value;
              && p.universe == s.universe && StrictlyAscending(p.allowed)
              && forall id :: id in p.allowed <==> exists r :: IsScoutReason(r, s) && r.dateId == id
  {
    hide LoadDateMd, ScoutCited, IsScoutReason, AllocatorPacketStage, IsScoutSummary, StrictlyAscending;
    AllocatorPacketOfCited(e, u, s);
    ScoutReasonsIn(s, LoadDateMd(e).value);
    SortedUniqueAscends(ScoutCited(s));
    forall id ensures id in ScoutCited(s) <==> exists r :: IsScoutReason(r, s) && r.dateId == id {
      ScoutCitedExactly(s, id);
    }
  }

  lemma {:induction false} AllocatorStageExactly(describe: Describe, e: Evidence, p: AllocatorPacket, d: AllocatorDecision, now: int)
    requires LoadDateMd(e).Ok?
    ensures AllocatorStage(describe, e, p, d, now).Ok? <==>
            && d.universe == p.universe && KeepsRules(d)
            && forall r | IsReasonOf(r, d) :: r.dateId in p.allowed && r.dateId in LoadDateMd(e).value && Usable(e.stored, r.dateId, now)
    ensures AllocatorStage(describe, e, p, d, now).Ok? ==>
              var ids := AllocatorStage(describe, e, p, d, now).value;
              StrictlyAscending(ids) && forall id :: id in ids <==> exists r :: IsReasonOf(r, d) && r.dateId == id
  {
    hide LoadDateMd, Cited, IsReasonOf, AllocatorStage, RulesHold, KeepsRules, Usable, StrictlyAscending;
    SortedUniqueAscends(Cited(d));
    AllocatorStageOfCited(describe, e, p, d, now);
    RulesHoldExactly(d);
    ReasonsIn(d, Range(p.allowed));
    ReasonsIn(d, LoadDateMd(e).value);
    forall id ensures id in Cited(d) <==> exists r :: IsReasonOf(r, d) && r.dateId == id {
      CitedExactly(d, id);
    }
  }

  lemma {:induction false} AnalysisStageExactly(e: Evidence, p: AnalysisPacket, a: AnalysisDecision, args: AnalysisArgs)
    requires LoadDateMd(e).Ok?
    ensures AnalysisStage(e, p, a, args).Ok? <==>
            && a.universe == p.universe && a.market == p.market && a.symbol == p.symbol
            && (var t := ResolveTolerance(args.percent, args.target, args.tolerance, p.tolerance);
                t.Ok? && ToleranceRespected(a, t.value))
            && forall r | IsAnalysisReason(r, a) ::
                 r.dateId in p.allowed && r.dateId in LoadDateMd(e).value && Usable(e.stored, r.dateId, args.now)
    ensures AnalysisStage(e, p, a, args).Ok? ==>
              var ids := AnalysisStage(e, p, a, args).value;
              StrictlyAscending(ids) && forall id :: id in ids <==> exists r :: IsAnalysisReason(r, a) && r.dateId == id
  {
    hide LoadDateMd, AnalysisCited, IsAnalysisReason, AnalysisStage, ToleranceRespected, ResolveTolerance, Usable, StrictlyAscending;
    SortedUniqueAscends(AnalysisCited(a));
    AnalysisStageOfCited(e, p, a, args);
    AnalysisReasonsIn(a, Range(p.allowed));
    AnalysisReasonsIn(a, LoadDateMd(e).value);
    forall id ensures id in AnalysisCited(a) <==> exists r :: IsAnalysisReason(r, a) && r.dateId == id {
      AnalysisCitedExactly(a, id);
    }
  }

  lemma {:induction false} AssemblyStageExactly(e: Evidence, s: Option<ScoutSummary>, d: AllocatorDecision, a: AnalysisDecision)
    requires LoadDateMd(e).Ok?
    ensures AssemblyStage(e, s, d, a).Ok? <==>
            && a.universe == d.universe && (s.Some? ==> s.value.universe == d.universe)
            && (s.Some? ==> forall r | IsScoutReason(r, s.value) :: r.dateId in LoadDateMd(e).value)
            && (forall r | IsReasonOf(r, d) :: r.dateId in LoadDateMd(e).value)
            && (forall r | IsAnalysisReason(r, a) :: r.dateId in LoadDateMd(e).value)
    ensures AssemblyStage(e, s, d, a).Ok? ==>
              var ids := AssemblyStage(e, s, d, a).value;
              && StrictlyAscending(ids)
              && forall id :: id in ids <==>
                   exists r: Reason :: r.dateId == id && (IsReasonOf(r, d) || IsAnalysisReason(r, a) || (s.Some? && IsScoutReason(r, s.value)))
  {
    hide LoadDateMd, ScoutCited, Cited, AnalysisCited, IsScoutReason, IsReasonOf, IsAnalysisReason, AssemblyStage, StrictlyAscending, SortedUnique;
    var all := (if s.Some? then ScoutCited(s.value) else []) + Cited(d) + AnalysisCited(a);
    SortedUniqueAscends(all);
    forall id
      ensures id in all <==> exists r: Reason :: r.dateId == id && (IsReasonOf(r, d) || IsAnalysisReason(r, a) || (s.Some? && IsScoutReason(r, s.value)))
    {
      CitedExactly(d, id);
      AnalysisCitedExactly(a, id);
      if s.Some? { ScoutCitedExactly(s.value, id); }
    }
    AssemblyStageOfCited(e, s, d, a);
    if s.Some? { ScoutReasonsIn(s.value, LoadDateMd(e).value); }
    ReasonsIn(d, LoadDateMd(e).value);
    AnalysisReasonsIn(a, LoadDateMd(e).value);
  }

  // ---------------------------------------------------------- the whole chain

  /** A run of the chain up to the Scout: packet built, summary validated. */
  predicate ScoutValidated(e: Evidence, u: Universe, o: PacketOptions, s: ScoutSummary) {
    && IsScoutSummary(s)
    && ScoutPacketOf(e, u, o).Ok?
    && ScoutStage(e, ScoutPacketOf(e, u, o).value, s).Ok?
  }

  /** ... then the allocator packet, and a decision validated against it. */
  predicate AllocatorValidated(describe: Describe, e: Evidence, u: Option<Universe>, s: ScoutSummary, d: AllocatorDecision, now: int) {
    && AllocatorPacketStage(e, u, s).Ok?
    && AllocatorStage(describe, e, AllocatorPacketStage(e, u, s).value, d, now).Ok?
  }

  datatype AnalysisRequest = AnalysisRequest(universe: Option<Universe>, market: string, symbol: string, context: ToleranceContext, args: AnalysisArgs)

  /** ... then the analysis packet, and a decision validated against it. */
  predicate AnalysisValidated(e: Evidence, s: ScoutSummary, d: AllocatorDecision, q: AnalysisRequest, a: AnalysisDecision) {
    var p := AnalysisPacketStage(e, q.universe, s, d, q.market, q.symbol, q.context);
    p.Ok? && AnalysisStage(e, p.value, a, q.args).Ok?
  }

  /** Cited ids of a validated summary are records of the packet, named in Date.md and stored. */
  lemma {:induction false} ScoutCitesEvidence(e: Evidence, u: Universe, o: PacketOptions, s: ScoutSummary)
    requires ScoutValidated(e, u, o, s)
    ensures LoadDateMd(e).Ok? && s.universe == u.name
    ensures AllIn(ScoutCited(s), IdsOf(ScoutPacketOf(e, u, o).value.records))
    ensures AllIn(ScoutCited(s), LoadDateMd(e).value)
    ensures AllIn(ScoutCited(s), IdsOf(e.stored))
    ensures ScoutCited(s) != []
  {
    hide LoadDateMd, ScoutCited, ScoutPacketOf, Intake.StoreStage, IsScoutSummary, ScoutStage;
    assert LoadDateMd(e).Ok? by { hide ScoutPacketOf, Intake.StoreStage; StageLoads(e, ScoutPacketOf(e, u, o).value, s); }
    ScoutPacketIsEvidence(e, u, o);
    ScoutStageOfCited(e, ScoutPacketOf(e, u, o).value, s);
    DateMdIdsHaveNoBracket(e);
    SummaryCites(s);
  }

  lemma StageLoads(e: Evidence, input: ScoutInput, s: ScoutSummary)
    requires ScoutStage(e, input, s).Ok?
    ensures LoadDateMd(e).Ok?
  {
    hide LoadDateMd, ScoutCited, FirstFault;
  }

  /**
   The packet builders never refuse a validated chain, and both hand on the Scout's citations
   unchanged: the allocator packet and the analysis packet allow exactly the same ids.
   */
  lemma {:induction false} AllocatorPacketIsScoutCitations(e: Evidence, u: Universe, o: PacketOptions, s: ScoutSummary, v: Option<Universe>)
    requires ScoutValidated(e, u, o, s)
    ensures AllocatorPacketStage(e, v, s) ==
            if UniverseAgrees(v, s.universe) then Ok(AllocatorPacket(s.universe, SortedUnique(ScoutCited(s)))) else Err(UniverseMismatch)
  {
    hide LoadDateMd, ScoutCited, FirstFault, AllocatorPacketStage, UniverseAgrees, ScoutStage, ScoutPacketOf, IsScoutSummary;
    ScoutCitesEvidence(e, u, o, s);
    AllocatorPacketOfCited(e, v, s);
    if !UniverseAgrees(v, s.universe) { PacketRefusesOtherUniverse(e, v, s); }
  }

  lemma PacketRefusesOtherUniverse(e: Evidence, v: Option<Universe>, s: ScoutSummary)
    requires LoadDateMd(e).Ok? && !UniverseAgrees(v, s.universe)
    ensures AllocatorPacketStage(e, v, s) == Err(UniverseMismatch)
  {
    hide LoadDateMd, ScoutCited, FirstFault;
  }

  lemma {:induction false} SameListing(a: seq<string>, b: seq<string>)
    requires forall x :: x in a <==> x in b
    ensures SortedUnique(a) == SortedUnique(b)
  {
    hide SortedUnique, StrictlyAscending;
    SortedUniqueAscends(a);
    SortedUniqueAscends(b);
    AscendingListingUnique(SortedUnique(a), SortedUnique(b));
  }

  lemma {:induction false} AllocatorCitesScout(
    describe: Describe, e: Evidence, u: Universe, o: PacketOptions, v: Option<Universe>, s: ScoutSummary, d: AllocatorDecision, now: int)
    requires ScoutValidated(e, u, o, s) && AllocatorValidated(describe, e, v, s, d, now)
    ensures d.universe == s.universe && AllIn(Cited(d), Range(ScoutCited(s)))
    ensures RulesHold(d) && forall id | id in Cited(d) :: Usable(e.stored, id, now)
  {
    hide LoadDateMd, ScoutCited, Cited, ScoutValidated, AllocatorStage, AllocatorPacketStage, RulesHold, Usable;
    ScoutCitesEvidence(e, u, o, s);
    AllocatorPacketIsScoutCitations(e, u, o, s, v);
    AllocatorStageOfCited(describe, e, AllocatorPacketStage(e, v, s).value, d, now);
  }

  lemma {:induction false} AnalysisPacketIsScoutCitations(
    describe: Describe, e: Evidence, u: Universe, o: PacketOptions, v: Option<Universe>, s: ScoutSummary, d: AllocatorDecision, now: int,
    q: AnalysisRequest)
    requires ScoutValidated(e, u, o, s) && AllocatorValidated(describe, e, v, s, d, now)
    ensures AnalysisPacketStage(e, q.universe, s, d, q.market, q.symbol, q.context) ==
            if !UniverseAgrees(q.universe, s.universe) then Err(UniverseMismatch)
            else if q.universe.Some? && (q.market, q.symbol) !in q.universe.value.enabled then Err(SymbolNotEnabled)
            else Ok(AnalysisPacket(s.universe, q.market, q.symbol, SortedUnique(ScoutCited(s)), q.context))
  {
    hide LoadDateMd, ScoutCited, Cited, FirstFault, ScoutValidated, AllocatorValidated, RulesHold, Usable, UniverseAgrees;
    ScoutCitesEvidence(e, u, o, s);
    AllocatorCitesScout(describe, e, u, o, v, s, d, now);
    var dateMd := LoadDateMd(e).value;
    FirstFaultNone(SortedUnique(ScoutCited(s)), DateMdFault(dateMd));
    FirstFaultNone(SortedUnique(Cited(d)), DateMdFault(dateMd));
    SameListing(SortedUnique(ScoutCited(s)) + SortedUnique(Cited(d)), ScoutCited(s));
    assert ScoutCited(s)[0] in SortedUnique(ScoutCited(s));
  }

  /**
   Provenance closure: every reason of the allocation and of the analysis cites an id that some
   reason of the Scout cites; so it is a record of the Scout packet, named in Date.md, and
   stored. No later stage introduces evidence.
   */
  lemma {:induction false} ProvenanceClosure(
    describe: Describe, e: Evidence, u: Universe, o: PacketOptions, v: Option<Universe>, s: ScoutSummary, d: AllocatorDecision, now: int,
    q: AnalysisRequest, a: AnalysisDecision)
    requires ScoutValidated(e, u, o, s) && AllocatorValidated(describe, e, v, s, d, now) && AnalysisValidated(e, s, d, q, a)
    ensures LoadDateMd(e).Ok?
    ensures forall r | IsAnalysisReason(r, a) || IsReasonOf(r, d) :: exists c :: IsScoutReason(c, s) && c.dateId == r.dateId
    ensures forall r | IsAnalysisReason(r, a) || IsReasonOf(r, d) || IsScoutReason(r, s) ::
              r.dateId in IdsOf(ScoutPacketOf(e, u, o).value.records) && r.dateId in LoadDateMd(e).value && r.dateId in IdsOf(e.stored)
    ensures a.universe == d.universe == s.universe == u.name
  {
    hide LoadDateMd, ScoutCited, Cited, AnalysisCited, ScoutValidated, AllocatorValidated, AnalysisValidated, ScoutPacketOf,
         IsScoutReason, IsReasonOf, IsAnalysisReason;
    ChainCitations(describe, e, u, o, v, s, d, now, q, a);
    var cited := Range(ScoutCited(s));
    ReasonsIn(d, cited);
    AnalysisReasonsIn(a, cited);
    ScoutReasonsIn(s, cited);
    forall id | id in cited ensures exists c :: IsScoutReason(c, s) && c.dateId == id {
      ScoutCitedExactly(s, id);
    }
  }

  lemma {:induction false} ChainCitations(
    describe: Describe, e: Evidence, u: Universe, o: PacketOptions, v: Option<Universe>, s: ScoutSummary, d: AllocatorDecision, now: int,
    q: AnalysisRequest, a: AnalysisDecision)
    requires ScoutValidated(e, u, o, s) && AllocatorValidated(describe, e, v, s, d, now) && AnalysisValidated(e, s, d, q, a)
    ensures AllIn(AnalysisCited(a), Range(ScoutCited(s))) && AllIn(Cited(d), Range(ScoutCited(s)))
    ensures LoadDateMd(e).Ok?
    ensures forall id | id in AnalysisCited(a) + Cited(d) + ScoutCited(s) ::
              id in IdsOf(ScoutPacketOf(e, u, o).value.records) && id in LoadDateMd(e).value && id in IdsOf(e.stored)
    ensures a.universe == d.universe == s.universe == u.name
  {
    hide LoadDateMd, ScoutCited, Cited, AnalysisCited, ScoutValidated, AllocatorValidated, AnalysisStage, AnalysisPacketStage, RulesHold, Usable, ToleranceRespected, ResolveTolerance, ScoutPacketOf;
    ScoutCitesEvidence(e, u, o, s);
    AllocatorCitesScout(describe, e, u, o, v, s, d, now);
    AnalysisPacketIsScoutCitations(describe, e, u, o, v, s, d, now, q);
    AnalysisStageOfCited(e, AnalysisPacketStage(e, q.universe, s, d, q.market, q.symbol, q.context).value, a, q.args);
  }

  /**
   Chain acceptance: the assembler's universe, citation and store checks accept every validated
   chain, with or without the Scout summary, and with the summary they list exactly its citations.
   */
  lemma {:induction false} AssemblerAcceptsValidatedChain(
    describe: Describe, e: Evidence, u: Universe, o: PacketOptions, v: Option<Universe>, s: ScoutSummary, d: AllocatorDecision, now: int,
    q: AnalysisRequest, a: AnalysisDecision)
    requires ScoutValidated(e, u, o, s) && AllocatorValidated(describe, e, v, s, d, now) && AnalysisValidated(e, s, d, q, a)
    ensures AssemblyStage(e, Some(s), d, a) == Ok(SortedUnique(ScoutCited(s)))
    ensures AssemblyStage(e, None, d, a).Ok?
  {
    hide LoadDateMd, ScoutCited, Cited, AnalysisCited, FirstFault, ScoutValidated, AllocatorValidated, AnalysisValidated, ScoutPacketOf;
    ChainCitations(describe, e, u, o, v, s, d, now, q, a);
    var fault := DateMdFault(LoadDateMd(e).value);
    FirstFaultNone(SortedUnique(ScoutCited(s)), fault);
    FirstFaultNone(SortedUnique(Cited(d)), fault);
    FirstFaultNone(SortedUnique(AnalysisCited(a)), fault);
    FirstFaultNone(SortedUnique([]), fault);
    SameListing(ScoutCited(s) + Cited(d) + AnalysisCited(a), ScoutCited(s));
  }

  /**
   Once a decision has passed the membership checks, the only Date-ID issues its verdict can
   hold are staleness and future sources: a cited id is never missing from the store.
   */
  lemma {:induction false} MembershipExcludesMissing(describe: Describe, e: Evidence, allowed: seq<string>, d: AllocatorDecision, now: int)
    requires LoadDateMd(e).Ok?
    requires FirstFault(SortedUnique(Cited(d)), CitationFault(allowed, LoadDateMd(e).value)).None?
    ensures forall i | i in Verdict(describe, d, e.stored, now).issues :: i.code != OwnedDateIdCode(AllocatorOwner, Missing)
  {
    hide LoadDateMd, Cited, FirstFault, Verdict, RulesHold, Usable, HasBracket, DateIdReport, MappedIssues, Violations, IssueLe, Holds,
         IsFirstViolated, RuleIssue, SortedBy, Ascending;
    DateMdIdsHaveNoBracket(e);
    FirstFaultNone(SortedUnique(Cited(d)), CitationFault(allowed, LoadDateMd(e).value));
    forall id | id in Cited(d) ensures id in IdsOf(e.stored) {
      assert id in SortedUnique(Cited(d));
    }
    VerdictOfCited(describe, d, e.stored, now);
    RulesAscend();
    ViolationsSorted(describe, d, RULES);
    StoredIdsAreNeverMissing(AllocatorOwner, e.stored, Cited(d), now);
  }
}
