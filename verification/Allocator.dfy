/**
 The allocation decision, its business rules and its validator.
 Percentages are exact decimals, modelled as reals.
 */
module Allocator {
  import opened Wrappers
  import opened Sorting
  import opened SourceRecords
  import opened DateIdChecks

  datatype GoldMode = NormalGold | ExceptionGold

  datatype Reason = Reason(text: string, dateId: string)

  datatype Weights = Weights(kr: real, us: real, gold: real)

  datatype CashPolicy = CashPolicy(target: real, min: Option<real>, max: Option<real>, reasons: seq<Reason>)

  datatype AllocatorDecision = AllocatorDecision(
    universe: string,
    goldMode: GoldMode,
    signalReasons: seq<Reason>,
    recommendedCash: real, cashManagerReasons: seq<Reason>,
    assetWeights: Weights, assetReasons: seq<Reason>,
    consistencyPassed: bool, consistencyReasons: seq<Reason>,
    cashPolicy: CashPolicy,
    weights: Weights,
    reasons: seq<Reason>)

  predicate IsPercent(x: real) {
    0.0 <= x <= 100.0
  }

  predicate ArePercents(w: Weights) {
    IsPercent(w.kr) && IsPercent(w.us) && IsPercent(w.gold)
  }

  /** The bounds a `CashPolicy` must respect to be constructed. */
  predicate IsCashPolicy(p: CashPolicy) {
    && p.reasons != []
    && IsPercent(p.target)
    && (p.min.Some? ==> IsPercent(p.min.value) && p.min.value <= p.target)
    && (p.max.Some? ==> IsPercent(p.max.value) && p.target <= p.max.value)
    && (p.min.Some? && p.max.Some? ==> p.min.value <= p.max.value)
  }

  /** What the decision model guarantees before validation starts. */
  predicate IsDecision(d: AllocatorDecision) {
    && d.signalReasons != [] && d.cashManagerReasons != [] && d.assetReasons != []
    && d.consistencyReasons != [] && d.reasons != []
    && IsPercent(d.recommendedCash) && ArePercents(d.assetWeights) && ArePercents(d.weights)
    && IsCashPolicy(d.cashPolicy)
  }

  // ------------------------------------------------------------------- rules

  function WeightsSum(w: Weights): real {
    w.kr + w.us + w.gold
  }

  function GoldMin(m: GoldMode): real {
    if m == NormalGold then 18.0 else 15.0
  }

  function GoldMax(m: GoldMode): real {
    if m == NormalGold then 22.0 else 25.0
  }

  predicate Holds(rule: Rule, d: AllocatorDecision) {
    match rule
    case SumIs100 => WeightsSum(d.weights) == 100.0
    case GoldInBand => GoldMin(d.goldMode) <= d.weights.gold <= GoldMax(d.goldMode)
    case CashInBand => 10.0 <= d.cashPolicy.target <= 30.0
    case WeightsAgree => d.weights == d.assetWeights
    case CashAgrees => d.cashPolicy.target == d.recommendedCash
    case ConsistencyPassed => d.consistencyPassed
  }

  const RULES: seq<Rule> := [SumIs100, GoldInBand, CashInBand, WeightsAgree, CashAgrees, ConsistencyPassed]

  function Priority(r: Rule): nat {
    match r
    case SumIs100 => 0
    case GoldInBand => 1
    case CashInBand => 2
    case WeightsAgree => 3
    case CashAgrees => 4
    case ConsistencyPassed => 5
  }

  /** The sentence a violated rule is reported with. */
  type Describe = (Rule, AllocatorDecision) -> string

  function RuleIssue(describe: Describe, d: AllocatorDecision, rule: Rule): Issue {
    Issue(RuleCode(rule), describe(rule, d), Error, None)
  }

  function IfViolated(describe: Describe, d: AllocatorDecision, rule: Rule): seq<Issue> {
    if Holds(rule, d) then [] else [RuleIssue(describe, d, rule)]
  }

  /** One issue per violated rule of `rules`, in that order. */
  function Violations(describe: Describe, d: AllocatorDecision, rules: seq<Rule>): (r: seq<Issue>)
    ensures r == [] <==> forall x | x in rules :: Holds(x, d)
  {
    if rules == [] then []
    else
      assert rules == [rules[0]] + rules[1..];
      IfViolated(describe, d, rules[0]) + Violations(describe, d, rules[1..])
  }

  lemma {:induction false} ViolationsSnoc(describe: Describe, d: AllocatorDecision, rules: seq<Rule>, rule: Rule)
    ensures Violations(describe, d, rules + [rule]) == Violations(describe, d, rules) + IfViolated(describe, d, rule)
  {
    hide Holds, IfViolated;
    if rules == [] {
      assert rules + [rule] == [rule];
      assert Violations(describe, d, [rule][1..]) == [];
    } else {
      assert (rules + [rule])[1..] == rules[1..] + [rule];
      ViolationsSnoc(describe, d, rules[1..], rule);
    }
  }

  lemma {:induction false} NextRule(describe: Describe, d: AllocatorDecision, k: nat)
    requires k < |RULES|
    ensures Violations(describe, d, RULES[..k + 1]) == Violations(describe, d, RULES[..k]) + IfViolated(describe, d, RULES[k])
  {
    hide Violations, IfViolated, Holds;
    assert RULES[..k + 1] == RULES[..k] + [RULES[k]];
    ViolationsSnoc(describe, d, RULES[..k], RULES[k]);
  }

  lemma RulesInOrder()
    ensures |RULES| == 6 && RULES[0] == SumIs100 && RULES[1] == GoldInBand && RULES[2] == CashInBand && RULES[3] == WeightsAgree
    ensures RULES[4] == CashAgrees && RULES[5] == ConsistencyPassed
  {
  }

  lemma NoRuleNoIssue(describe: Describe, d: AllocatorDecision)
    ensures Violations(describe, d, RULES[..0]) == []
  {
  }

  /** `_collect_business_rule_issues`: the six checks, each appending its own issue. */
  method CollectBusinessIssues(describe: Describe, d: AllocatorDecision) returns (issues: seq<Issue>)
    ensures issues == Violations(describe, d, RULES)
  {
    hide Violations, RuleIssue, Holds, RULES;
    RulesInOrder();
    issues := [];
    NoRuleNoIssue(describe, d);
    NextRule(describe, d, 0);
    if !Holds(SumIs100, d) {
      issues := issues + [RuleIssue(describe, d, SumIs100)];
    }
    assert issues == Violations(describe, d, RULES[..1]);
    NextRule(describe, d, 1);
    if !Holds(GoldInBand, d) {
      issues := issues + [RuleIssue(describe, d, GoldInBand)];
    }
    assert issues == Violations(describe, d, RULES[..2]);
    NextRule(describe, d, 2);
    if !Holds(CashInBand, d) {
      issues := issues + [RuleIssue(describe, d, CashInBand)];
    }
    assert issues == Violations(describe, d, RULES[..3]);
    NextRule(describe, d, 3);
    if !Holds(WeightsAgree, d) {
      issues := issues + [RuleIssue(describe, d, WeightsAgree)];
    }
    assert issues == Violations(describe, d, RULES[..4]);
    NextRule(describe, d, 4);
    if !Holds(CashAgrees, d) {
      issues := issues + [RuleIssue(describe, d, CashAgrees)];
    }
    assert issues == Violations(describe, d, RULES[..5]);
    NextRule(describe, d, 5);
    if !Holds(ConsistencyPassed, d) {
      issues := issues + [RuleIssue(describe, d, ConsistencyPassed)];
    }
    assert RULES[..6] == RULES;
  }

  // --------------------------------------------------------------- citations

  /** The six reason lists in the order they are read. */
  function ReasonLists(d: AllocatorDecision): seq<seq<Reason>> {
    [d.reasons, d.signalReasons, d.cashManagerReasons, d.assetReasons, d.consistencyReasons, d.cashPolicy.reasons]
  }

  function ReasonIds(rs: seq<Reason>): (ids: seq<string>)
    ensures |ids| == |rs| && forall i | 0 <= i < |rs| :: ids[i] == rs[i].dateId
  {
    seq(|rs|, i requires 0 <= i < |rs| => rs[i].dateId)
  }

  function CitedIn(lists: seq<seq<Reason>>): seq<string> {
    if lists == [] then [] else CitedIn(lists[..|lists| - 1]) + ReasonIds(lists[|lists| - 1])
  }

  /** Every cited id comes from some reason of some list, and every reason is cited. */
  lemma {:induction false} CitedInExact(lists: seq<seq<Reason>>, id: string)
    ensures id in CitedIn(lists) <==> exists l, r | l in lists && r in l :: r.dateId == id
  {
    if lists != [] {
      var init, last := lists[..|lists| - 1], lists[|lists| - 1];
      assert lists == init + [last];
      CitedInExact(init, id);
      assert id in ReasonIds(last) <==> exists r | r in last :: r.dateId == id by {
        if id in ReasonIds(last) {
          var k :| 0 <= k < |last| && ReasonIds(last)[k] == id;
          assert last[k] in last;
        }
        if exists r | r in last :: r.dateId == id {
          var r :| r in last && r.dateId == id;
          var k :| 0 <= k < |last| && last[k] == r;
          assert ReasonIds(last)[k] == id;
        }
      }
    }
  }

  /** The extraction loops: lists in order, reasons in order, repetitions kept. */
  method ExtractDateIds(lists: seq<seq<Reason>>) returns (ids: seq<string>)
    ensures ids == CitedIn(lists)
  {
    ids := [];
    for i := 0 to |lists|
      invariant ids == CitedIn(lists[..i])
    {
      ghost var before := ids;
      for j := 0 to |lists[i]|
        invariant ids == before + ReasonIds(lists[i][..j])
      {
        assert ReasonIds(lists[i][..j + 1]) == ReasonIds(lists[i][..j]) + [lists[i][j].dateId];
        ids := ids + [lists[i][j].dateId];
      }
      assert lists[i][..|lists[i]|] == lists[i];
      assert lists[..i + 1][..i] == lists[..i];
    }
    assert lists[..|lists|] == lists;
  }

  function Cited(d: AllocatorDecision): seq<string> {
    CitedIn(ReasonLists(d))
  }

  /** A reason given anywhere in a decision. */
  predicate IsReasonOf(r: Reason, d: AllocatorDecision) {
    || r in d.reasons || r in d.signalReasons || r in d.cashManagerReasons || r in d.assetReasons || r in d.consistencyReasons
    || r in d.cashPolicy.reasons
  }

  /** A decision cites exactly the ids of its reasons, once for each reason. */
  lemma {:induction false} CitedExactly(d: AllocatorDecision, id: string)
    ensures id in Cited(d) <==> exists r :: IsReasonOf(r, d) && r.dateId == id
    ensures |Cited(d)| == |d.reasons| + |d.signalReasons| + |d.cashManagerReasons| + |d.assetReasons| + |d.consistencyReasons|
                          + |d.cashPolicy.reasons|
  {
    hide CitedIn;
    var lists := ReasonLists(d);
    CitedInExact(lists, id);
    CitedInCounts(lists);
    assert lists[0..] == lists && lists[6..] == [];
    TotalLengthFrom(lists, 0);
    TotalLengthFrom(lists, 1);
    TotalLengthFrom(lists, 2);
    TotalLengthFrom(lists, 3);
    TotalLengthFrom(lists, 4);
    TotalLengthFrom(lists, 5);
    ListOfReason(d);
    forall r | IsReasonOf(r, d) ensures exists l :: l in lists && r in l {
      assert lists[0] in lists && lists[1] in lists && lists[2] in lists && lists[3] in lists && lists[4] in lists && lists[5] in lists;
    }
  }

  lemma ListOfReason(d: AllocatorDecision)
    ensures forall l, r | l in ReasonLists(d) && r in l :: IsReasonOf(r, d)
  {
  }

  function TotalLength(lists: seq<seq<Reason>>): nat {
    if lists == [] then 0 else |lists[0]| + TotalLength(lists[1..])
  }

  lemma TotalLengthFrom(lists: seq<seq<Reason>>, k: nat)
    requires k < |lists|
    ensures TotalLength(lists[k..]) == |lists[k]| + TotalLength(lists[k + 1..])
  {
    assert lists[k..][1..] == lists[k + 1..];
  }

  lemma {:induction false} CitedInCounts(lists: seq<seq<Reason>>)
    ensures |CitedIn(lists)| == TotalLength(lists)
  {
    if lists != [] {
      var init, last := lists[..|lists| - 1], lists[|lists| - 1];
      CitedInCounts(init);
      TotalLengthSnoc(init, last);
      assert lists == init + [last];
    }
  }

  lemma TotalLengthSnoc(lists: seq<seq<Reason>>, last: seq<Reason>)
    ensures TotalLength(lists + [last]) == TotalLength(lists) + |last|
  {
    if lists != [] {
      assert (lists + [last])[1..] == lists[1..] + [last];
      TotalLengthSnoc(lists[1..], last);
    }
  }

  // --------------------------------------------------------------- validator

  datatype Validation = Validation(passed: bool, issues: seq<Issue>)

  /** Business issues compare by priority, then message; codes outside the table come last. */
  function BusinessPriority(i: Issue): nat {
    if i.code.RuleCode? then Priority(i.code.rule) else |RULES|
  }

  predicate BusinessLe(a: Issue, b: Issue) {
    || BusinessPriority(a) < BusinessPriority(b)
    || (BusinessPriority(a) == BusinessPriority(b) && StrLe(a.message, b.message))
  }

  predicate RulesHold(d: AllocatorDecision) {
    forall rule | rule in RULES :: Holds(rule, d)
  }

  /** The six rules over the decision's own fields. */
  predicate KeepsRules(d: AllocatorDecision) {
    && d.weights.kr + d.weights.us + d.weights.gold == 100.0
    && (d.goldMode == NormalGold ==> 18.0 <= d.weights.gold <= 22.0)
    && (d.goldMode == ExceptionGold ==> 15.0 <= d.weights.gold <= 25.0)
    && 10.0 <= d.cashPolicy.target <= 30.0
    && d.weights == d.assetWeights
    && d.cashPolicy.target == d.recommendedCash
    && d.consistencyPassed
  }

  lemma {:induction false} RulesHoldExactly(d: AllocatorDecision)
    ensures RulesHold(d) <==> KeepsRules(d)
  {
    if RulesHold(d) {
      RulesAll(d);
      assert Holds(SumIs100, d) && Holds(GoldInBand, d) && Holds(CashInBand, d) && Holds(WeightsAgree, d) && Holds(CashAgrees, d)
             && Holds(ConsistencyPassed, d);
    }
  }

  /** `AllocatorDecisionValidator.validate` with its merge of sorted business and Date-ID issues. */
  method Validate(describe: Describe, d: AllocatorDecision, stored: seq<SourceRecord>, now: int) returns (v: Validation)
    ensures v == Verdict(describe, d, stored, now)
  {
    var business := CollectBusinessIssues(describe, d);
    var ids := ExtractDateIds(ReasonLists(d));
    var report := ValidateDateIds(stored, ids, now);
    var mapped := MapDateIdIssues(AllocatorOwner, report);
    var issues := SortBy(business, BusinessLe) + SortBy(mapped, IssueLe);
    v := Validation(issues == [], issues);
  }

  function Verdict(describe: Describe, d: AllocatorDecision, stored: seq<SourceRecord>, now: int): Validation {
    var issues :=
      SortBy(Violations(describe, d, RULES), BusinessLe)
      + SortBy(MappedIssues(AllocatorOwner, DateIdReport(stored, Cited(d), now)), IssueLe);
    Validation(issues == [], issues)
  }

  predicate Ascending(rules: seq<Rule>) {
    forall i, j | 0 <= i < j < |rules| :: Priority(rules[i]) < Priority(rules[j])
  }

  /** Collected business issues are already in reporting order. */
  lemma {:induction false} ViolationsSorted(describe: Describe, d: AllocatorDecision, rules: seq<Rule>)
    requires Ascending(rules)
    ensures SortedBy(Violations(describe, d, rules), BusinessLe)
    ensures forall i | i in Violations(describe, d, rules) :: i.code.RuleCode? && i.code.rule in rules
  {
    hide Holds, StrLe, BusinessLe, Priority;
    if rules != [] {
      var rest := rules[1..];
      ViolationsSorted(describe, d, rest);
      var first, issues := IfViolated(describe, d, rules[0]), Violations(describe, d, rest);
      forall i | i in issues ensures Priority(rules[0]) < Priority(i.code.rule) {
        var k :| 0 <= k < |rest| && rest[k] == i.code.rule;
        assert rules[k + 1] == i.code.rule;
      }
      forall a, b | a in first && b in issues ensures BusinessLe(a, b) {
        HigherComesFirst(a, b);
      }
      assert Violations(describe, d, rules) == first + issues;
    }
  }

  lemma HigherComesFirst(a: Issue, b: Issue)
    requires a.code.RuleCode? && b.code.RuleCode? && Priority(a.code.rule) < Priority(b.code.rule)
    ensures BusinessLe(a, b)
  {
    hide Priority, StrLe;
  }

  lemma {:induction false} RulesAscend()
    ensures Ascending(RULES)
  {
  }

  /** `rules[k]` is violated and every rule before it holds. */
  predicate IsFirstViolated(d: AllocatorDecision, rules: seq<Rule>, k: int) {
    0 <= k < |rules| && !Holds(rules[k], d) && forall j | 0 <= j < k :: Holds(rules[j], d)
  }

  /** The first collected issue is the violated rule of highest priority. */
  lemma {:induction false} FirstViolation(describe: Describe, d: AllocatorDecision, rules: seq<Rule>) returns (k: nat)
    requires Violations(describe, d, rules) != []
    ensures IsFirstViolated(d, rules, k)
    ensures Violations(describe, d, rules)[0] == RuleIssue(describe, d, rules[k])
  {
    hide Holds, RuleIssue;
    if Holds(rules[0], d) {
      assert Violations(describe, d, rules) == Violations(describe, d, rules[1..]);
      k := FirstViolation(describe, d, rules[1..]);
      k := k + 1;
    } else {
      k := 0;
    }
  }

  /**
   The verdict: passed exactly when the decision keeps its rules and every reason in it cites a
   usable id. The issues are the violated rules in priority order followed by the Date-ID report
   under the allocator's codes, so a Date-ID issue comes first only when no rule is violated.
   */
  lemma {:induction false} VerdictExactly(describe: Describe, d: AllocatorDecision, stored: seq<SourceRecord>, now: int)
    ensures var v := Verdict(describe, d, stored, now);
      && (v.passed <==> KeepsRules(d) && forall r | IsReasonOf(r, d) :: Usable(stored, r.dateId, now))
      && v.issues == Violations(describe, d, RULES) + MappedIssues(AllocatorOwner, DateIdReport(stored, Cited(d), now))
      && (!KeepsRules(d) ==> exists k | 0 <= k < |RULES| ::
            IsFirstViolated(d, RULES, k) && v.issues != [] && v.issues[0] == RuleIssue(describe, d, RULES[k]))
      && (!v.passed && v.issues[0].code.OwnedDateIdCode? ==> KeepsRules(d))
  {
    hide Verdict, Usable, IsReasonOf, Cited, RulesHold, KeepsRules, IsFirstViolated, Violations, MappedIssues, DateIdReport, RULES, RuleIssue;
    VerdictOfCited(describe, d, stored, now);
    RulesHoldExactly(d);
    forall id ensures id in Cited(d) <==> exists r :: IsReasonOf(r, d) && r.dateId == id {
      CitedExactly(d, id);
    }
  }

  lemma {:induction false} VerdictOfCited(describe: Describe, d: AllocatorDecision, stored: seq<SourceRecord>, now: int)
    ensures var v := Verdict(describe, d, stored, now);
      && (v.passed <==> RulesHold(d) && forall id | id in Cited(d) :: Usable(stored, id, now))
      && v.issues == Violations(describe, d, RULES) + MappedIssues(AllocatorOwner, DateIdReport(stored, Cited(d), now))
      && (!RulesHold(d) ==> exists k | 0 <= k < |RULES| ::
            IsFirstViolated(d, RULES, k) && v.issues != [] && v.issues[0] == RuleIssue(describe, d, RULES[k]))
      && (!v.passed && v.issues[0].code.OwnedDateIdCode? ==> RulesHold(d))
  {
    hide Holds, DateIdReport, Usable, IssueLe, BusinessLe, Cited;
    RulesAscend();
    var business := Violations(describe, d, RULES);
    ViolationsSorted(describe, d, RULES);
    SortBySortedIsIdentity(business, BusinessLe);
    MappedReport(AllocatorOwner, stored, Cited(d), now);
    if business != [] {
      var k := FirstViolation(describe, d, RULES);
      assert IsFirstViolated(d, RULES, k);
      assert business[0] in business;
    }
  }

  // ---------------------------------------------------------- band arithmetic

  /** A managed-asset percentage as a share of the whole account. */
  function AccountShare(percent: real, cash: real): real {
    percent * (100.0 - cash) / 100.0
  }

  lemma MulMonotone(x: real, y: real, z: real)
    requires x <= y && 0.0 <= z
    ensures x * z <= y * z && z * x <= z * y
  {
  }

  lemma MulBounds(x: real, y: real, lo: real, hi: real, ylo: real, yhi: real)
    requires 0.0 <= lo <= x <= hi && 0.0 <= ylo <= y <= yhi
    ensures lo * ylo <= x * y <= hi * yhi
  {
    MulMonotone(lo, x, ylo);
    MulMonotone(ylo, y, x);
    MulMonotone(x, hi, y);
    MulMonotone(y, yhi, hi);
  }

  /** In a passing decision the whole account adds up, and its gold share stays in a fixed band. */
  lemma PassingDecisionBands(describe: Describe, d: AllocatorDecision, stored: seq<SourceRecord>, now: int)
    requires Verdict(describe, d, stored, now).passed
    ensures var c := d.cashPolicy.target; var w := d.weights;
      && c + AccountShare(w.kr, c) + AccountShare(w.us, c) + AccountShare(w.gold, c) == 100.0
      && (d.goldMode == NormalGold ==> 12.6 <= AccountShare(w.gold, c) <= 19.8)
      && (d.goldMode == ExceptionGold ==> 10.5 <= AccountShare(w.gold, c) <= 22.5)
      && w == d.assetWeights && c == d.recommendedCash
  {
    hide Verdict, Usable, AccountShare, Violations, IsFirstViolated, MappedIssues, DateIdReport, RULES;
    VerdictOfCited(describe, d, stored, now);
    var c, w := d.cashPolicy.target, d.weights;
    assert Holds(SumIs100, d) && Holds(GoldInBand, d) && Holds(CashInBand, d) && Holds(WeightsAgree, d) && Holds(CashAgrees, d) by {
      RulesAll(d);
    }
    WholeAccount(c, w);
    GoldShare(w.gold, c, GoldMin(d.goldMode), GoldMax(d.goldMode));
  }

  lemma GoldShare(gold: real, cash: real, lo: real, hi: real)
    requires 0.0 <= lo <= gold <= hi && 10.0 <= cash <= 30.0
    ensures lo * 70.0 / 100.0 <= AccountShare(gold, cash) <= hi * 90.0 / 100.0
  {
    MulBounds(gold, 100.0 - cash, lo, hi, 70.0, 90.0);
  }

  lemma RulesAll(d: AllocatorDecision)
    requires RulesHold(d)
    ensures forall rule :: Holds(rule, d)
  {
    hide Holds;
    forall rule ensures Holds(rule, d) {
      assert RULES[Priority(rule)] == rule;
    }
  }

  lemma WholeAccount(c: real, w: Weights)
    requires WeightsSum(w) == 100.0
    ensures c + AccountShare(w.kr, c) + AccountShare(w.us, c) + AccountShare(w.gold, c) == 100.0
  {
    var m := 100.0 - c;
    assert w.kr * m + w.us * m + w.gold * m == WeightsSum(w) * m;
  }

  /** A decision with the given gold weight and cash in which everything agrees. */
  function Sample(reason: Reason, mode: GoldMode, gold: real, cash: real): AllocatorDecision {
    var (rs, w) := ([reason], Weights(40.0, 60.0 - gold, gold));
    AllocatorDecision("", mode, rs, cash, rs, w, rs, true, rs, CashPolicy(cash, None, None, rs), w, rs)
  }

  lemma SampleHolds(reason: Reason, mode: GoldMode, gold: real, cash: real)
    requires GoldMin(mode) <= gold <= GoldMax(mode) && 10.0 <= cash <= 30.0
    ensures var d := Sample(reason, mode, gold, cash);
      IsDecision(d) && RulesHold(d) && d.goldMode == mode && AccountShare(d.weights.gold, d.cashPolicy.target) == gold * (100.0 - cash) / 100.0
  {
  }

  /** A well-formed decision that satisfies every rule in this mode and has this whole-account gold share. */
  predicate Reaches(d: AllocatorDecision, mode: GoldMode, share: real) {
    IsDecision(d) && RulesHold(d) && d.goldMode == mode && AccountShare(d.weights.gold, d.cashPolicy.target) == share
  }

  /** All four ends of the two whole-account gold bands are reached. */
  lemma {:induction false} BandsAreTight(reason: Reason)
    ensures exists d :: Reaches(d, NormalGold, 12.6)
    ensures exists d :: Reaches(d, NormalGold, 19.8)
    ensures exists d :: Reaches(d, ExceptionGold, 10.5)
    ensures exists d :: Reaches(d, ExceptionGold, 22.5)
  {
    hide IsDecision, RulesHold, AccountShare;
    SampleHolds(reason, NormalGold, 18.0, 30.0);
    SampleHolds(reason, NormalGold, 22.0, 10.0);
    SampleHolds(reason, ExceptionGold, 15.0, 30.0);
    SampleHolds(reason, ExceptionGold, 25.0, 10.0);
    assert Reaches(Sample(reason, NormalGold, 18.0, 30.0), NormalGold, 12.6);
    assert Reaches(Sample(reason, NormalGold, 22.0, 10.0), NormalGold, 19.8);
    assert Reaches(Sample(reason, ExceptionGold, 15.0, 30.0), ExceptionGold, 10.5);
    assert Reaches(Sample(reason, ExceptionGold, 25.0, 10.0), ExceptionGold, 22.5);
  }
}
