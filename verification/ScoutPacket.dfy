/** Selection of stored evidence for the Scout: which records a packet holds, and in which order. */
module ScoutPacket {
  import opened Wrappers
  import opened Sorting
  import opened SourceRecords
  import opened DateMdParser
  import opened Intake

  datatype Scope = KR | US | Both

  /** A universe with its enabled (market, symbol) entries. */
  datatype Universe = Universe(name: string, baseMarket: Scope, enabled: seq<(string, string)>)

  datatype ScoutInput = ScoutInput(universe: string, records: seq<SourceRecord>)

  /** One Date.md text and one store, shared by every stage. */
  datatype Evidence = Evidence(dateMd: string, stored: seq<SourceRecord>)

  datatype PacketOptions = PacketOptions(
    scope: Option<Scope>, factTypes: Option<set<FactType>>, maxRecords: Option<int>, requireCoverage: bool)

  datatype ScoutPacketError = BadMaxRecords | SmokeFailed(cause: SmokeError) | EmptyFilter | NoRecords

  const MAX_DATE_MD_BYTES: int := 60_000

  function EnabledPairs(u: Universe): set<(string, string)> {
    set p | p in u.enabled
  }

  function PairsInScope(u: Universe, scope: Scope): set<(string, string)> {
    match scope
    case KR => set p | p in u.enabled && p.0 == "KR"
    case US => set p | p in u.enabled && p.0 == "US"
    case Both => set p | p in u.enabled
  }

  function Keep<T(!new)>(xs: seq<T>, p: T -> bool): (r: seq<T>)
    ensures forall x :: x in r <==> x in xs && p(x)
    ensures |r| <= |xs|
  {
    if xs == [] then []
    else
      assert xs == xs[..|xs| - 1] + [xs[|xs| - 1]];
      Keep(xs[..|xs| - 1], p) + (if p(xs[|xs| - 1]) then [xs[|xs| - 1]] else [])
  }

  /**
   Evidence the Scout may see: named in Date.md, and either about no instrument at all,
   or about an enabled instrument, or a disclosure that names an enabled symbol without a market.
   */
  predicate Relevant(dateIds: set<string>, pairs: set<(string, string)>, r: SourceRecord) {
    && r.dateId in dateIds
    && (|| (r.symbol.None? && r.market.None?)
        || (r.symbol.Some? && r.market.Some? && (r.market.value, r.symbol.value) in pairs)
        || (r.factType == Disclosure && r.symbol.Some? && r.market.None? && exists p | p in pairs :: p.1 == r.symbol.value))
  }

  function Selected(stored: seq<SourceRecord>, dateIds: set<string>, pairs: set<(string, string)>): seq<SourceRecord> {
    Keep(stored, r => Relevant(dateIds, pairs, r))
  }

  /** `_select_store_records` */
  method SelectStoreRecords(stored: seq<SourceRecord>, dateIds: set<string>, pairs: set<(string, string)>)
    returns (selected: seq<SourceRecord>)
    ensures selected == Selected(stored, dateIds, pairs)
  {
    var symbols := set p | p in pairs :: p.1;
    var relevant := r => Relevant(dateIds, pairs, r);
    assert Selected(stored, dateIds, pairs) == Keep(stored, relevant);
    selected := [];
    for i := 0 to |stored|
      invariant selected == Keep(stored[..i], relevant)
    {
      assert stored[..i + 1][..i] == stored[..i];
      var r := stored[i];
      if r.dateId !in dateIds {
        continue;
      }
      if r.symbol.None? && r.market.None? {
        selected := selected + [r];
        continue;
      }
      if r.symbol.None? || r.market.None? {
        if r.factType == Disclosure && r.symbol.Some? && r.market.None? && r.symbol.value in symbols {
          selected := selected + [r];
          continue;
        }
        continue;
      }
      if (r.market.value, r.symbol.value) !in pairs {
        continue;
      }
      selected := selected + [r];
    }
    assert stored[..|stored|] == stored;
  }

  // ----------------------------------------------------------- input builder

  /** Newest source first, ties by ascending id. */
  predicate NewestFirst(a: SourceRecord, b: SourceRecord) {
    a.instant > b.instant || (a.instant == b.instant && StrLe(a.dateId, b.dateId))
  }

  lemma NewestFirstIsPreorder()
    ensures TotalPreorder(NewestFirst)
  {
    hide StrLe;
    forall a, b ensures NewestFirst(a, b) || NewestFirst(b, a) {
      StrLeTotal(a.dateId, b.dateId);
    }
    forall a, b, c | NewestFirst(a, b) && NewestFirst(b, c) ensures NewestFirst(a, c) {
      if a.instant == b.instant && b.instant == c.instant {
        StrLeTransitive(a.dateId, b.dateId, c.dateId);
      }
    }
  }

  predicate OfKind(factTypes: Option<set<FactType>>, r: SourceRecord) {
    factTypes.Some? ==> r.factType in factTypes.value
  }

  function Eligible(records: seq<SourceRecord>, factTypes: Option<set<FactType>>): seq<SourceRecord> {
    Keep(records, r => OfKind(factTypes, r))
  }

  function Ranked(records: seq<SourceRecord>, factTypes: Option<set<FactType>>): seq<SourceRecord> {
    SortBy(Eligible(records, factTypes), NewestFirst)
  }

  function Truncated(records: seq<SourceRecord>, maxRecords: Option<int>): (r: seq<SourceRecord>)
    ensures r <= records
  {
    if maxRecords.Some? && 0 <= maxRecords.value < |records| then records[..maxRecords.value] else records
  }

  /** `ScoutInputBuilder.build_input` on the records its reader lists. */
  function BuildInput(universe: string, records: seq<SourceRecord>, factTypes: Option<set<FactType>>, maxRecords: Option<int>)
    : Result<ScoutInput, ScoutPacketError>
  {
    if maxRecords.Some? && maxRecords.value < 1 then Err(BadMaxRecords)
    else if factTypes == Some({}) then Err(EmptyFilter)
    else Ok(ScoutInput(universe, Truncated(Ranked(records, factTypes), maxRecords)))
  }

  /** Cutting a sorted list keeps the elements that come first. */
  lemma {:induction false} SortedCut<T(!new)>(xs: seq<T>, le: (T, T) -> bool, k: nat)
    requires TotalPreorder(le) && k <= |xs|
    ensures var s := SortBy(xs, le);
      && SortedBy(s[..k], le)
      && multiset(s[..k]) + multiset(s[k..]) == multiset(xs)
      && forall a, b | a in s[..k] && b in s[k..] :: le(a, b)
  {
    hide TotalPreorder;
    var s := SortBy(xs, le);
    SortBySorts(xs, le);
    assert s == s[..k] + s[k..];
    forall a, b | a in s[..k] && b in s[k..] ensures le(a, b) {
      var i :| 0 <= i < k && s[..k][i] == a;
      var j :| 0 <= j < |s| - k && s[k..][j] == b;
      assert s[i] == a && s[k + j] == b;
    }
  }

  /**
   The builder keeps the newest records: the result is ranked, holds as many eligible records
   as the limit admits, and nothing left out ranks before anything kept.
   */
  lemma {:induction false} BuildInputKeepsNewest(
    universe: string, records: seq<SourceRecord>, factTypes: Option<set<FactType>>, maxRecords: Option<int>)
    returns (dropped: seq<SourceRecord>)
    requires BuildInput(universe, records, factTypes, maxRecords).Ok?
    ensures var kept := BuildInput(universe, records, factTypes, maxRecords).value.records;
      var eligible := Eligible(records, factTypes);
      && SortedBy(kept, NewestFirst)
      && (maxRecords.None? ==> dropped == [])
      && (maxRecords.Some? ==> |kept| == if maxRecords.value < |eligible| then maxRecords.value else |eligible|)
      && multiset(kept) + multiset(dropped) == multiset(eligible)
      && forall a, b | a in kept && b in dropped :: NewestFirst(a, b)
  {
    hide NewestFirst, SortBy, SortedBy, TotalPreorder, Eligible;
    NewestFirstIsPreorder();
    var kept := BuildInput(universe, records, factTypes, maxRecords).value.records;
    var eligible := Eligible(records, factTypes);
    var ranked := Ranked(records, factTypes);
    assert kept == ranked[..|kept|];
    dropped := ranked[|kept|..];
    SortedCut(eligible, NewestFirst, |kept|);
  }

  // ---------------------------------------------------------- packet builder

  /** What the smoke check, with the packet builder's settings, finds wrong. */
  function SmokeOf(e: Evidence, u: Universe, o: PacketOptions): Option<SmokeError> {
    SmokeFault(e.dateMd, Some(e.stored), EnabledPairs(u), o.requireCoverage, MAX_DATE_MD_BYTES)
  }

  lemma SmokeReads(e: Evidence, u: Universe, o: PacketOptions)
    requires SmokeOf(e, u, o).None?
    ensures ParseMeaning(e.dateMd).Ok? && StoreStage(e.dateMd, e.stored).Ok?
  {
    hide ParseMeaning, StoreStage, Utf8Length, ReferencedPairs;
  }

  /** The evidence part of `run_build_scout_manual_packet`. */
  function ScoutPacketOf(e: Evidence, u: Universe, o: PacketOptions): Result<ScoutInput, ScoutPacketError> {
    if o.maxRecords.Some? && o.maxRecords.value < 1 then Err(BadMaxRecords)
    else if SmokeOf(e, u, o).Some? then Err(SmokeFailed(SmokeOf(e, u, o).value))
    else
      SmokeReads(e, u, o);
      var dateIds := SectionIds(ParseMeaning(e.dateMd).value);
      var pairs := PairsInScope(u, if o.scope.Some? then o.scope.value else u.baseMarket);
      match BuildInput(u.name, Selected(Listed(e.stored), dateIds, pairs), o.factTypes, o.maxRecords)
      case Err(x) => Err(x)
      case Ok(input) => if input.records == [] then Err(NoRecords) else Ok(input)
  }

  method BuildScoutPacket(e: Evidence, u: Universe, o: PacketOptions) returns (r: Result<ScoutInput, ScoutPacketError>)
    ensures r == ScoutPacketOf(e, u, o)
  {
    hide SmokeAccepts, SmokeFault, ParseMeaning, Selected, StoreStage;
    if o.maxRecords.Some? && o.maxRecords.value < 1 {
      return Err(BadMaxRecords);
    }
    var scope := if o.scope.Some? then o.scope.value else u.baseMarket;
    var pairs := PairsInScope(u, scope);
    var smoke := RunDateMdSmoke(e.dateMd, Some(e.stored), EnabledPairs(u), o.requireCoverage, MAX_DATE_MD_BYTES);
    SmokeExactly(e.dateMd, Some(e.stored), EnabledPairs(u), o.requireCoverage, MAX_DATE_MD_BYTES);
    if smoke.Err? {
      return Err(SmokeFailed(smoke.error));
    }
    SmokeReads(e, u, o);
    var sections := ParseDateMdSections(e.dateMd);
    var selected := SelectStoreRecords(Listed(e.stored), SectionIds(sections.value), pairs);
    var built := BuildInput(u.name, selected, o.factTypes, o.maxRecords);
    if built.Err? {
      return built;
    }
    if built.value.records == [] {
      return Err(NoRecords);
    }
    return built;
  }

  /** Everything in a packet is stored evidence that Date.md names and the universe's scope admits. */
  lemma {:induction false} ScoutPacketIsEvidence(e: Evidence, u: Universe, o: PacketOptions)
    requires ScoutPacketOf(e, u, o).Ok?
    ensures var input := ScoutPacketOf(e, u, o).value;
      var pairs := PairsInScope(u, if o.scope.Some? then o.scope.value else u.baseMarket);
      && StoreStage(e.dateMd, e.stored).Ok?
      && input.universe == u.name && input.records != []
      && (forall r | r in input.records ::
            r in e.stored && Relevant(SectionIds(StoreStage(e.dateMd, e.stored).value), pairs, r) && OfKind(o.factTypes, r))
      && SortedBy(input.records, NewestFirst)
  {
    hide ParseMeaning, Relevant, OfKind, SortedBy, SmokeOf;
    SmokeReads(e, u, o);
    var dateIds := SectionIds(ParseMeaning(e.dateMd).value);
    var pairs := PairsInScope(u, if o.scope.Some? then o.scope.value else u.baseMarket);
    var listed := Listed(e.stored);
    var selected := Selected(listed, dateIds, pairs);
    var ranked := Ranked(selected, o.factTypes);
    SameElements(listed, e.stored);
    SameElements(ranked, Eligible(selected, o.factTypes));
    var _ := BuildInputKeepsNewest(u.name, selected, o.factTypes, o.maxRecords);
    forall r | r in Truncated(ranked, o.maxRecords) ensures r in e.stored && Relevant(dateIds, pairs, r) && OfKind(o.factTypes, r) {
      assert r in ranked;
    }
  }

  // -------------------------------------------------- the packet's own records

  predicate InScope(scope: Scope, market: string) {
    scope == Both || (scope == KR && market == "KR") || (scope == US && market == "US")
  }

  /** About no instrument, about an enabled one in scope, or a disclosure that names the symbol of one. */
  predicate Admits(u: Universe, scope: Scope, r: SourceRecord) {
    || (r.symbol == None && r.market == None)
    || (exists p | p in u.enabled :: InScope(scope, p.0) && r.market == Some(p.0) && r.symbol == Some(p.1))
    || (r.factType == Disclosure && r.market == None && exists p | p in u.enabled :: InScope(scope, p.0) && r.symbol == Some(p.1))
  }

  /** A stored record that Date.md names, the universe admits, and the kind filter lets through. */
  predicate IsEvidenceFor(e: Evidence, u: Universe, o: PacketOptions, r: SourceRecord)
    requires ParseMeaning(e.dateMd).Ok?
  {
    && r in e.stored
    && (exists s | s in ParseMeaning(e.dateMd).value :: s.dateId == r.dateId)
    && Admits(u, if o.scope.Some? then o.scope.value else u.baseMarket, r)
    && (o.factTypes.Some? ==> r.factType in o.factTypes.value)
  }

  lemma PairsExactly(u: Universe, scope: Scope, pair: (string, string))
    ensures pair in PairsInScope(u, scope) <==> pair in u.enabled && InScope(scope, pair.0)
  {
  }

  lemma {:induction false} RelevantExactly(dateIds: set<string>, u: Universe, scope: Scope, r: SourceRecord)
    ensures Relevant(dateIds, PairsInScope(u, scope), r) <==> r.dateId in dateIds && Admits(u, scope, r)
  {
    hide PairsInScope, InScope;
    forall p ensures p in PairsInScope(u, scope) <==> p in u.enabled && InScope(scope, p.0) { PairsExactly(u, scope, p); }
  }

  /** Newer than another record, or as new with an id that sorts no later. */
  predicate ComesBefore(a: SourceRecord, b: SourceRecord) {
    a.instant > b.instant || (a.instant == b.instant && StrLe(a.dateId, b.dateId))
  }

  /**
   A packet holds evidence only, newest first, and all of it unless it is full; what a full
   packet leaves out comes before nothing it holds.
   */
  lemma {:induction false} ScoutPacketExactly(e: Evidence, u: Universe, o: PacketOptions)
    requires ScoutPacketOf(e, u, o).Ok?
    ensures ParseMeaning(e.dateMd).Ok?
    ensures var rs := ScoutPacketOf(e, u, o).value.records;
      && (forall r | r in rs :: IsEvidenceFor(e, u, o, r))
      && (forall r | IsEvidenceFor(e, u, o, r) && r !in rs ::
            o.maxRecords == Some(|rs|) && forall k | k in rs :: ComesBefore(k, r))
      && (forall i, j | 0 <= i < j < |rs| :: ComesBefore(rs[i], rs[j]))
      && (o.maxRecords.Some? ==> |rs| <= o.maxRecords.value)
  {
    hide ParseMeaning, Relevant, Admits, SortedBy, SmokeOf, SortBy, StrLe, PairsInScope, NewestFirst, ComesBefore;
    SmokeReads(e, u, o);
    var dateIds := SectionIds(ParseMeaning(e.dateMd).value);
    var scope := if o.scope.Some? then o.scope.value else u.baseMarket;
    var listed := Listed(e.stored);
    var selected := Selected(listed, dateIds, PairsInScope(u, scope));
    var eligible := Eligible(selected, o.factTypes);
    var rs := ScoutPacketOf(e, u, o).value.records;
    SameElements(listed, e.stored);
    forall r ensures r in eligible <==> IsEvidenceFor(e, u, o, r) {
      RelevantExactly(dateIds, u, scope, r);
    }
    var dropped := BuildInputKeepsNewest(u.name, selected, o.factTypes, o.maxRecords);
    PacketParts(eligible, rs, dropped);
    PacketSize(eligible, rs, dropped);
    SameOrder();
  }

  lemma SameOrder()
    ensures forall a, b :: NewestFirst(a, b) <==> ComesBefore(a, b)
    ensures forall rs | SortedBy(rs, NewestFirst) :: forall i, j | 0 <= i < j < |rs| :: ComesBefore(rs[i], rs[j])
  {
    hide StrLe;
  }

  lemma PacketParts(all: seq<SourceRecord>, kept: seq<SourceRecord>, dropped: seq<SourceRecord>)
    requires multiset(kept) + multiset(dropped) == multiset(all)
    ensures forall r :: r in all <==> r in kept || r in dropped
  {
    forall r ensures r in all <==> r in kept || r in dropped {
      assert r in multiset(all) <==> r in multiset(kept) + multiset(dropped);
    }
  }

  lemma PacketSize(all: seq<SourceRecord>, kept: seq<SourceRecord>, dropped: seq<SourceRecord>)
    requires multiset(kept) + multiset(dropped) == multiset(all)
    ensures |all| == |kept| + |dropped|
  {
    assert |multiset(all)| == |multiset(kept)| + |multiset(dropped)|;
  }

  /** A packet is built exactly when the limit is positive, the smoke check passes for all enabled pairs, the filter is not empty and there is evidence. */
  lemma {:induction false} PacketBuiltExactly(e: Evidence, u: Universe, o: PacketOptions)
    ensures ScoutPacketOf(e, u, o).Ok? <==>
      && (o.maxRecords.Some? ==> o.maxRecords.value >= 1)
      && SmokeAccepts(e.dateMd, Some(e.stored), (set p | p in u.enabled), o.requireCoverage, 60_000)
      && o.factTypes != Some({})
      && ParseMeaning(e.dateMd).Ok? && exists r :: IsEvidenceFor(e, u, o, r)
  {
    hide ParseMeaning, Relevant, Admits, SortBy, PairsInScope, NewestFirst, SmokeFault, SmokeAccepts;
    SmokeExactly(e.dateMd, Some(e.stored), EnabledPairs(u), o.requireCoverage, MAX_DATE_MD_BYTES);
    if SmokeOf(e, u, o).None? {
      SmokeReads(e, u, o);
      var dateIds := SectionIds(ParseMeaning(e.dateMd).value);
      var scope := if o.scope.Some? then o.scope.value else u.baseMarket;
      var listed := Listed(e.stored);
      var selected := Selected(listed, dateIds, PairsInScope(u, scope));
      var eligible := Eligible(selected, o.factTypes);
      SameElements(listed, e.stored);
      forall r ensures r in eligible <==> IsEvidenceFor(e, u, o, r) {
        RelevantExactly(dateIds, u, scope, r);
      }
      RankedSize(selected, o.factTypes);
      if eligible != [] { assert eligible[0] in eligible; }
    }
  }

  lemma RankedSize(records: seq<SourceRecord>, factTypes: Option<set<FactType>>)
    ensures |Ranked(records, factTypes)| == |Eligible(records, factTypes)|
  {
    hide NewestFirst, SortBy;
    var (a, b) := (Ranked(records, factTypes), Eligible(records, factTypes));
    assert |a| == |multiset(a)| && |b| == |multiset(b)|;
  }
}
