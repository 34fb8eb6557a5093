/**
 Exactly when reading a printed Date.md gives the printed records back.

 Record fields are stripped but may span several lines, and a continuation line is read
 like any other line: it can open a section or set a symbol or market.
 */
module DateMdRoundTrip {
  import opened Wrappers
  import opened PyText
  import opened DateIds
  import opened SourceRecords
  import opened DateMdParser
  import opened DateMdRender

  // -------------------------------------------------- what a caller can check

  function FirstLine(v: string): string
    requires v != ""
  {
    SplitLines(v)[0]
  }

  /** The lines of a field value after its first: printed without any prefix. */
  function Continuation(v: string): seq<string>
    requires v != ""
  {
    SplitLines(v)[1..]
  }

  function OptionalContinuation(v: Option<string>): seq<string>
    requires IsOptionalText(v)
  {
    if v.Some? then Continuation(v.value) else []
  }

  function LeadingContinuations(r: SourceRecord): seq<string>
    requires ValidRecord(r)
  {
    Continuation(r.sourceName) + Continuation(r.summary)
  }

  function Continuations(r: SourceRecord): seq<string>
    requires ValidRecord(r)
  {
    LeadingContinuations(r)
    + OptionalContinuation(r.symbol) + OptionalContinuation(r.market) + OptionalContinuation(r.sourceUrl)
  }

  /** No continuation line would be taken for a section heading. */
  predicate NoFalseHeading(r: SourceRecord)
    requires ValidRecord(r)
  {
    forall l | l in Continuations(r) :: !IsHeading(l)
  }

  /** `after` are the continuation lines printed behind the value, `before` those printed ahead of it. */
  predicate ValueKept(value: Option<string>, prefix: string, before: seq<string>, after: seq<string>) {
    match value
    case None => forall l | l in before + after :: ExtractFieldValue(l, prefix).None?
    case Some(v) => SingleLine(v) && LastValue(after, prefix) in {None, Some(v)}
  }

  predicate SymbolKept(r: SourceRecord)
    requires ValidRecord(r)
  {
    ValueKept(r.symbol, SYMBOL_LINE_PREFIX, LeadingContinuations(r),
              OptionalContinuation(r.market) + OptionalContinuation(r.sourceUrl))
  }

  predicate MarketKept(r: SourceRecord)
    requires ValidRecord(r)
  {
    ValueKept(r.market, MARKET_LINE_PREFIX, LeadingContinuations(r) + OptionalContinuation(r.symbol),
              OptionalContinuation(r.sourceUrl))
  }

  function SectionOf(r: SourceRecord): Section {
    Section(r.dateId, r.symbol, r.market, true, true, true)
  }

  function SectionsOf(rs: seq<SourceRecord>): (ss: seq<Section>)
    ensures |ss| == |rs| && forall i | 0 <= i < |rs| :: ss[i] == SectionOf(rs[i])
  {
    seq(|rs|, i requires 0 <= i < |rs| => SectionOf(rs[i]))
  }

  // ------------------------------------------------------------ field lines

  predicate IsName(n: string) {
    forall i | 0 <= i < |n| :: 'a' <= n[i] <= 'z' || n[i] == '_'
  }

  predicate IsField(f: Field) {
    IsName(f.name) && IsText(f.value)
  }

  lemma FirstLineStartsText(v: string)
    requires IsText(v)
    ensures FirstLine(v) != "" && FirstLine(v)[0] == v[0]
  {
    assert !IsLineBreak(v[0]);
    var n := LineEnd(v);
    if n < |v| { SplitAtFirstBreak(v, n); }
  }

  lemma {:induction false} FieldLineShape(f: Field)
    requires IsField(f)
    ensures LinesOf(FieldElement(f)) == [FieldPrefix(f.name) + " " + FirstLine(f.value)] + Continuation(f.value)
    ensures EndsInsideLine(FieldElement(f)) && FieldElement(f) != "" && !IsSpace(FieldElement(f)[|FieldElement(f)| - 1])
  {
    hide SplitLines, LinesOf;
    var p := FieldPrefix(f.name) + " ";
    assert SingleLine(p) by {
      forall i | 0 <= i < |p| ensures !IsLineBreak(p[i]) {
        assert 4 <= i < 4 + |f.name| ==> p[i] == f.name[i - 4];
      }
    }
    PrefixedLines(p, f.value);
    var e := FieldElement(f);
    assert e[|e| - 1] == f.value[|f.value| - 1];
  }

  lemma {:induction false} PrefixesDiffer(a: string, b: string, t: string)
    requires IsName(a) && IsName(b)
    ensures StartsWith(FieldPrefix(b) + t, FieldPrefix(a)) ==> a == b
  {
    var s, p := FieldPrefix(b) + t, FieldPrefix(a);
    if p <= s {
      assert forall i | 0 <= i < |p| :: s[i] == p[i];
      forall i | 0 <= i < |a| ensures p[i + 4] == a[i] {}
      forall i | 0 <= i < |b| ensures s[i + 4] == b[i] {}
      assert p[|a| + 4] == ':' && s[|b| + 4] == ':';
      assert |a| == |b|;
      assert forall i | 0 <= i < |a| :: a[i] == s[i + 4];
    }
  }

  /** The line a field starts on carries that field's value and no other. */
  lemma {:induction false} FieldLineValue(f: Field, name: string)
    requires IsField(f) && IsName(name)
    ensures ExtractFieldValue(FieldPrefix(f.name) + " " + FirstLine(f.value), FieldPrefix(name)) ==
            if f.name == name then Some(Strip(FirstLine(f.value))) else None
  {
    hide SplitLines, RStrip, IsSpace;
    FirstLineStartsText(f.value);
    var first, p := FirstLine(f.value), FieldPrefix(f.name);
    var line := p + " " + first;
    var s := RStrip(line);
    LineStripped(f.name, first);
    if f.name == name {
      ExtractedFirst(p, first);
    } else if StartsWith(s, FieldPrefix(name)) {
      assert line == p + (" " + first);
      assert StartsWith(line, FieldPrefix(name));
      PrefixesDiffer(name, f.name, " " + first);
      assert false;
    }
  }

  lemma {:induction false} LineStripped(name: string, first: string)
    requires first != "" && !IsSpace(first[0])
    ensures var line := FieldPrefix(name) + " " + first; Strip(line) == RStrip(line) && |FieldPrefix(name)| + 1 < |RStrip(line)|
  {
    hide IsSpace;
    var line := FieldPrefix(name) + " " + first;
    assert line[0] == '-' && !IsSpace('-') by { DashIsNotSpace(); }
    StripFromNonSpace(line);
    assert line[|FieldPrefix(name)| + 1] == first[0];
    RStripKeepsThrough(line, |FieldPrefix(name)| + 1);
  }

  lemma DashIsNotSpace()
    ensures !IsSpace('-') && !IsSpace('#') && !IsSpace(']')
  {
  }

  lemma {:induction false} ExtractedFirst(p: string, first: string)
    requires first != "" && !IsSpace(first[0])
    requires var line := p + " " + first; Strip(line) == RStrip(line) && |p| + 1 < |RStrip(line)|
    ensures ExtractFieldValue(p + " " + first, p) == Some(Strip(first))
  {
    hide IsSpace, RStrip, LStrip;
    var line := p + " " + first;
    RStripFirst(first);
    RStripAppend(p + " ", first);
    var s := RStrip(line);
    assert s == p + " " + RStrip(first);
    assert s[..|p|] == p && s[|p|..] == " " + RStrip(first);
    LeadingSpaceStripped(RStrip(first));
  }

  lemma RStripAppend(a: string, b: string)
    requires b != "" && RStrip(b) != ""
    ensures RStrip(a + b) == a + RStrip(b)
  {
    if IsSpace(b[|b| - 1]) {
      assert (a + b)[..|a + b| - 1] == a + b[..|b| - 1];
      RStripAppend(a, b[..|b| - 1]);
    }
  }
  lemma LeadingSpaceStripped(t: string)
    requires t != "" && Trimmed(t)
    ensures Strip(" " + t) == t
  {
    assert (" " + t)[1..] == t;
    assert LStrip(t) == t && LStrip(" " + t) == t;
  }

  lemma RStripFirst(first: string)
    requires first != "" && !IsSpace(first[0])
    ensures RStrip(first) != "" && RStrip(first)[0] == first[0] && Strip(first) == RStrip(first)
  {
    RStripKeepsThrough(first, 0);
  }

  /** A line starting with anything but `##` is no heading. */
  lemma {:induction false} NotHeading(line: string)
    requires line == "" || (!IsSpace(line[0]) && (line[0] != '#' || (|line| > 1 && line[1] != '#')))
    ensures !IsHeading(line)
  {
    hide IsSpace, Strip, RStrip, LStrip;
    if line == "" {
      StripNothing();
    } else {
      StripFromNonSpace(line);
    }
  }

  lemma StripNothing()
    ensures Strip("") == ""
  {
  }

  lemma {:induction false} BracketsFound(id: string)
    requires ']' !in id && id != ""
    ensures HeadingToken(HeadingElement(id)) == Some(id)
  {
    hide IsSpace;
    var h := HeadingElement(id);
    DashIsNotSpace();
    assert h[0] == '#' && h[|h| - 1] == ']';
    assert Strip(h) == h;
    assert h[..4] == "## [";
    assert h[4..|h| - 1] == id;
  }

  lemma {:induction false} HeadingOnOneLine(id: string)
    requires SingleLine(id)
    ensures LinesOf(HeadingElement(id)) == [HeadingElement(id)] && EndsInsideLine(HeadingElement(id))
  {
    var h := HeadingElement(id);
    assert SingleLine(h) by {
      forall i | 0 <= i < |h| ensures !IsLineBreak(h[i]) {
        assert 4 <= i < |h| - 1 ==> h[i] == id[i - 4];
      }
    }
    SingleLineSplit(h);
  }

  lemma {:induction false} OwnHeading(id: string)
    requires IsCanonical(id)
    ensures IsHeading(HeadingElement(id)) && HeadingId(HeadingElement(id)) == Some(id)
    ensures LinesOf(HeadingElement(id)) == [HeadingElement(id)] && EndsInsideLine(HeadingElement(id))
  {
    hide IsCanonical, CanonicalDateId, HeadingElement, HeadingToken, Strip, LinesOf, SingleLine, IsDigit;
    CanonicalCharacters(id);
    CanonicalIsFixpoint(id);
    BracketsFound(id);
    HeadingOnOneLine(id);
  }

  // ------------------------------------------------- values read from lines

  function Or<T>(a: Option<T>, b: Option<T>): Option<T> {
    if a.Some? then a else b
  }

  lemma {:induction false} LastValueAppend(a: seq<string>, b: seq<string>, prefix: string)
    ensures LastValue(a + b, prefix) == Or(LastValue(b, prefix), LastValue(a, prefix))
  {
    hide ExtractFieldValue;
    if b == [] {
      assert a + b == a;
    } else {
      assert (a + b)[..|a + b| - 1] == a + b[..|b| - 1];
      LastValueAppend(a, b[..|b| - 1], prefix);
    }
  }

  lemma {:induction false} LastValueNone(body: seq<string>, prefix: string)
    ensures LastValue(body, prefix).None? <==> forall l | l in body :: ExtractFieldValue(l, prefix).None?
  {
    hide ExtractFieldValue;
    if body != [] {
      assert body == body[..|body| - 1] + [body[|body| - 1]];
      LastValueNone(body[..|body| - 1], prefix);
    }
  }

  /** A value read back never spans lines. */
  lemma {:induction false} ReadValuesAreSingle(body: seq<string>, prefix: string)
    requires forall l | l in body :: SingleLine(l)
    ensures LastValue(body, prefix).Some? ==> SingleLine(LastValue(body, prefix).value)
  {
    hide ExtractFieldValue, SingleLine;
    if body != [] {
      ExtractedIsSingle(body[|body| - 1], prefix);
      ReadValuesAreSingle(body[..|body| - 1], prefix);
    }
  }

  lemma {:induction false} ExtractedIsSingle(line: string, prefix: string)
    requires SingleLine(line)
    ensures ExtractFieldValue(line, prefix).Some? ==> SingleLine(ExtractFieldValue(line, prefix).value)
  {
    hide Strip;
    var s := Strip(line);
    StripKeepsChars(line);
    if StartsWith(s, prefix) {
      var t := s[|prefix|..];
      StripKeepsChars(t);
      forall c | c in Strip(t) ensures c in line {
        assert c in t;
        assert c in s;
      }
      forall i | 0 <= i < |Strip(t)| ensures !IsLineBreak(Strip(t)[i]) {
        assert Strip(t)[i] in line;
      }
    }
  }

  lemma {:induction false} FlatLinesAreSingle(ls: seq<string>)
    ensures forall l | l in FlatLines(ls) :: SingleLine(l)
  {
    hide SplitLines;
    if ls != [] {
      SplitLinesAreSingle(ls[0]);
      FlatLinesAreSingle(ls[1..]);
    }
  }

  /** What one printed field contributes: its continuation lines win over its own value. */
  function FieldValueRead(f: Field, name: string): Option<string>
    requires IsField(f)
  {
    Or(LastValue(Continuation(f.value), FieldPrefix(name)),
       if f.name == name then Some(Strip(FirstLine(f.value))) else None)
  }

  function FieldLines(fs: seq<Field>): seq<string> {
    FlatLines(Elements(fs))
  }

  lemma {:induction false} FieldLinesAppend(a: seq<Field>, b: seq<Field>)
    ensures FieldLines(a + b) == FieldLines(a) + FieldLines(b)
  {
    hide FieldElement, FlatLines;
    ElementsAppend(a, b);
    FlatLinesAppend(Elements(a), Elements(b));
  }

  lemma {:induction false} FieldLinesOne(f: Field)
    requires IsField(f)
    ensures FieldLines([f]) == [FieldPrefix(f.name) + " " + FirstLine(f.value)] + Continuation(f.value)
  {
    hide FieldElement, FieldPrefix, LinesOf, Continuation;
    FieldLineShape(f);
    var e := FieldElement(f);
    assert Elements([f]) == [e];
    assert FlatLines([e]) == LinesOf(e) + FlatLines([]);
  }

  lemma {:induction false} LastValueOne(line: string, prefix: string)
    ensures LastValue([line], prefix) == ExtractFieldValue(line, prefix)
  {
    hide ExtractFieldValue;
    assert [line][..0] == [];
  }

  lemma {:induction false} FieldRead(f: Field, name: string)
    requires IsField(f) && IsName(name)
    ensures LastValue(FieldLines([f]), FieldPrefix(name)) == FieldValueRead(f, name)
  {
    hide FieldLines, FieldPrefix, ExtractFieldValue, LastValue, Continuation, FirstLine, Strip;
    FieldLinesOne(f);
    var line := FieldPrefix(f.name) + " " + FirstLine(f.value);
    LastValueAppend([line], Continuation(f.value), FieldPrefix(name));
    LastValueOne(line, FieldPrefix(name));
    FieldLineValue(f, name);
  }

  lemma {:induction false} SingleLineFieldRead(f: Field, name: string)
    requires IsField(f) && IsName(name) && SingleLine(f.value)
    ensures Continuation(f.value) == []
    ensures FieldValueRead(f, name) == if f.name == name then Some(f.value) else None
  {
    hide SplitLines, Strip, FieldPrefix, ExtractFieldValue, IsSpace, SingleLine, LineEnd;
    SingleLineSplit(f.value);
    TrimmedStrips(f.value);
  }

  // ------------------------------------------------------- a record's lines

  function TailLines(r: SourceRecord): seq<string> {
    [""] + FieldLines(RecordFields(r)) + [""]
  }

  function RecordLines(r: SourceRecord): seq<string> {
    [HeadingElement(r.dateId)] + TailLines(r)
  }

  lemma {:induction false} FieldsWellFormed(r: SourceRecord)
    requires ValidRecord(r)
    ensures forall f | f in RecordFields(r) :: IsField(f)
  {
    hide IsCanonical, SingleLine, IsSpace, IsName;
    FieldNames();
  }

  lemma FieldNames()
    ensures IsName("fact_type") && IsName("source_name") && IsName("source_timestamp") && IsName("summary")
    ensures IsName("symbol") && IsName("market") && IsName("source_url") && IsName("payload_hash")
  {
  }

  lemma {:induction false} OptionalRead(name: string, value: Option<string>, wanted: string)
    requires value.Some? ==> IsField(Field(name, value.value))
    requires IsName(wanted)
    ensures LastValue(FieldLines(OptionalField(name, value)), FieldPrefix(wanted)) ==
            if value.Some? then FieldValueRead(Field(name, value.value), wanted) else None
  {
    hide FieldPrefix, FieldElement, ExtractFieldValue;
    if value.Some? {
      FieldRead(Field(name, value.value), wanted);
    } else {
      assert Elements([]) == [];
    }
  }

  lemma {:induction false} LeadingRead(r: SourceRecord, wanted: string)
    requires ValidRecord(r) && IsName(wanted)
    requires wanted !in {"fact_type", "source_name", "source_timestamp", "summary"}
    ensures LastValue(FieldLines(LeadingFields(r)), FieldPrefix(wanted)) ==
            LastValue(LeadingContinuations(r), FieldPrefix(wanted))
  {
    hide FieldPrefix, FieldElement, ExtractFieldValue, Continuation, FieldLines, LastValue, IsCanonical, FactName, FirstLine, IsField, Strip;
    FieldsWellFormed(r);
    var fs := LeadingFields(r);
    var p := FieldPrefix(wanted);
    assert forall i | 0 <= i < 4 :: fs[i] in RecordFields(r);
    assert fs == ([fs[0]] + [fs[1]]) + ([fs[2]] + [fs[3]]);
    FieldLinesAppend([fs[0]], [fs[1]]);
    FieldLinesAppend([fs[2]], [fs[3]]);
    FieldLinesAppend([fs[0]] + [fs[1]], [fs[2]] + [fs[3]]);
    LastValueAppend(FieldLines([fs[0]]), FieldLines([fs[1]]), p);
    LastValueAppend(FieldLines([fs[2]]), FieldLines([fs[3]]), p);
    LastValueAppend(FieldLines([fs[0]]) + FieldLines([fs[1]]), FieldLines([fs[2]]) + FieldLines([fs[3]]), p);
    FieldRead(fs[0], wanted);
    FieldRead(fs[1], wanted);
    FieldRead(fs[2], wanted);
    FieldRead(fs[3], wanted);
    SingleLineFieldRead(fs[0], wanted);
    SingleLineFieldRead(fs[2], wanted);
    LastValueAppend(Continuation(r.sourceName), Continuation(r.summary), p);
  }

  lemma {:induction false} BlankLinesCarryNothing(body: seq<string>, prefix: string)
    requires prefix != ""
    ensures LastValue([""] + body + [""], prefix) == LastValue(body, prefix)
  {
    hide ExtractFieldValue, LastValue;
    assert ExtractFieldValue("", prefix) == None by { BlankCarriesNothing(prefix); }
    LastValueOne("", prefix);
    LastValueAppend([""], body, prefix);
    LastValueAppend([""] + body, [""], prefix);
  }

  lemma BlankCarriesNothing(prefix: string)
    requires prefix != ""
    ensures ExtractFieldValue("", prefix) == None
  {
  }

  /** Reading a record's block: later fields win, and continuation lines win over their field. */
  lemma {:induction false} TailRead(r: SourceRecord, wanted: string)
    requires ValidRecord(r) && wanted in {"symbol", "market"}
    ensures r.symbol.Some? ==> IsField(Field("symbol", r.symbol.value))
    ensures r.market.Some? ==> IsField(Field("market", r.market.value))
    ensures LastValue(TailLines(r), FieldPrefix(wanted)) ==
      Or(LastValue(OptionalContinuation(r.sourceUrl), FieldPrefix(wanted)),
      Or(if r.market.Some? then FieldValueRead(Field("market", r.market.value), wanted) else None,
      Or(if r.symbol.Some? then FieldValueRead(Field("symbol", r.symbol.value), wanted) else None,
         LastValue(LeadingContinuations(r), FieldPrefix(wanted)))))
  {
    hide FieldPrefix, FieldElement, ExtractFieldValue, Continuation, FieldLines, LastValue, IsCanonical, FactName, FirstLine, IsField, Strip, LeadingFields, LeadingContinuations, IsText, IsToken;
    FieldsWellFormed(r);
    var p := FieldPrefix(wanted);
    PrefixNonEmpty(wanted);
    var (l, s, m, u, h) := (LeadingFields(r), OptionalField("symbol", r.symbol), OptionalField("market", r.market),
                            OptionalField("source_url", r.sourceUrl), [Field("payload_hash", r.payloadHash)]);
    assert RecordFields(r) == l + s + m + u + h;
    assert r.symbol.Some? ==> s[0] in RecordFields(r);
    assert r.market.Some? ==> m[0] in RecordFields(r);
    assert r.sourceUrl.Some? ==> u[0] in RecordFields(r);
    assert h[0] in RecordFields(r);
    FieldNames();
    LastValueEmpty(p);
    BlankLinesCarryNothing(FieldLines(RecordFields(r)), p);
    ReadAppend(l + s + m + u, h, p);
    ReadAppend(l + s + m, u, p);
    ReadAppend(l + s, m, p);
    ReadAppend(l, s, p);
    FieldRead(h[0], wanted);
    SingleLineHashRead(r, wanted);
    OptionalRead("source_url", r.sourceUrl, wanted);
    OptionalRead("market", r.market, wanted);
    OptionalRead("symbol", r.symbol, wanted);
    LeadingRead(r, wanted);
  }

  lemma LastValueEmpty(prefix: string)
    ensures LastValue([], prefix) == None
  {
  }

  lemma PrefixNonEmpty(name: string)
    ensures FieldPrefix(name) != ""
  {
  }

  lemma {:induction false} SingleLineHashRead(r: SourceRecord, wanted: string)
    requires ValidRecord(r) && wanted in {"symbol", "market"} && IsField(Field("payload_hash", r.payloadHash))
    ensures FieldValueRead(Field("payload_hash", r.payloadHash), wanted) == None
  {
    hide IsCanonical, IsSpace, FieldValueRead, IsField, Continuation;
    SingleLineFieldRead(Field("payload_hash", r.payloadHash), wanted);
  }

  lemma {:induction false} ReadAppend(a: seq<Field>, b: seq<Field>, prefix: string)
    ensures LastValue(FieldLines(a + b), prefix) == Or(LastValue(FieldLines(b), prefix), LastValue(FieldLines(a), prefix))
  {
    hide FieldLines, LastValue;
    FieldLinesAppend(a, b);
    LastValueAppend(FieldLines(a), FieldLines(b), prefix);
  }

  lemma PrefixConstants()
    ensures SYMBOL_LINE_PREFIX == FieldPrefix("symbol") && MARKET_LINE_PREFIX == FieldPrefix("market")
  {
  }

  lemma {:induction false} TailLinesAreSingle(r: SourceRecord)
    ensures forall l | l in TailLines(r) :: SingleLine(l)
  {
    hide SingleLine, Elements, FlatLines, RecordFields;
    FlatLinesAreSingle(Elements(RecordFields(r)));
    assert SingleLine("") by { EmptyIsSingle(); }
  }

  lemma EmptyIsSingle()
    ensures SingleLine("")
  {
  }

  /** A one-line value is read back from its own line. */
  lemma {:induction false} OwnValueRead(name: string, v: string)
    requires IsField(Field(name, v)) && SingleLine(v)
    ensures FieldValueRead(Field(name, v), name) == Some(v)
    ensures Continuation(v) == []
  {
    hide FieldValueRead, IsField, SingleLine, Continuation;
    assert IsName(name) by { FieldIsNamed(Field(name, v)); }
    SingleLineFieldRead(Field(name, v), name);
  }

  lemma FieldIsNamed(f: Field)
    requires IsField(f)
    ensures IsName(f.name) && IsText(f.value) && f.value != ""
  {
  }

  /** The symbol is read back exactly when no continuation line disturbs it. */
  lemma {:induction false} SymbolKeptExactly(r: SourceRecord)
    requires ValidRecord(r)
    ensures LastValue(TailLines(r), SYMBOL_LINE_PREFIX) == r.symbol <==> SymbolKept(r)
  {
    hide IsCanonical, FieldPrefix, LastValue, TailLines, SingleLine, Continuation, ExtractFieldValue, IsText, IsField, FirstLine, Strip;
    PrefixConstants();
    TailRead(r, "symbol");
    TailLinesAreSingle(r);
    ReadValuesAreSingle(TailLines(r), SYMBOL_LINE_PREFIX);
    var (lead, m, u) := (LeadingContinuations(r), OptionalContinuation(r.market), OptionalContinuation(r.sourceUrl));
    LastValueEmpty(SYMBOL_LINE_PREFIX);
    LastValueAppend(m, u, SYMBOL_LINE_PREFIX);
    if r.symbol.None? {
      LastValueAppend(lead, m + u, SYMBOL_LINE_PREFIX);
      LastValueNone(lead + (m + u), SYMBOL_LINE_PREFIX);
    } else if SingleLine(r.symbol.value) {
      OwnValueRead("symbol", r.symbol.value);
    }
  }

  lemma {:induction false} MarketKeptExactly(r: SourceRecord)
    requires ValidRecord(r)
    ensures LastValue(TailLines(r), MARKET_LINE_PREFIX) == r.market <==> MarketKept(r)
  {
    hide IsCanonical, FieldPrefix, LastValue, TailLines, SingleLine, Continuation, ExtractFieldValue, IsText, IsField, FirstLine, Strip;
    PrefixConstants();
    TailRead(r, "market");
    TailLinesAreSingle(r);
    ReadValuesAreSingle(TailLines(r), MARKET_LINE_PREFIX);
    var (lead, sy, u) := (LeadingContinuations(r), OptionalContinuation(r.symbol), OptionalContinuation(r.sourceUrl));
    LastValueEmpty(MARKET_LINE_PREFIX);
    if r.market.None? {
      LastValueAppend(lead, sy, MARKET_LINE_PREFIX);
      LastValueAppend(lead + sy, u, MARKET_LINE_PREFIX);
      LastValueNone(lead + sy + u, MARKET_LINE_PREFIX);
    } else if SingleLine(r.market.value) {
      OwnValueRead("market", r.market.value);
    }
  }

  // --------------------------------------------------------------- headings

  predicate Headless(ls: seq<string>) {
    forall l | l in ls :: !IsHeading(l)
  }

  predicate ContinuesHeadless(f: Field)
    requires IsField(f)
  {
    Headless(Continuation(f.value))
  }

  lemma {:induction false} FieldHeadless(f: Field)
    requires IsField(f)
    ensures Headless(FieldLines([f])) <==> ContinuesHeadless(f)
  {
    hide IsHeading, FieldLines, Continuation, FirstLine;
    FieldLinesOne(f);
    var line := FieldPrefix(f.name) + " " + FirstLine(f.value);
    assert line[0] == '-';
    DashIsNotSpace();
    NotHeading(line);
    assert forall l :: l in [line] + Continuation(f.value) <==> l == line || l in Continuation(f.value);
  }

  lemma HeadlessAppend(a: seq<string>, b: seq<string>)
    ensures Headless(a + b) <==> Headless(a) && Headless(b)
  {
    hide IsHeading;
    assert forall l :: l in a + b <==> l in a || l in b;
  }

  lemma {:induction false} FieldsHeadless(fs: seq<Field>)
    requires forall i | 0 <= i < |fs| :: IsField(fs[i])
    ensures Headless(FieldLines(fs)) <==> forall i | 0 <= i < |fs| :: ContinuesHeadless(fs[i])
  {
    hide IsHeading, IsField, Headless, ContinuesHeadless;
    if fs == [] {
      assert Elements(fs) == [];
      assert Headless([]) by { NothingHeaded(); }
    } else {
      assert fs == [fs[0]] + fs[1..];
      FieldLinesAppend([fs[0]], fs[1..]);
      HeadlessAppend(FieldLines([fs[0]]), FieldLines(fs[1..]));
      FieldHeadless(fs[0]);
      FieldsHeadless(fs[1..]);
      assert forall i | 0 < i < |fs| :: fs[i] == fs[1..][i - 1];
    }
  }

  lemma NothingHeaded()
    ensures Headless([]) && Headless([""])
  {
    NotHeading("");
  }

  lemma {:induction false} TailHeadless(r: SourceRecord)
    requires ValidRecord(r)
    ensures Headless(TailLines(r)) <==> NoFalseHeading(r)
  {
    hide IsCanonical, IsHeading, IsField, FieldLines, Continuation, IsText, FactName, SingleLine;
    FieldsWellFormed(r);
    var fs := RecordFields(r);
    FieldsHeadless(fs);
    NothingHeaded();
    HeadlessAppend([""], FieldLines(fs));
    HeadlessAppend([""] + FieldLines(fs), [""]);
    ContinuationsByField(r);
  }

  predicate AllContinueHeadless(fs: seq<Field>)
    requires forall f | f in fs :: IsField(f)
  {
    forall i | 0 <= i < |fs| :: ContinuesHeadless(fs[i])
  }

  lemma AllContinueAppend(a: seq<Field>, b: seq<Field>)
    requires forall f | f in a + b :: IsField(f)
    ensures (forall f | f in a :: IsField(f)) && forall f | f in b :: IsField(f)
    ensures AllContinueHeadless(a + b) <==> AllContinueHeadless(a) && AllContinueHeadless(b)
  {
    hide IsField, ContinuesHeadless;
    assert forall f | f in a :: f in a + b;
    assert forall f | f in b :: f in a + b;
    if AllContinueHeadless(a + b) {
      forall i | 0 <= i < |a| ensures ContinuesHeadless(a[i]) { assert (a + b)[i] == a[i]; }
      forall i | 0 <= i < |b| ensures ContinuesHeadless(b[i]) { assert (a + b)[|a| + i] == b[i]; }
    }
  }

  /** Only the five free-text fields can have continuation lines. */
  lemma {:induction false} ContinuationsByField(r: SourceRecord)
    requires ValidRecord(r) && forall f | f in RecordFields(r) :: IsField(f)
    ensures AllContinueHeadless(RecordFields(r)) <==> Headless(Continuations(r))
  {
    hide IsCanonical, IsHeading, IsField, FactName, SingleLine, Headless, Continuation, Trimmed, LeadingFields;
    NothingHeaded();
    FactTypeField(r);
    var (a, b, c, d, e) := (Continuation(r.sourceName), Continuation(r.summary),
                            OptionalContinuation(r.symbol), OptionalContinuation(r.market), OptionalContinuation(r.sourceUrl));
    HeadlessAppend(a, b);
    HeadlessAppend(a + b, c);
    HeadlessAppend(a + b + c, d);
    HeadlessAppend(a + b + c + d, e);
    var (l, s, m, u, h) := (LeadingFields(r), OptionalField("symbol", r.symbol), OptionalField("market", r.market),
                            OptionalField("source_url", r.sourceUrl), [Field("payload_hash", r.payloadHash)]);
    AllContinueAppend(l + s + m + u, h);
    AllContinueAppend(l + s + m, u);
    AllContinueAppend(l + s, m);
    AllContinueAppend(l, s);
    LeadingContinue(r);
    OneContinues("symbol", r.symbol);
    OneContinues("market", r.market);
    OneContinues("source_url", r.sourceUrl);
    OneContinues("payload_hash", Some(r.payloadHash));
  }

  lemma {:induction false} OneContinues(name: string, v: Option<string>)
    requires IsOptionalText(v) && forall f | f in OptionalField(name, v) :: IsField(f)
    ensures AllContinueHeadless(OptionalField(name, v)) <==> Headless(OptionalContinuation(v))
  {
    hide IsField, Headless, Continuation, Trimmed;
    NothingHeaded();
    if v.Some? {
      var fs := OptionalField(name, v);
      assert fs[0] in fs;
      assert ContinuesHeadless(fs[0]) <==> Headless(OptionalContinuation(v));
    }
  }

  lemma {:induction false} LeadingContinue(r: SourceRecord)
    requires ValidRecord(r) && forall f | f in LeadingFields(r) :: IsField(f)
    ensures AllContinueHeadless(LeadingFields(r)) <==> Headless(Continuation(r.sourceName)) && Headless(Continuation(r.summary))
  {
    hide IsCanonical, IsHeading, IsField, FactName, SingleLine, Headless, Continuation, Trimmed;
    NothingHeaded();
    FactTypeField(r);
    var l := LeadingFields(r);
    assert ContinuesHeadless(l[0]) && ContinuesHeadless(l[2]);
    assert ContinuesHeadless(l[1]) <==> Headless(Continuation(r.sourceName));
    assert ContinuesHeadless(l[3]) <==> Headless(Continuation(r.summary));
  }

  lemma {:induction false} FactTypeField(r: SourceRecord)
    requires ValidRecord(r)
    ensures Continuation(FactName(r.factType)) == [] && Continuation(r.sourceTimestamp) == [] && Continuation(r.payloadHash) == []
  {
    hide IsCanonical, SplitLines, FactName;
    SingleLineSplit(FactName(r.factType));
    SingleLineSplit(r.sourceTimestamp);
    SingleLineSplit(r.payloadHash);
  }

  // ------------------------------------------------------------ field flags

  lemma {:induction false} FieldTextPresent(f: Field, fs: seq<Field>)
    requires f in fs && IsField(f)
    ensures AnyLineContains(FieldLines(fs), "**" + f.name + ":**")
  {
    hide IsName, Trimmed, FieldLines, Continuation, FirstLine, Contains;
    var i :| 0 <= i < |fs| && fs[i] == f;
    assert fs == fs[..i] + ([f] + fs[i + 1..]);
    FieldLinesAppend(fs[..i], [f] + fs[i + 1..]);
    FieldLinesAppend([f], fs[i + 1..]);
    FieldLinesOne(f);
    var line := FieldPrefix(f.name) + " " + FirstLine(f.value);
    assert line in FieldLines([f]);
    assert line in FieldLines(fs);
    FieldTextInLine(f.name, " " + FirstLine(f.value));
    assert line == FieldPrefix(f.name) + (" " + FirstLine(f.value));
  }

  lemma {:induction false} FieldTextInLine(name: string, t: string)
    ensures Contains(FieldPrefix(name) + t, "**" + name + ":**")
  {
    var line := FieldPrefix(name) + t;
    assert line[2..2 + |"**" + name + ":**"|] == "**" + name + ":**";
    assert OccursAt(line, "**" + name + ":**", 2);
  }

  lemma FieldConstants()
    ensures FIELD_SOURCE_TIMESTAMP == "**" + "source_timestamp" + ":**"
    ensures FIELD_SUMMARY == "**" + "summary" + ":**"
    ensures FIELD_PAYLOAD_HASH == "**" + "payload_hash" + ":**"
  {
  }

  lemma {:induction false} TailFlags(r: SourceRecord)
    requires ValidRecord(r)
    ensures AnyLineContains(TailLines(r), FIELD_SOURCE_TIMESTAMP)
    ensures AnyLineContains(TailLines(r), FIELD_SUMMARY)
    ensures AnyLineContains(TailLines(r), FIELD_PAYLOAD_HASH)
  {
    hide IsCanonical, IsField, FieldLines, Contains, FactName;
    FieldConstants();
    FieldsWellFormed(r);
    var fs := RecordFields(r);
    var l := LeadingFields(r);
    assert l[2] in fs && l[3] in fs && fs[|fs| - 1] in fs;
    assert fs[|fs| - 1] == Field("payload_hash", r.payloadHash);
    FieldTextPresent(l[2], fs);
    FieldTextPresent(l[3], fs);
    FieldTextPresent(fs[|fs| - 1], fs);
    assert forall line | line in FieldLines(fs) :: line in TailLines(r);
  }

  // ----------------------------------------------------- the whole document

  function DocumentLines(rs: seq<SourceRecord>): seq<string> {
    if rs == [] then [] else RecordLines(rs[0]) + DocumentLines(rs[1..])
  }

  lemma {:induction false} RecordElementsLines(r: SourceRecord)
    requires ValidRecord(r)
    ensures FlatLines(RecordElements(r)) == RecordLines(r)
  {
    hide IsCanonical, FieldElement, HeadingElement, RecordFields, LinesOf, Elements, FlatLines;
    OwnHeading(r.dateId);
    FlattenFramed(HeadingElement(r.dateId), Elements(RecordFields(r)));
  }

  lemma {:induction false} FlattenFramed(h: string, es: seq<string>)
    requires LinesOf(h) == [h]
    ensures FlatLines([h, ""] + es + [""]) == [h] + ([""] + FlatLines(es) + [""])
  {
    hide LinesOf, FlatLines;
    BlankElement();
    assert [h, ""] + es + [""] == [h] + ([""] + (es + [""]));
    FlatLinesAppend([h], [""] + (es + [""]));
    FlatLinesAppend([""], es + [""]);
    FlatLinesAppend(es, [""]);
    OneElement(h);
    OneElement("");
  }

  lemma {:induction false} RecordElementsEnd(r: SourceRecord)
    requires ValidRecord(r)
    ensures forall e | e in RecordElements(r) :: EndsInsideLine(e)
    ensures var n := |RecordElements(r)|;
      n > 1 && RecordElements(r)[n - 1] == "" && EndsInText(RecordElements(r)[n - 2])
  {
    hide ValidRecord, IsCanonical, HeadingElement, IsField, EndsInsideLine, EndsInText, LinesOf, FactName, HeadingId, Elements;
    ValidRecordId(r);
    OwnHeading(r.dateId);
    FieldsWellFormed(r);
    FramedEnd(HeadingElement(r.dateId), RecordFields(r));
  }

  lemma {:induction false} FramedEnd(h: string, fs: seq<Field>)
    requires fs != [] && EndsInsideLine(h) && forall i | 0 <= i < |fs| :: IsField(fs[i])
    ensures var es := [h, ""] + Elements(fs) + [""];
      && (forall e | e in es :: EndsInsideLine(e))
      && es[|es| - 1] == "" && EndsInText(es[|es| - 2])
  {
    hide FieldElement, IsField, EndsInsideLine, EndsInText;
    BlankElement();
    forall i | 0 <= i < |fs| ensures EndsInsideLine(FieldElement(fs[i])) && EndsInText(FieldElement(fs[i])) {
      FieldEndsInText(fs[i]);
    }
  }

  predicate EndsInText(e: string) {
    e != "" && !IsSpace(e[|e| - 1])
  }

  lemma FieldEndsInText(f: Field)
    requires IsField(f)
    ensures EndsInsideLine(FieldElement(f)) && FieldElement(f) != "" && EndsInText(FieldElement(f))
  {
    hide FieldElement, IsField, LinesOf, FieldPrefix, Continuation, FirstLine;
    FieldLineShape(f);
  }

  lemma BlankElement()
    ensures EndsInsideLine("") && LinesOf("") == [""]
  {
  }

  lemma OneElement(e: string)
    ensures FlatLines([e]) == LinesOf(e)
  {
    hide LinesOf;
    assert [e][1..] == [];
  }

  /** Stripping the joined text drops the final empty element and nothing else. */
  lemma {:induction false} StrippedJoin(es: seq<string>)
    requires |es| > 1 && es[|es| - 1] == "" && EndsInText(es[|es| - 2])
    requires forall e | e in es :: EndsInsideLine(e)
    ensures SplitLines(RStrip(JoinLines(es)) + "\n") + [""] == FlatLines(es)
    ensures RStrip(JoinLines(es)) == JoinLines(es[..|es| - 1])
  {
    hide SplitLines, LinesOf, FlatLines, JoinLines, IsSpace, EndsInsideLine;
    var init := es[..|es| - 1];
    assert es == init + [""];
    JoinLinesSnocEmpty(init);
    JoinLinesLast(init);
    NewlineStripped(JoinLines(init));
    SplitJoined(init);
    FlatLinesAppend(init, [""]);
    OneElement("");
    BlankElement();
  }

  lemma {:induction false} NewlineStripped(t: string)
    requires t != "" && !IsSpace(t[|t| - 1])
    ensures RStrip(t + "\n") == t
  {
    assert (t + "\n")[..|t|] == t;
    assert RStrip(t) == t;
  }

  lemma {:induction false} AllElementsLines(rs: seq<SourceRecord>)
    requires forall r | r in rs :: ValidRecord(r)
    ensures FlatLines(AllElements(rs)) == DocumentLines(rs)
    ensures forall e | e in AllElements(rs) :: EndsInsideLine(e)
    ensures rs != [] ==> var n := |AllElements(rs)|; n > 1 && AllElements(rs)[n - 1] == "" && EndsInText(AllElements(rs)[n - 2])
  {
    hide ValidRecord, RecordElements, RecordLines, EndsInsideLine, EndsInText, LinesOf;
    if rs != [] {
      RecordElementsLines(rs[0]);
      RecordElementsEnd(rs[0]);
      AllElementsLines(rs[1..]);
      FlatLinesAppend(RecordElements(rs[0]), AllElements(rs[1..]));
    }
  }

  /** Text whose characters are all printable, as the fixed header's are. */
  predicate IsPrintable(s: string) {
    forall i | 0 <= i < |s| :: ' ' <= s[i] <= '~' || s[i] == '\U{2014}'
  }

  lemma {:induction false} PrintableElement(e: string)
    requires IsPrintable(e)
    ensures LinesOf(e) == [e] && EndsInsideLine(e)
  {
    hide SplitLines;
    if e != "" { SingleLineSplit(e); }
  }

  lemma {:induction false} HeaderLines()
    ensures FlatLines(HEADER) == HEADER && Headless(HEADER)
    ensures forall e | e in HEADER :: EndsInsideLine(e)
    ensures HEADER[4] == "" && EndsInText(HEADER[3]) && HEADER[0] != "" && !IsSpace(HEADER[0][0])
  {
    hide LinesOf, IsHeading, FlatLines, EndsInsideLine;
    NotHeading(HEADER[0]);
    NotHeading(HEADER[1]);
    NotHeading(HEADER[2]);
    NotHeading(HEADER[3]);
    HeaderPrintable();
    HeaderNoticePrintable();
    hide IsPrintable;
    forall i | 0 <= i < 5 ensures LinesOf(HEADER[i]) == [HEADER[i]] && EndsInsideLine(HEADER[i]) {
      PrintableElement(HEADER[i]);
    }
    FlatSingles(HEADER);
  }

  lemma HeaderPrintable()
    ensures IsPrintable(HEADER[0]) && IsPrintable(HEADER[1]) && IsPrintable(HEADER[2]) && IsPrintable(HEADER[4])
  {
  }

  lemma HeaderNoticePrintable()
    ensures IsPrintable(HEADER[3])
  {
  }

  lemma {:induction false} FlatSingles(ls: seq<string>)
    requires forall i | 0 <= i < |ls| :: LinesOf(ls[i]) == [ls[i]]
    ensures FlatLines(ls) == ls
  {
    hide LinesOf;
    if ls != [] {
      FlatSingles(ls[1..]);
      assert ls == [ls[0]] + ls[1..];
    }
  }

  // ----------------------------------------------- blocks of a document

  lemma {:induction false} BodyLengthAppend(a: seq<string>, b: seq<string>)
    requires b == [] || IsHeading(b[0])
    ensures BodyLength(a + b) == BodyLength(a)
  {
    hide IsHeading;
    if a == [] {
      assert a + b == b;
    } else {
      assert (a + b)[1..] == a[1..] + b;
      BodyLengthAppend(a[1..], b);
    }
  }

  lemma {:induction false} SplitBlocksAppend(a: seq<string>, b: seq<string>)
    requires b == [] || IsHeading(b[0])
    ensures SplitBlocks(a + b) == SplitBlocks(a) + SplitBlocks(b)
    decreases |a|
  {
    hide IsHeading, BodyLength;
    if a == [] {
      assert a + b == b;
    } else {
      assert (a + b)[1..] == a[1..] + b;
      if IsHeading(a[0]) {
        BodyLengthAppend(a[1..], b);
        var n := BodyLength(a[1..]);
        assert (a + b)[1..1 + n] == a[1..1 + n];
        assert (a + b)[1 + n..] == a[1 + n..] + b;
        SplitBlocksAppend(a[1 + n..], b);
        assert SplitBlocks(a + b) == [Block(a[0], a[1..1 + n])] + (SplitBlocks(a[1 + n..]) + SplitBlocks(b));
      } else {
        SplitBlocksAppend(a[1..], b);
      }
    }
  }

  lemma {:induction false} HeadlessHasNoBlocks(ls: seq<string>)
    requires Headless(ls)
    ensures SplitBlocks(ls) == [] && BodyLength(ls) == |ls|
  {
    hide IsHeading;
    if ls != [] {
      HeadlessHasNoBlocks(ls[1..]);
    }
  }

  lemma {:induction false} BlocksAreHeadings(ls: seq<string>)
    ensures SplitBlocks(ls) == [] ==> Headless(ls)
    decreases |ls|
  {
    hide IsHeading;
    if ls != [] && !IsHeading(ls[0]) {
      BlocksAreHeadings(ls[1..]);
    }
  }

  lemma {:induction false} FirstBlock(h: string, t: seq<string>)
    requires IsHeading(h)
    ensures SplitBlocks([h] + t) == [Block(h, t[..BodyLength(t)])] + SplitBlocks(t[BodyLength(t)..])
  {
    hide IsHeading;
    var ls, n := [h] + t, BodyLength(t);
    assert ls[1..] == t && ls[1..1 + n] == t[..n] && ls[1 + n..] == t[n..];
  }

  lemma {:induction false} HeadingAhead(t: seq<string>)
    requires !Headless(t)
    ensures SplitBlocks(t[BodyLength(t)..]) != []
  {
    hide IsHeading, SplitBlocks;
    var n := BodyLength(t);
    BodyLengthStops(t);
    BlocksAreHeadings(t[n..]);
    assert n < |t|;
    assert t[n] == t[n..][0] && t[n..][0] in t[n..];
  }

  /** A record is one block when it has no false heading, and more otherwise. */
  lemma {:induction false} RecordBlocks(r: SourceRecord)
    requires ValidRecord(r)
    ensures var bs := SplitBlocks(RecordLines(r));
      && bs != [] && bs[0].heading == HeadingElement(r.dateId)
      && (NoFalseHeading(r) ==> bs == [Block(HeadingElement(r.dateId), TailLines(r))])
      && (!NoFalseHeading(r) ==> |bs| > 1)
    ensures RecordLines(r) != [] && IsHeading(RecordLines(r)[0])
  {
    hide ValidRecord, IsCanonical, IsHeading, TailLines, HeadingElement, NoFalseHeading, SplitBlocks, BodyLength, Headless, HeadingId, LinesOf, EndsInsideLine;
    ValidRecordId(r);
    OwnHeading(r.dateId);
    TailHeadless(r);
    var t := TailLines(r);
    FirstBlock(HeadingElement(r.dateId), t);
    if NoFalseHeading(r) {
      HeadlessHasNoBlocks(t);
      NoBlocks();
      assert t[..|t|] == t && t[|t|..] == [];
    } else {
      HeadingAhead(t);
    }
  }

  lemma NoBlocks()
    ensures SplitBlocks([]) == []
  {
  }

  function DocumentBlocks(rs: seq<SourceRecord>): (bs: seq<Block>)
    ensures AllHeaded(bs)
  {
    if rs == [] then [] else SplitBlocks(RecordLines(rs[0])) + DocumentBlocks(rs[1..])
  }

  lemma {:induction false} DocumentSplits(rs: seq<SourceRecord>)
    requires forall r | r in rs :: ValidRecord(r)
    ensures SplitBlocks(DocumentLines(rs)) == DocumentBlocks(rs)
    ensures rs != [] ==> DocumentLines(rs) != [] && IsHeading(DocumentLines(rs)[0])
  {
    hide ValidRecord, IsHeading, RecordLines, NoFalseHeading, TailLines, HeadingElement;
    if rs != [] {
      RecordBlocks(rs[0]);
      DocumentSplits(rs[1..]);
      SplitBlocksAppend(RecordLines(rs[0]), DocumentLines(rs[1..]));
    }
  }

  /** There are as many blocks as records exactly when no record has a false heading. */
  lemma {:induction false} BlockPerRecord(rs: seq<SourceRecord>)
    requires forall r | r in rs :: ValidRecord(r)
    ensures |DocumentBlocks(rs)| >= |rs|
    ensures |DocumentBlocks(rs)| == |rs| <==> forall r | r in rs :: NoFalseHeading(r)
    ensures (forall r | r in rs :: NoFalseHeading(r)) ==>
              forall i | 0 <= i < |rs| :: DocumentBlocks(rs)[i] == Block(HeadingElement(rs[i].dateId), TailLines(rs[i]))
  {
    hide ValidRecord, IsHeading, RecordLines, NoFalseHeading, TailLines, HeadingElement;
    if rs != [] {
      RecordBlocks(rs[0]);
      BlockPerRecord(rs[1..]);
      assert forall r :: r in rs <==> r == rs[0] || r in rs[1..];
    }
  }

  // ------------------------------------- the dropped final empty line is idle

  function WithBlankEnd(bs: seq<Block>): seq<Block> {
    if bs == [] then []
    else bs[..|bs| - 1] + [Block(bs[|bs| - 1].heading, bs[|bs| - 1].body + [""])]
  }

  lemma {:induction false} BodyLengthBlank(ls: seq<string>)
    ensures BodyLength(ls + [""]) == if BodyLength(ls) == |ls| then |ls| + 1 else BodyLength(ls)
  {
    hide IsHeading;
    NotHeading("");
    if ls == [] {
      assert [""][1..] == [];
    } else {
      assert (ls + [""])[1..] == ls[1..] + [""];
      BodyLengthBlank(ls[1..]);
    }
  }

  lemma {:induction false} SplitBlocksBlank(ls: seq<string>)
    ensures SplitBlocks(ls + [""]) == WithBlankEnd(SplitBlocks(ls))
    decreases |ls|
  {
    hide IsHeading, SplitBlocks, BodyLength;
    if ls == [] {
      NotHeading("");
      NoBlocks();
      LineSkipped("", []);
      assert ls + [""] == [""] + [];
    } else {
      var h, t := ls[0], ls[1..];
      assert ls == [h] + t && ls + [""] == [h] + (t + [""]);
      if IsHeading(h) {
        var n := BodyLength(t);
        if n < |t| { SplitBlocksBlank(t[n..]); }
        FirstBlockBlank(h, t);
      } else {
        LineSkipped(h, t);
        LineSkipped(h, t + [""]);
        SplitBlocksBlank(t);
      }
    }
  }

  lemma {:induction false} LineSkipped(h: string, t: seq<string>)
    requires !IsHeading(h)
    ensures SplitBlocks([h] + t) == SplitBlocks(t)
  {
    hide IsHeading;
    assert ([h] + t)[1..] == t;
  }

  lemma {:induction false} FirstBlockBlank(h: string, t: seq<string>)
    requires IsHeading(h)
    requires BodyLength(t) < |t| ==> SplitBlocks(t[BodyLength(t)..] + [""]) == WithBlankEnd(SplitBlocks(t[BodyLength(t)..]))
    ensures SplitBlocks([h] + (t + [""])) == WithBlankEnd(SplitBlocks([h] + t))
  {
    hide IsHeading, SplitBlocks, BodyLength;
    var n := BodyLength(t);
    FirstBlock(h, t);
    FirstBlock(h, t + [""]);
    BodyLengthBlank(t);
    NoBlocks();
    if n == |t| {
      assert t[..n] == t && t[n..] == [];
      assert (t + [""])[..n + 1] == t + [""] && (t + [""])[n + 1..] == [];
    } else {
      assert (t + [""])[..n] == t[..n];
      assert (t + [""])[n..] == t[n..] + [""];
      BodyLengthStops(t);
      assert t[n] in t;
      HeadingAhead(t);
      BlankEndAfter([Block(h, t[..n])], SplitBlocks(t[n..]));
    }
  }

  lemma BlankEndAfter(a: seq<Block>, b: seq<Block>)
    requires b != []
    ensures WithBlankEnd(a + b) == a + WithBlankEnd(b)
  {
  }

  lemma {:induction false} BlankBodyLine(b: Block, seen: set<string>)
    requires IsHeading(b.heading)
    ensures var b' := Block(b.heading, b.body + [""]);
      BlockFault(seen, b') == BlockFault(seen, b) && (BlockId(b).Some? ==> BlockSection(b') == BlockSection(b))
  {
    hide IsHeading, HeadingId, HeadingText, Contains, ExtractFieldValue, LastValue, AnyLineContains;
    BlankTextless();
    AbsorbedText(b.body, "", FIELD_SOURCE_TIMESTAMP);
    AbsorbedText(b.body, "", FIELD_SUMMARY);
    AbsorbedText(b.body, "", FIELD_PAYLOAD_HASH);
    AbsorbedValue(b.body, "", SYMBOL_LINE_PREFIX);
    AbsorbedValue(b.body, "", MARKET_LINE_PREFIX);
  }

  lemma BlankTextless()
    ensures !Contains("", FIELD_SOURCE_TIMESTAMP) && !Contains("", FIELD_SUMMARY) && !Contains("", FIELD_PAYLOAD_HASH)
    ensures ExtractFieldValue("", SYMBOL_LINE_PREFIX) == None && ExtractFieldValue("", MARKET_LINE_PREFIX) == None
  {
  }

  lemma {:induction false} CheckBlocksBlank(done: seq<Section>, bs: seq<Block>)
    requires AllHeaded(bs)
    ensures AllHeaded(WithBlankEnd(bs)) && CheckBlocks(done, WithBlankEnd(bs)) == CheckBlocks(done, bs)
    decreases |bs|
  {
    hide IsHeading, BlockFault, BlockSection, BlockId;
    if bs != [] {
      var b := bs[0];
      var w := WithBlankEnd(bs);
      BlankBodyLine(b, SectionIds(done));
      if |bs| == 1 {
        assert w == [Block(b.heading, b.body + [""])];
        assert w[1..] == bs[1..];
      } else {
        assert w[0] == b && w[1..] == WithBlankEnd(bs[1..]);
        CheckBlocksBlank(if BlockFault(SectionIds(done), b).None? then done + [BlockSection(b)] else done, bs[1..]);
      }
    }
  }

  // ------------------------------------------------------------- round trip

  lemma {:induction false} RenderedLines(rs: seq<SourceRecord>)
    requires forall r | r in rs :: ValidRecord(r)
    ensures SplitLines(Rendered(rs)) + [""] == HEADER + DocumentLines(rs)
    ensures Strip(Rendered(rs)) != ""
  {
    hide ValidRecord, SplitLines, RStrip, JoinLines, FlatLines, AllElements, DocumentLines, EndsInsideLine, EndsInText, Strip, IsSpace;
    HeaderLines();
    AllElementsLines(rs);
    AllElementsEmpty();
    var es := HEADER + AllElements(rs);
    assert es[0] == HEADER[0];
    StrippedJoin(es);
    FlatLinesAppend(HEADER, AllElements(rs));
    JoinLinesFirst(es[..|es| - 1]);
    NonBlankText(JoinLines(es[..|es| - 1]));
  }

  lemma JoinLinesFirst(ls: seq<string>)
    requires ls != [] && ls[0] != ""
    ensures JoinLines(ls) != "" && JoinLines(ls)[0] == ls[0][0]
  {
  }

  lemma {:induction false} NonBlankText(t: string)
    requires t != "" && !IsSpace(t[0])
    ensures Strip(t + "\n") != ""
  {
    hide IsSpace;
    var s := t + "\n";
    assert s[0] == t[0];
    StripFromNonSpace(s);
    RStripKeepsThrough(s, 0);
  }

  lemma {:induction false} OutcomeNonEmpty(bs: seq<Block>)
    requires AllHeaded(bs) && bs != []
    ensures CheckBlocks([], bs) != Ok([])
  {
    hide IsHeading, CheckBlocks, BlockSection, BlockId, FaultAt;
    assert bs[..0] == [] && bs[0..] == bs;
    CheckBlocksIsFirstFault(bs, 0, []);
  }

  /** The blocks of a printed document are those of its records, but for the stripped final line. */
  lemma {:induction false} RenderedBlocks(rs: seq<SourceRecord>)
    requires forall r | r in rs :: ValidRecord(r)
    ensures WithBlankEnd(SplitBlocks(SplitLines(Rendered(rs)))) == DocumentBlocks(rs)
  {
    hide ValidRecord, IsHeading, SplitLines, Rendered, DocumentLines, SplitBlocks, Headless;
    RenderedLines(rs);
    HeaderLines();
    DocumentSplits(rs);
    SplitBlocksBlank(SplitLines(Rendered(rs)));
    NoRecords();
    SplitBlocksAppend(HEADER, DocumentLines(rs));
    HeadlessHasNoBlocks(HEADER);
  }

  /** Reading a printed document is checking the blocks of its records. */
  lemma {:induction false} ParseRendered(rs: seq<SourceRecord>)
    requires forall r | r in rs :: ValidRecord(r)
    ensures ParseMeaning(Rendered(rs)) ==
            if rs == [] then Err(NoSections) else CheckBlocks([], DocumentBlocks(rs))
  {
    hide ValidRecord, IsHeading, SplitLines, Rendered, DocumentLines, Strip, CheckBlocks, SplitBlocks, Headless;
    RenderedLines(rs);
    var lines := SplitLines(Rendered(rs));
    RenderedBlocks(rs);
    NoRecords();
    CheckBlocksBlank([], SplitBlocks(lines));
    if rs != [] {
      BlockPerRecord(rs);
      OutcomeNonEmpty(DocumentBlocks(rs));
    }
  }

  lemma NoRecords()
    ensures DocumentLines([]) == [] && CheckBlocks([], []) == Ok([])
  {
  }

  lemma {:induction false} RecordBlockReads(r: SourceRecord)
    requires ValidRecord(r)
    ensures var b := Block(HeadingElement(r.dateId), TailLines(r));
      && IsHeading(b.heading) && BlockId(b) == Some(r.dateId)
      && (forall seen :: BlockFault(seen, b) == if r.dateId in seen then Some(DuplicateSection(r.dateId)) else None)
      && (BlockSection(b) == SectionOf(r) <==> SymbolKept(r) && MarketKept(r))
  {
    hide ValidRecord, IsCanonical, IsHeading, HeadingId, HeadingText, HeadingElement, TailLines, LastValue, AnyLineContains, SymbolKept, MarketKept;
    assert IsCanonical(r.dateId) by { ValidRecordId(r); }
    OwnHeading(r.dateId);
    TailFlags(r);
    SymbolKeptExactly(r);
    MarketKeptExactly(r);
  }

  lemma ValidRecordId(r: SourceRecord)
    requires ValidRecord(r)
    ensures IsCanonical(r.dateId)
  {
  }

  predicate Faithful(r: SourceRecord)
    requires ValidRecord(r)
  {
    NoFalseHeading(r) && SymbolKept(r) && MarketKept(r)
  }

  /**
   Reading what was printed gives one section per record, in order, with its date id, symbol
   and market and every flag set, exactly when there is a record, ids are distinct, and no
   continuation line of any field reads as a heading or as another symbol or market.
   */
  lemma {:induction false} RoundTripExactly(rs: seq<SourceRecord>)
    requires forall r | r in rs :: ValidRecord(r)
    ensures ParseMeaning(Rendered(rs)) == Ok(SectionsOf(rs)) <==>
            rs != [] && DistinctIds(rs) && forall r | r in rs :: Faithful(r)
  {
    hide ValidRecord, ParseMeaning, Rendered, CheckBlocks, NoFalseHeading, SymbolKept, MarketKept, IsHeading;
    ParseRendered(rs);
    if rs != [] {
      var bs := DocumentBlocks(rs);
      var r := CheckBlocks([], bs);
      assert bs[..0] == [] && bs[0..] == bs;
      CheckBlocksIsFirstFault(bs, 0, []);
      BlockPerRecord(rs);
      if |bs| == |rs| {
        OneBlockEach(rs, r);
      } else {
        var x :| x in rs && !NoFalseHeading(x);
        assert !Faithful(x);
      }
    }
  }

  lemma {:induction false} OneBlockEach(rs: seq<SourceRecord>, r: ParseResult)
    requires forall x | x in rs :: ValidRecord(x)
    requires |DocumentBlocks(rs)| == |rs|
    requires ReportsFirstFault(DocumentBlocks(rs), r)
    ensures forall x | x in rs :: NoFalseHeading(x)
    ensures r == Ok(SectionsOf(rs)) <==> DistinctIds(rs) && forall x | x in rs :: SymbolKept(x) && MarketKept(x)
    ensures DistinctIds(rs) ==> r.Ok?
  {
    hide ValidRecord, NoFalseHeading, SymbolKept, MarketKept, IsHeading, BlockFault, BlockSection, BlockId, TailLines, HeadingElement, DocumentBlocks;
    var bs := DocumentBlocks(rs);
    BlockPerRecord(rs);
    forall i | 0 <= i < |rs|
      ensures IsHeading(bs[i].heading) && BlockId(bs[i]) == Some(rs[i].dateId)
      ensures BlockSection(bs[i]) == SectionOf(rs[i]) <==> SymbolKept(rs[i]) && MarketKept(rs[i])
      ensures forall seen :: BlockFault(seen, bs[i]) == if rs[i].dateId in seen then Some(DuplicateSection(rs[i].dateId)) else None
    {
      RecordBlockReads(rs[i]);
    }
    assert DistinctIds(rs) <==> Faultless(bs, |bs|) by {
      if !DistinctIds(rs) {
        var i, j :| 0 <= i < j < |rs| && rs[i].dateId == rs[j].dateId;
        assert BlockId(bs[i]).value in IdsBefore(bs, j);
        assert FaultAt(bs, j).Some?;
      }
    }
    if r.Ok? {
      assert r.value == SectionsOf(rs) <==> forall i | 0 <= i < |rs| :: BlockSection(bs[i]) == SectionOf(rs[i]);
      assert (forall x | x in rs :: SymbolKept(x) && MarketKept(x)) <==>
             forall i | 0 <= i < |rs| :: SymbolKept(rs[i]) && MarketKept(rs[i]);
    }
  }

  predicate SingleLineFields(r: SourceRecord) {
    && SingleLine(r.sourceName) && SingleLine(r.summary)
    && (r.symbol.Some? ==> SingleLine(r.symbol.value))
    && (r.market.Some? ==> SingleLine(r.market.value))
    && (r.sourceUrl.Some? ==> SingleLine(r.sourceUrl.value))
  }

  /** One-line fields are always read back. */
  lemma {:induction false} SingleLineRoundTrip(rs: seq<SourceRecord>)
    requires rs != [] && DistinctIds(rs)
    requires forall r | r in rs :: ValidRecord(r) && SingleLineFields(r)
    ensures ParseMeaning(Rendered(rs)) == Ok(SectionsOf(rs))
  {
    hide ValidRecord, SingleLineFields, ParseMeaning, Rendered, Faithful;
    forall r | r in rs ensures Faithful(r) {
      SingleLineIsFaithful(r);
    }
    RoundTripExactly(rs);
  }

  lemma {:induction false} SingleLineIsFaithful(r: SourceRecord)
    requires ValidRecord(r) && SingleLineFields(r)
    ensures Faithful(r)
  {
    hide IsCanonical, SplitLines, IsHeading, ExtractFieldValue, SingleLine, Trimmed;
    SingleLineSplit(r.sourceName);
    SingleLineSplit(r.summary);
    if r.symbol.Some? { SingleLineSplit(r.symbol.value); }
    if r.market.Some? { SingleLineSplit(r.market.value); }
    if r.sourceUrl.Some? { SingleLineSplit(r.sourceUrl.value); }
  }

  /** A second line in a summary that looks like a heading: still a valid record, never read back. */
  lemma {:induction false} HeadingInSummaryBreaksRoundTrip(rs: seq<SourceRecord>, r: SourceRecord, id: string)
    requires forall x | x in rs :: ValidRecord(x)
    requires ValidRecord(r) && SingleLine(r.summary) && IsCanonical(id)
    ensures var bad := r.(summary := r.summary + "\n" + HeadingElement(id));
      ValidRecord(bad) && (bad in rs ==> ParseMeaning(Rendered(rs)) != Ok(SectionsOf(rs)))
  {
    hide IsCanonical, IsHeading, HeadingElement, SplitLines, ParseMeaning, Rendered, SymbolKept, MarketKept, SingleLine, HeadingId;
    var h := HeadingElement(id);
    var v := r.summary + "\n" + h;
    var bad := r.(summary := v);
    OwnHeading(id);
    HeadingEnds(id);
    SplitLinesAppend(r.summary, h);
    assert v[|v| - 1] == h[|h| - 1];
    SingleLineSplit(r.summary);
    assert SplitLines(v) == [r.summary, h];
    assert h in Continuation(v);
    assert h in Continuations(bad);
    assert !Faithful(bad);
    if bad in rs {
      RoundTripExactly(rs);
    }
  }

  lemma HeadingEnds(id: string)
    ensures var h := HeadingElement(id); h != "" && !IsSpace(h[|h| - 1])
  {
  }
}
