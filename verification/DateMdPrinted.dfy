/** What a printed Date.md says: line by line for every record, and label by label for one-line fields. */
module DateMdPrinted {
  import opened Wrappers
  import opened PyText
  import opened DateIds
  import opened SourceRecords
  import opened DateMdParser
  import opened DateMdRender
  import opened DateMdRoundTrip

  // ------------------------------------------------------------- line by line

  /** A label before the first line of a value, then the value's other lines. */
  function Labelled(prefix: string, value: string): seq<string>
    requires value != ""
  {
    [prefix + " " + SplitLines(value)[0]] + SplitLines(value)[1..]
  }

  function LabelledOptional(prefix: string, value: Option<string>): seq<string>
    requires value.Some? ==> value.value != ""
  {
    if value.Some? then Labelled(prefix, value.value) else []
  }

  /** The lines under a record's heading, as the document format promises them. */
  function LinesUnderHeading(r: SourceRecord): seq<string>
    requires ValidRecord(r)
  {
    ["", "- **fact_type:**" + " " + FactName(r.factType)]
    + Labelled("- **source_name:**", r.sourceName)
    + ["- **source_timestamp:**" + " " + r.sourceTimestamp]
    + Labelled("- **summary:**", r.summary)
    + LabelledOptional("- **symbol:**", r.symbol)
    + LabelledOptional("- **market:**", r.market)
    + LabelledOptional("- **source_url:**", r.sourceUrl)
    + ["- **payload_hash:**" + " " + r.payloadHash, ""]
  }

  function LinesOfRecords(rs: seq<SourceRecord>): seq<string>
    requires forall i | 0 <= i < |rs| :: ValidRecord(rs[i])
  {
    if rs == [] then [] else ["## [" + rs[0].dateId + "]"] + LinesUnderHeading(rs[0]) + LinesOfRecords(rs[1..])
  }

  lemma FixedPrefixTexts()
    ensures FieldPrefix("fact_type") == "- **fact_type:**" && FieldPrefix("source_name") == "- **source_name:**"
    ensures FieldPrefix("source_timestamp") == "- **source_timestamp:**" && FieldPrefix("summary") == "- **summary:**"
  {
  }

  lemma OtherPrefixTexts()
    ensures FieldPrefix("symbol") == "- **symbol:**" && FieldPrefix("market") == "- **market:**"
    ensures FieldPrefix("source_url") == "- **source_url:**" && FieldPrefix("payload_hash") == "- **payload_hash:**"
  {
  }

  lemma {:induction false} FieldIsLabelled(name: string, value: string)
    requires IsName(name) && IsText(value)
    ensures FieldLines([Field(name, value)]) == Labelled(FieldPrefix(name), value)
  {
    hide FieldLines, FieldPrefix, SplitLines, IsText, IsName;
    FieldIsText(name, value);
    FieldLinesOne(Field(name, value));
  }

  lemma FieldIsText(name: string, value: string)
    requires IsName(name) && IsText(value)
    ensures IsField(Field(name, value)) && value != ""
  {
  }

  lemma {:induction false} OptionalIsLabelled(name: string, value: Option<string>)
    requires IsName(name) && IsOptionalText(value)
    ensures value.Some? ==> value.value != ""
    ensures FieldLines(OptionalField(name, value)) == LabelledOptional(FieldPrefix(name), value)
  {
    hide FieldPrefix, Labelled, IsName, IsText, FieldElement, FlatLines;
    if value.Some? {
      FieldIsText(name, value.value);
      FieldIsLabelled(name, value.value);
    } else {
      NoFields();
    }
  }

  lemma NoFields()
    ensures FieldLines([]) == []
  {
    assert Elements([]) == [];
  }

  lemma {:induction false} OneLineLabelled(prefix: string, value: string)
    requires value != "" && SingleLine(value)
    ensures Labelled(prefix, value) == [prefix + " " + value]
  {
    hide SplitLines, SingleLine;
    SingleLineSplit(value);
  }

  lemma RecordParts(r: SourceRecord)
    requires ValidRecord(r)
    ensures IsText(r.sourceName) && IsText(r.summary) && IsText(r.sourceTimestamp) && IsText(r.payloadHash) && IsText(FactName(r.factType))
    ensures SingleLine(r.sourceTimestamp) && SingleLine(r.payloadHash) && SingleLine(FactName(r.factType))
    ensures IsOptionalText(r.symbol) && IsOptionalText(r.market) && IsOptionalText(r.sourceUrl)
    ensures r.sourceName != "" && r.summary != "" && r.sourceTimestamp != "" && r.payloadHash != "" && FactName(r.factType) != ""
  {
    hide IsCanonical, Trimmed, SingleLine;
  }

  lemma {:induction false} LeadingLabelled(r: SourceRecord)
    requires ValidRecord(r)
    ensures r.sourceName != "" && r.summary != ""
    ensures FieldLines(LeadingFields(r)) ==
      ["- **fact_type:**" + " " + FactName(r.factType)] + Labelled("- **source_name:**", r.sourceName)
      + ["- **source_timestamp:**" + " " + r.sourceTimestamp] + Labelled("- **summary:**", r.summary)
  {
    hide ValidRecord, FactName, FieldLines, FieldPrefix, Labelled, IsText, SingleLine, IsName;
    RecordParts(r);
    FieldNames();
    FixedPrefixTexts();
    OtherPrefixTexts();
    var fs := LeadingFields(r);
    assert fs == [fs[0]] + [fs[1]] + [fs[2]] + [fs[3]];
    FieldLinesAppend([fs[0]], [fs[1]]);
    FieldLinesAppend([fs[0]] + [fs[1]], [fs[2]]);
    FieldLinesAppend([fs[0]] + [fs[1]] + [fs[2]], [fs[3]]);
    FieldIsLabelled("fact_type", FactName(r.factType));
    FieldIsLabelled("source_name", r.sourceName);
    FieldIsLabelled("source_timestamp", r.sourceTimestamp);
    FieldIsLabelled("summary", r.summary);
    OneLineLabelled("- **fact_type:**", FactName(r.factType));
    OneLineLabelled("- **source_timestamp:**", r.sourceTimestamp);
  }

  lemma {:induction false} TailIsPromised(r: SourceRecord)
    requires ValidRecord(r)
    ensures TailLines(r) == LinesUnderHeading(r)
  {
    hide ValidRecord, FactName, FieldLines, FieldPrefix, Labelled, LabelledOptional, IsText, SingleLine, IsName, LeadingFields, IsOptionalText, OptionalField;
    RecordParts(r);
    FieldNames();
    FixedPrefixTexts();
    OtherPrefixTexts();
    LeadingLabelled(r);
    var (l, s, m, u, h) := (LeadingFields(r), OptionalField("symbol", r.symbol), OptionalField("market", r.market),
                            OptionalField("source_url", r.sourceUrl), [Field("payload_hash", r.payloadHash)]);
    FieldLinesAppend(l, s);
    FieldLinesAppend(l + s, m);
    FieldLinesAppend(l + s + m, u);
    FieldLinesAppend(l + s + m + u, h);
    OptionalIsLabelled("symbol", r.symbol);
    OptionalIsLabelled("market", r.market);
    OptionalIsLabelled("source_url", r.sourceUrl);
    FieldIsLabelled("payload_hash", r.payloadHash);
    OneLineLabelled("- **payload_hash:**", r.payloadHash);
  }

  lemma {:induction false} DocumentIsPromised(rs: seq<SourceRecord>)
    requires forall i | 0 <= i < |rs| :: ValidRecord(rs[i])
    ensures DocumentLines(rs) == LinesOfRecords(rs)
  {
    hide ValidRecord, TailLines, LinesUnderHeading;
    if rs != [] {
      TailIsPromised(rs[0]);
      DocumentIsPromised(rs[1..]);
    }
  }

  /**
   The printed document, line by line: the fixed head, then for each record its heading and its
   fields in order, each label before the first line of the record's own value. Only the final
   empty line is stripped.
   */
  lemma {:induction false} PrintedLines(rs: seq<SourceRecord>)
    requires forall i | 0 <= i < |rs| :: ValidRecord(rs[i])
    ensures SplitLines(Rendered(rs)) + [""] == HEADER + LinesOfRecords(rs)
  {
    hide ValidRecord, SplitLines, Rendered, HEADER, DocumentLines, LinesOfRecords;
    forall r | r in rs ensures ValidRecord(r) {
      var i :| 0 <= i < |rs| && rs[i] == r;
    }
    RenderedLines(rs);
    DocumentIsPromised(rs);
  }

  // ------------------------------------------------------------ label by label

  /** The value of the last field with this name. */
  function LastNamed(fs: seq<Field>, name: string): Option<string> {
    if fs == [] then None
    else if fs[|fs| - 1].name == name then Some(fs[|fs| - 1].value)
    else LastNamed(fs[..|fs| - 1], name)
  }

  lemma {:induction false} LastNamedAppend(a: seq<Field>, b: seq<Field>, name: string)
    ensures LastNamed(a + b, name) == Or(LastNamed(b, name), LastNamed(a, name))
  {
    if b == [] {
      assert a + b == a;
    } else {
      assert (a + b)[..|a + b| - 1] == a + b[..|b| - 1];
      LastNamedAppend(a, b[..|b| - 1], name);
    }
  }

  predicate AreOneLine(fs: seq<Field>) {
    forall i | 0 <= i < |fs| :: IsField(fs[i]) && SingleLine(fs[i].value)
  }

  lemma {:induction false} OneLineFieldsRead(fs: seq<Field>, name: string)
    requires AreOneLine(fs) && IsName(name)
    ensures LastValue(FieldLines(fs), FieldPrefix(name)) == LastNamed(fs, name)
  {
    hide IsField, SingleLine, IsName, FieldLines, FieldPrefix, LastValue, FieldValueRead;
    if fs == [] {
      NoFields();
      LastValueEmpty(FieldPrefix(name));
    } else {
      var init, last := fs[..|fs| - 1], fs[|fs| - 1];
      OneLineFieldsRead(init, name);
      assert fs == init + [last];
      ReadAppend(init, [last], FieldPrefix(name));
      FieldRead(last, name);
      SingleLineFieldRead(last, name);
    }
  }

  lemma {:induction false} OneLineRecord(r: SourceRecord)
    requires ValidRecord(r) && SingleLineFields(r)
    ensures AreOneLine(RecordFields(r))
  {
    hide IsCanonical, IsName, SingleLine, Trimmed, FactName;
    RecordParts(r);
    FieldNames();
  }

  /** The labels under which the eight values are printed. */
  predicate CarriesOwnValues(body: seq<string>, r: SourceRecord) {
    && LastValue(body, "- **fact_type:**") == Some(FactName(r.factType))
    && LastValue(body, "- **source_name:**") == Some(r.sourceName)
    && LastValue(body, "- **source_timestamp:**") == Some(r.sourceTimestamp)
    && LastValue(body, "- **summary:**") == Some(r.summary)
    && LastValue(body, "- **symbol:**") == r.symbol
    && LastValue(body, "- **market:**") == r.market
    && LastValue(body, "- **source_url:**") == r.sourceUrl
    && LastValue(body, "- **payload_hash:**") == Some(r.payloadHash)
  }

  lemma {:induction false} TailRead(r: SourceRecord, name: string)
    requires ValidRecord(r) && SingleLineFields(r) && IsName(name)
    ensures LastValue(TailLines(r), FieldPrefix(name)) == LastNamed(RecordFields(r), name)
  {
    hide ValidRecord, SingleLineFields, IsName, FieldPrefix, FieldLines, LastValue, RecordFields;
    OneLineRecord(r);
    PrefixNonEmpty(name);
    BlankLinesCarryNothing(FieldLines(RecordFields(r)), FieldPrefix(name));
    OneLineFieldsRead(RecordFields(r), name);
  }

  lemma {:induction false} OptionalNamed(label_: string, value: Option<string>, name: string)
    ensures LastNamed(OptionalField(label_, value), name) == if label_ == name then value else None
  {
    assert value.Some? ==> [Field(label_, value.value)][..0] == [];
  }

  /** Which value stands under which name, part by part. */
  lemma {:induction false} NamedValue(r: SourceRecord, name: string)
    ensures LastNamed(RecordFields(r), name) ==
      Or(if name == "payload_hash" then Some(r.payloadHash) else None,
      Or(if name == "source_url" then r.sourceUrl else None,
      Or(if name == "market" then r.market else None,
      Or(if name == "symbol" then r.symbol else None,
         LastNamed(LeadingFields(r), name)))))
  {
    hide FactName, LeadingFields, OptionalField;
    var (l, s, m, u, h) := (LeadingFields(r), OptionalField("symbol", r.symbol), OptionalField("market", r.market),
                            OptionalField("source_url", r.sourceUrl), [Field("payload_hash", r.payloadHash)]);
    LastNamedAppend(l, s, name);
    LastNamedAppend(l + s, m, name);
    LastNamedAppend(l + s + m, u, name);
    LastNamedAppend(l + s + m + u, h, name);
    OptionalNamed("symbol", r.symbol, name);
    OptionalNamed("market", r.market, name);
    OptionalNamed("source_url", r.sourceUrl, name);
    assert h[..0] == [];
  }

  lemma {:induction false} LeadingNamed(r: SourceRecord, name: string)
    ensures LastNamed(LeadingFields(r), name) ==
      if name == "summary" then Some(r.summary)
      else if name == "source_timestamp" then Some(r.sourceTimestamp)
      else if name == "source_name" then Some(r.sourceName)
      else if name == "fact_type" then Some(FactName(r.factType))
      else None
  {
    hide FactName;
    var fs := LeadingFields(r);
    assert fs[..3][..2] == fs[..2] && fs[..2][..1] == fs[..1] && fs[..1][..0] == [];
    assert LastNamed(fs[..1], name) == if name == "fact_type" then Some(fs[0].value) else None;
    assert LastNamed(fs[..2], name) == if name == "source_name" then Some(fs[1].value) else LastNamed(fs[..1], name);
    assert LastNamed(fs[..3], name) == if name == "source_timestamp" then Some(fs[2].value) else LastNamed(fs[..2], name);
  }

  lemma NamesDiffer()
    ensures |"fact_type"| == 9 && |"source_name"| == 11 && |"source_timestamp"| == 16 && |"summary"| == 7
    ensures |"symbol"| == 6 && |"market"| == 6 && "symbol" != "market" && |"source_url"| == 10 && |"payload_hash"| == 12
  {
    assert "symbol"[0] == 's' && "market"[0] == 'm';
  }

  /** A one-line record's block carries each of its eight values under that value's label. */
  lemma {:induction false} TailCarriesOwnValues(r: SourceRecord)
    requires ValidRecord(r) && SingleLineFields(r)
    ensures CarriesOwnValues(TailLines(r), r)
  {
    hide ValidRecord, SingleLineFields, FieldPrefix, LastValue, TailLines, FactName, LastNamed, RecordFields, LeadingFields, IsName;
    FixedPrefixTexts();
    OtherPrefixTexts();
    FieldNames();
    NamesDiffer();
    forall name | IsName(name) ensures LastValue(TailLines(r), FieldPrefix(name)) == LastNamed(RecordFields(r), name) {
      TailRead(r, name);
    }
    forall name ensures LastNamed(RecordFields(r), name) ==
      Or(if name == "payload_hash" then Some(r.payloadHash) else None,
      Or(if name == "source_url" then r.sourceUrl else None,
      Or(if name == "market" then r.market else None,
      Or(if name == "symbol" then r.symbol else None,
      if name == "summary" then Some(r.summary)
      else if name == "source_timestamp" then Some(r.sourceTimestamp)
      else if name == "source_name" then Some(r.sourceName)
      else if name == "fact_type" then Some(FactName(r.factType))
      else None))))
    {
      NamedValue(r, name);
      LeadingNamed(r, name);
    }
  }

  /**
   Every block of a printed document of one-line records carries its record's id and, under each
   label, the record's own value; an absent optional value is nowhere.
   */
  lemma {:induction false} BlocksCarryOwnValues(rs: seq<SourceRecord>)
    requires forall i | 0 <= i < |rs| :: ValidRecord(rs[i]) && SingleLineFields(rs[i])
    ensures var bs := SplitBlocks(SplitLines(Rendered(rs)));
      && |bs| == |rs|
      && forall i | 0 <= i < |rs| ::
           IsHeading(bs[i].heading) && BlockId(bs[i]) == Some(rs[i].dateId) && CarriesOwnValues(bs[i].body, rs[i])
  {
    hide ValidRecord, SingleLineFields, SplitLines, Rendered, SplitBlocks, CarriesOwnValues, TailLines, HeadingElement, IsHeading, HeadingId, Faithful,
         NoFalseHeading, SymbolKept, MarketKept, BlockFault, BlockSection, DocumentBlocks;
    forall r | r in rs ensures ValidRecord(r) && NoFalseHeading(r) {
      var i :| 0 <= i < |rs| && rs[i] == r;
      SingleLineIsFaithful(r);
      FaithfulHasNoHeading(r);
    }
    RenderedBlocks(rs);
    BlockPerRecord(rs);
    var bs := SplitBlocks(SplitLines(Rendered(rs)));
    assert WithBlankEnd(bs) == DocumentBlocks(rs);
    forall i | 0 <= i < |rs|
      ensures IsHeading(bs[i].heading) && BlockId(bs[i]) == Some(rs[i].dateId) && CarriesOwnValues(bs[i].body, rs[i])
    {
      var b := WithBlankEnd(bs)[i];
      RecordBlockReads(rs[i]);
      TailCarriesOwnValues(rs[i]);
      assert b == Block(HeadingElement(rs[i].dateId), TailLines(rs[i]));
      assert bs[i].heading == b.heading;
      if i == |rs| - 1 {
        BlankEndCarriesNothing(bs[i].body, rs[i]);
      }
    }
  }

  lemma FaithfulHasNoHeading(r: SourceRecord)
    requires ValidRecord(r) && Faithful(r)
    ensures NoFalseHeading(r)
  {
    hide NoFalseHeading, SymbolKept, MarketKept;
  }

  lemma {:induction false} BlankEnd(body: seq<string>, prefix: string)
    requires prefix != ""
    ensures LastValue(body + [""], prefix) == LastValue(body, prefix)
  {
    hide ExtractFieldValue, LastValue;
    BlankCarriesNothing(prefix);
    LastValueOne("", prefix);
    LastValueAppend(body, [""], prefix);
  }

  lemma {:induction false} BlankEndCarriesNothing(body: seq<string>, r: SourceRecord)
    requires CarriesOwnValues(body + [""], r)
    ensures CarriesOwnValues(body, r)
  {
    hide LastValue, FactName;
    BlankEnd(body, "- **fact_type:**");
    BlankEnd(body, "- **source_name:**");
    BlankEnd(body, "- **source_timestamp:**");
    BlankEnd(body, "- **summary:**");
    BlankEnd(body, "- **symbol:**");
    BlankEnd(body, "- **market:**");
    BlankEnd(body, "- **source_url:**");
    BlankEnd(body, "- **payload_hash:**");
  }
}
