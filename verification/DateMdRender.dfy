/** Printing records as Date.md. */
module DateMdRender {
  import opened Wrappers
  import opened PyText
  import opened DateIds
  import opened SourceRecords
  import opened DateMdParser

  /** The fixed head of the document; long literals are joined from short ones, which the verifier can look into. */
  const HEADER: seq<string> := [
    "# Date.md \U{2014} " + "Read-only Prompt Reference",
    "",
    "> SQLiteDateIdSourceStore " + "is the canonical store.",
    "> This file is " + "generated for LLM prompts" + " only. Do not treat it" + " as canonical storage.",
    ""
  ]

  datatype Field = Field(name: string, value: string)

  function FieldPrefix(name: string): string {
    "- **" + name + ":**"
  }

  function FieldElement(f: Field): string {
    FieldPrefix(f.name) + " " + f.value
  }

  function OptionalField(name: string, value: Option<string>): seq<Field> {
    if value.Some? then [Field(name, value.value)] else []
  }

  function LeadingFields(r: SourceRecord): seq<Field> {
    [Field("fact_type", FactName(r.factType)), Field("source_name", r.sourceName),
     Field("source_timestamp", r.sourceTimestamp), Field("summary", r.summary)]
  }

  function RecordFields(r: SourceRecord): seq<Field> {
    LeadingFields(r)
    + OptionalField("symbol", r.symbol) + OptionalField("market", r.market) + OptionalField("source_url", r.sourceUrl)
    + [Field("payload_hash", r.payloadHash)]
  }

  function Elements(fs: seq<Field>): (ls: seq<string>)
    ensures |ls| == |fs| && forall i | 0 <= i < |fs| :: ls[i] == FieldElement(fs[i])
  {
    seq(|fs|, i requires 0 <= i < |fs| => FieldElement(fs[i]))
  }

  function HeadingElement(id: string): string {
    "## [" + id + "]"
  }

  function RecordElements(r: SourceRecord): seq<string> {
    [HeadingElement(r.dateId), ""] + Elements(RecordFields(r)) + [""]
  }

  function AllElements(rs: seq<SourceRecord>): seq<string> {
    if rs == [] then [] else RecordElements(rs[0]) + AllElements(rs[1..])
  }

  function Rendered(rs: seq<SourceRecord>): string {
    RStrip(JoinLines(HEADER + AllElements(rs))) + "\n"
  }

  lemma AllElementsSnoc(rs: seq<SourceRecord>, r: SourceRecord)
    ensures AllElements(rs + [r]) == AllElements(rs) + RecordElements(r)
  {
    hide RecordElements;
    if rs == [] {
      assert [r][1..] == [] && rs + [r] == [r];
    } else {
      assert (rs + [r])[1..] == rs[1..] + [r];
      AllElementsSnoc(rs[1..], r);
    }
  }

  lemma ElementsAppend(a: seq<Field>, b: seq<Field>)
    ensures Elements(a + b) == Elements(a) + Elements(b)
  {
    hide FieldElement;
  }

  method AppendOptional(lines: seq<string>, ghost fs: seq<Field>, name: string, value: Option<string>) returns (r: seq<string>)
    ensures forall h: seq<string> :: lines == h + Elements(fs) ==> r == h + Elements(fs + OptionalField(name, value))
  {
    hide FieldElement;
    ElementsAppend(fs, OptionalField(name, value));
    r := lines;
    if value.Some? {
      r := r + [FieldElement(Field(name, value.value))];
    }
  }

  /** One record's lines: heading, fixed fields, then each optional field only when present. */
  method AppendRecord(lines: seq<string>, r: SourceRecord) returns (grown: seq<string>)
    ensures grown == lines + RecordElements(r)
  {
    hide FieldElement, FactName, HeadingElement, OptionalField;
    ghost var h := lines + [HeadingElement(r.dateId), ""];
    ghost var fs := LeadingFields(r);
    grown := lines + [HeadingElement(r.dateId), "",
                      FieldElement(Field("fact_type", FactName(r.factType))),
                      FieldElement(Field("source_name", r.sourceName)),
                      FieldElement(Field("source_timestamp", r.sourceTimestamp)),
                      FieldElement(Field("summary", r.summary))];
    assert grown == h + Elements(fs);
    grown := AppendOptional(grown, fs, "symbol", r.symbol);
    fs := fs + OptionalField("symbol", r.symbol);
    grown := AppendOptional(grown, fs, "market", r.market);
    fs := fs + OptionalField("market", r.market);
    grown := AppendOptional(grown, fs, "source_url", r.sourceUrl);
    fs := fs + OptionalField("source_url", r.sourceUrl);
    ElementsAppend(fs, [Field("payload_hash", r.payloadHash)]);
    grown := grown + [FieldElement(Field("payload_hash", r.payloadHash))];
    grown := grown + [""];
  }

  /** `render_date_md`: the list of lines grows record by record. */
  method RenderDateMd(records: seq<SourceRecord>) returns (text: string)
    ensures text == Rendered(records)
  {
    hide RStrip, JoinLines, AllElements, RecordElements;
    var lines := HEADER;
    AllElementsEmpty();
    for i := 0 to |records|
      invariant lines == HEADER + AllElements(records[..i])
    {
      lines := AppendRecord(lines, records[i]);
      AllElementsSnoc(records[..i], records[i]);
      assert records[..i + 1] == records[..i] + [records[i]];
    }
    assert records[..|records|] == records;
    text := RStrip(JoinLines(lines)) + "\n";
  }

  lemma AllElementsEmpty()
    ensures AllElements([]) == []
  {
  }
}
