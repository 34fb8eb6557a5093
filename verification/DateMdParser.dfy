/**
 The one-pass Date.md reader and its meaning.

 The reader walks the lines once, holding the open section in mutable state. Its meaning
 is stated separately: cut the lines at headings, then check each block on its own.
 */
module DateMdParser {
  import opened Wrappers
  import opened PyText
  import opened DateIds

  const FIELD_SOURCE_TIMESTAMP := "**source_timestamp:**"
  const FIELD_SUMMARY := "**summary:**"
  const FIELD_PAYLOAD_HASH := "**payload_hash:**"
  const SYMBOL_LINE_PREFIX := "- **symbol:**"
  const MARKET_LINE_PREFIX := "- **market:**"

  datatype Section = Section(
    dateId: string, symbol: Option<string>, market: Option<string>,
    hasSourceTimestamp: bool, hasSummary: bool, hasPayloadHash: bool)

  datatype ParseError =
    | EmptyDocument
    | NoSections
    | InvalidHeading(token: string)
    | DuplicateSection(dateId: string)
    | MissingSourceTimestamp(dateId: string)
    | MissingSummary(dateId: string)
    | MissingPayloadHash(dateId: string)

  type ParseResult = Result<seq<Section>, ParseError>

  /** The bracketed token when the stripped line matches `## [token]`. */
  function HeadingToken(line: string): (r: Option<string>)
    ensures r.Some? ==> ']' !in r.value
  {
    var s := Strip(line);
    if |s| >= 6 && StartsWith(s, "## [") && s[|s| - 1] == ']' && ']' !in s[4..|s| - 1]
    then Some(s[4..|s| - 1])
    else None
  }

  predicate IsHeading(line: string) {
    HeadingToken(line).Some?
  }

  function ExtractFieldValue(line: string, prefix: string): (r: Option<string>)
    ensures r.Some? ==> r.value != "" && Trimmed(r.value)
  {
    var s := Strip(line);
    if !StartsWith(s, prefix) then None
    else
      var value := Strip(s[|prefix|..]);
      if value == "" then None else Some(value)
  }

  // ---------------------------------------------------------------- meaning

  /** A heading line with the lines up to the next heading. */
  datatype Block = Block(heading: string, body: seq<string>)

  function BodyLength(lines: seq<string>): (n: nat)
    ensures n <= |lines|
  {
    if lines == [] || IsHeading(lines[0]) then 0 else 1 + BodyLength(lines[1..])
  }

  function SplitBlocks(lines: seq<string>): (bs: seq<Block>)
    ensures AllHeaded(bs)
    decreases |lines|
  {
    if lines == [] then []
    else if IsHeading(lines[0]) then
      var n := BodyLength(lines[1..]);
      [Block(lines[0], lines[1..1 + n])] + SplitBlocks(lines[1 + n..])
    else SplitBlocks(lines[1..])
  }

  function Reassemble(bs: seq<Block>): seq<string> {
    if bs == [] then [] else [bs[0].heading] + bs[0].body + Reassemble(bs[1..])
  }

  predicate AnyLineContains(body: seq<string>, field: string) {
    exists l | l in body :: Contains(l, field)
  }

  /** The last line of the body that carries a non-blank value wins. */
  function LastValue(body: seq<string>, prefix: string): Option<string> {
    if body == [] then None
    else
      var v := ExtractFieldValue(body[|body| - 1], prefix);
      if v.Some? then v else LastValue(body[..|body| - 1], prefix)
  }

  function HeadingText(line: string): string
    requires IsHeading(line)
  {
    Strip(HeadingToken(line).value)
  }

  function HeadingId(line: string): Option<string>
    requires IsHeading(line)
  {
    CanonicalDateId(HeadingText(line))
  }

  function BlockId(b: Block): Option<string>
    requires IsHeading(b.heading)
  {
    HeadingId(b.heading)
  }

  function SectionFault(seen: set<string>, id: string, timestamp: bool, summary: bool, hash: bool): Option<ParseError> {
    if id in seen then Some(DuplicateSection(id))
    else if !timestamp then Some(MissingSourceTimestamp(id))
    else if !summary then Some(MissingSummary(id))
    else if !hash then Some(MissingPayloadHash(id))
    else None
  }

  /** What is wrong with one block, given the ids used before it. */
  function BlockFault(seen: set<string>, b: Block): (e: Option<ParseError>)
    requires IsHeading(b.heading)
    ensures e.None? ==> BlockId(b).Some? && BlockId(b).value !in seen
  {
    match BlockId(b)
    case None => Some(InvalidHeading(HeadingText(b.heading)))
    case Some(id) =>
      SectionFault(seen, id,
                   AnyLineContains(b.body, FIELD_SOURCE_TIMESTAMP),
                   AnyLineContains(b.body, FIELD_SUMMARY),
                   AnyLineContains(b.body, FIELD_PAYLOAD_HASH))
  }

  function BlockSection(b: Block): Section
    requires IsHeading(b.heading) && BlockId(b).Some?
  {
    Section(BlockId(b).value, LastValue(b.body, SYMBOL_LINE_PREFIX), LastValue(b.body, MARKET_LINE_PREFIX),
            AnyLineContains(b.body, FIELD_SOURCE_TIMESTAMP),
            AnyLineContains(b.body, FIELD_SUMMARY),
            AnyLineContains(b.body, FIELD_PAYLOAD_HASH))
  }

  /** Some line of the block holds the text. */
  predicate Mentions(b: Block, text: string) {
    exists l | l in b.body :: Contains(l, text)
  }

  /** What each error says of the block it is reported for, in the order the checks are made. */
  predicate Describes(e: ParseError, seen: set<string>, b: Block)
    requires IsHeading(b.heading)
  {
    match e
    case InvalidHeading(token) => BlockId(b).None? && token == HeadingText(b.heading)
    case DuplicateSection(id) => BlockId(b) == Some(id) && id in seen
    case MissingSourceTimestamp(id) => BlockId(b) == Some(id) && id !in seen && !Mentions(b, "**source_timestamp:**")
    case MissingSummary(id) =>
      BlockId(b) == Some(id) && id !in seen && Mentions(b, "**source_timestamp:**") && !Mentions(b, "**summary:**")
    case MissingPayloadHash(id) =>
      && BlockId(b) == Some(id) && id !in seen
      && Mentions(b, "**source_timestamp:**") && Mentions(b, "**summary:**") && !Mentions(b, "**payload_hash:**")
    case EmptyDocument => false
    case NoSections => false
  }

  lemma FieldTexts()
    ensures FIELD_SOURCE_TIMESTAMP == "**source_timestamp:**" && FIELD_SUMMARY == "**summary:**" && FIELD_PAYLOAD_HASH == "**payload_hash:**"
    ensures SYMBOL_LINE_PREFIX == "- **symbol:**" && MARKET_LINE_PREFIX == "- **market:**"
  {
  }

  /** A block is reported with an error exactly when the error describes it; a good block has a new id and all three parts. */
  lemma {:induction false} FaultExactly(seen: set<string>, b: Block)
    requires IsHeading(b.heading)
    ensures forall e :: BlockFault(seen, b) == Some(e) <==> Describes(e, seen, b)
    ensures BlockFault(seen, b).None? <==>
      && BlockId(b).Some? && BlockId(b).value !in seen
      && Mentions(b, "**source_timestamp:**") && Mentions(b, "**summary:**") && Mentions(b, "**payload_hash:**")
  {
    hide FIELD_SOURCE_TIMESTAMP, FIELD_SUMMARY, FIELD_PAYLOAD_HASH, Contains, IsHeading, HeadingText, BlockId;
    FieldTexts();
  }

  /** A heading is `## [token]` up to surrounding whitespace, with a non-empty token free of `]`. */
  lemma {:induction false} HeadingExactly(line: string, token: string)
    ensures HeadingToken(line) == Some(token) <==> Strip(line) == "## [" + token + "]" && token != "" && ']' !in token
  {
    hide Strip;
    var s := Strip(line);
    if s == "## [" + token + "]" {
      assert s[4..|s| - 1] == token && s[..4] == "## [";
    }
    if HeadingToken(line) == Some(token) {
      assert s == s[..4] + s[4..|s| - 1] + s[|s| - 1..];
    }
  }

  /** A line gives a value when, stripped, it is the prefix followed by that value and whitespace. */
  lemma {:induction false} FieldExactly(line: string, prefix: string, value: string)
    ensures ExtractFieldValue(line, prefix) == Some(value) <==>
            value != "" && exists rest :: Strip(line) == prefix + rest && Strip(rest) == value
  {
    hide Strip;
    var s := Strip(line);
    if StartsWith(s, prefix) {
      assert s == prefix + s[|prefix|..];
    }
    forall rest | s == prefix + rest ensures rest == s[|prefix|..] {}
  }

  /** Line `k` gives the value and no later line gives any. */
  predicate GivenLastAt(body: seq<string>, prefix: string, value: string, k: int) {
    && 0 <= k < |body| && ExtractFieldValue(body[k], prefix) == Some(value)
    && forall j | k < j < |body| :: ExtractFieldValue(body[j], prefix).None?
  }

  lemma {:induction false} LastValueExactly(body: seq<string>, prefix: string, value: string)
    ensures LastValue(body, prefix) == Some(value) <==> exists k :: GivenLastAt(body, prefix, value, k)
  {
    hide ExtractFieldValue;
    if body != [] {
      var n := |body| - 1;
      var init := body[..n];
      LastValueExactly(init, prefix, value);
      if ExtractFieldValue(body[n], prefix).Some? {
        if LastValue(body, prefix) == Some(value) { assert GivenLastAt(body, prefix, value, n); }
        if k :| GivenLastAt(body, prefix, value, k) { assert k == n; }
      } else {
        if k :| GivenLastAt(init, prefix, value, k) { assert GivenLastAt(body, prefix, value, k); }
        if k :| GivenLastAt(body, prefix, value, k) { assert k < n && GivenLastAt(init, prefix, value, k); }
      }
    }
  }

  /** What the section of a good block says: its id, and the last symbol and market its lines give. */
  lemma {:induction false} SectionExactly(seen: set<string>, b: Block, value: string)
    requires IsHeading(b.heading) && BlockFault(seen, b).None?
    ensures Some(BlockSection(b).dateId) == CanonicalDateId(HeadingToken(b.heading).value)
    ensures BlockSection(b).symbol == Some(value) <==> exists k :: GivenLastAt(b.body, "- **symbol:**", value, k)
    ensures BlockSection(b).market == Some(value) <==> exists k :: GivenLastAt(b.body, "- **market:**", value, k)
    ensures BlockSection(b).hasSourceTimestamp && BlockSection(b).hasSummary && BlockSection(b).hasPayloadHash
  {
    hide SYMBOL_LINE_PREFIX, MARKET_LINE_PREFIX, FIELD_SOURCE_TIMESTAMP, FIELD_SUMMARY, FIELD_PAYLOAD_HASH, AnyLineContains, IsHeading,
         HeadingToken, LastValue, GivenLastAt, CanonicalDateId, BlockId;
    FieldTexts();
    LastValueExactly(b.body, "- **symbol:**", value);
    LastValueExactly(b.body, "- **market:**", value);
    HeadingNames(b);
  }

  lemma HeadingNames(b: Block)
    requires IsHeading(b.heading)
    ensures BlockId(b) == CanonicalDateId(HeadingToken(b.heading).value)
  {
    hide ParseTrimmed, Strip, HeadingToken;
    StripTwice(HeadingToken(b.heading).value);
  }

  lemma StripTwice(s: string)
    ensures Strip(Strip(s)) == Strip(s)
  {
    TrimmedStrips(Strip(s));
  }

  predicate AllHeaded(bs: seq<Block>) {
    forall b | b in bs :: IsHeading(b.heading)
  }

  function SectionIds(sections: seq<Section>): set<string> {
    set s | s in sections :: s.dateId
  }

  function CheckBlocks(done: seq<Section>, bs: seq<Block>): ParseResult
    requires AllHeaded(bs)
    decreases |bs|
  {
    if bs == [] then Ok(done)
    else
      match BlockFault(SectionIds(done), bs[0])
      case Some(e) => Err(e)
      case None => CheckBlocks(done + [BlockSection(bs[0])], bs[1..])
  }

  /** Cut at headings, then check block by block. */
  function ParseMeaning(text: string): ParseResult {
    if Strip(text) == "" then Err(EmptyDocument)
    else
      match CheckBlocks([], SplitBlocks(SplitLines(text)))
      case Err(e) => Err(e)
      case Ok(sections) => if sections == [] then Err(NoSections) else Ok(sections)
  }

  /** The body stops exactly at the next heading. */
  lemma {:induction false} BodyLengthStops(lines: seq<string>)
    ensures var n := BodyLength(lines);
      && (forall i | 0 <= i < n :: !IsHeading(lines[i]))
      && (n < |lines| ==> IsHeading(lines[n]))
  {
    hide IsHeading;
    if lines != [] && !IsHeading(lines[0]) {
      BodyLengthStops(lines[1..]);
    }
  }

  predicate BodiesHaveNoHeading(bs: seq<Block>) {
    forall b | b in bs :: forall l | l in b.body :: !IsHeading(l)
  }

  /** No line is lost or moved by cutting: the preamble and the blocks are the document, and headings only head blocks. */
  lemma {:induction false} BlocksPartitionLines(lines: seq<string>)
    ensures lines == lines[..BodyLength(lines)] + Reassemble(SplitBlocks(lines))
    ensures BodiesHaveNoHeading(SplitBlocks(lines))
    ensures forall l | l in lines[..BodyLength(lines)] :: !IsHeading(l)
  {
    hide *;
    PreambleHasNoHeading(lines);
    BlocksKeepLines(lines);
    BlocksAreCutAtHeadings(lines);
  }

  lemma {:induction false} BlocksKeepLines(lines: seq<string>)
    ensures lines == lines[..BodyLength(lines)] + Reassemble(SplitBlocks(lines))
    decreases |lines|
  {
    hide IsHeading, BodyLength, SplitBlocks, Reassemble;
    if lines == [] {
      NothingToCut();
    } else {
      var n := BodyLength(lines[1..]);
      if IsHeading(lines[0]) {
        FirstBlockTaken(lines);
        BlocksKeepLines(lines[1 + n..]);
        Rejoin(lines, 1 + n, Reassemble(SplitBlocks(lines[1 + n..])));
      } else {
        LineBeforeHeadings(lines);
        BlocksKeepLines(lines[1..]);
        assert lines[..1 + n] == [lines[0]] + lines[1..][..n];
      }
    }
  }

  lemma Rejoin<T>(xs: seq<T>, k: nat, tail: seq<T>)
    requires k <= |xs| && xs[k..] == xs[k..][..0] + tail
    ensures xs == xs[..0] + (xs[..k] + tail)
  {
    assert xs == xs[..k] + xs[k..];
    assert xs[k..] == tail;
  }

  lemma {:induction false} BlocksAreCutAtHeadings(lines: seq<string>)
    ensures BodiesHaveNoHeading(SplitBlocks(lines))
    decreases |lines|
  {
    hide IsHeading, BodyLength, SplitBlocks, Reassemble, BodiesHaveNoHeading;
    if lines == [] {
      NothingToCut();
    } else if IsHeading(lines[0]) {
      var n := BodyLength(lines[1..]);
      FirstBlockTaken(lines);
      BlocksAreCutAtHeadings(lines[1 + n..]);
      PreambleHasNoHeading(lines[1..]);
      assert lines[1..1 + n] == lines[1..][..n];
      BodiesGrow(Block(lines[0], lines[1..1 + n]), SplitBlocks(lines[1 + n..]));
    } else {
      LineBeforeHeadings(lines);
      BlocksAreCutAtHeadings(lines[1..]);
    }
  }

  lemma NothingToCut()
    ensures BodyLength([]) == 0 && Reassemble(SplitBlocks([])) == [] && BodiesHaveNoHeading(SplitBlocks([]))
  {
    hide IsHeading;
  }

  lemma PreambleHasNoHeading(lines: seq<string>)
    ensures forall l | l in lines[..BodyLength(lines)] :: !IsHeading(l)
  {
    hide IsHeading, BodyLength;
    BodyLengthStops(lines);
  }

  lemma LineBeforeHeadings(lines: seq<string>)
    requires lines != [] && !IsHeading(lines[0])
    ensures BodyLength(lines) == 1 + BodyLength(lines[1..]) && SplitBlocks(lines) == SplitBlocks(lines[1..])
  {
    hide IsHeading;
  }

  lemma BodiesGrow(b: Block, bs: seq<Block>)
    requires (forall l | l in b.body :: !IsHeading(l)) && BodiesHaveNoHeading(bs)
    ensures BodiesHaveNoHeading([b] + bs)
  {
    hide IsHeading;
  }

  lemma ReassembleFirst(b: Block, bs: seq<Block>)
    ensures Reassemble([b] + bs) == [b.heading] + b.body + Reassemble(bs)
  {
    assert ([b] + bs)[1..] == bs;
  }

  lemma HeadingCut(lines: seq<string>)
    requires lines != [] && IsHeading(lines[0])
    ensures BodyLength(lines) == 0
    ensures var n := BodyLength(lines[1..]);
      SplitBlocks(lines) == [Block(lines[0], lines[1..1 + n])] + SplitBlocks(lines[1 + n..])
  {
    hide IsHeading;
  }

  lemma {:induction false} FirstBlockTaken(lines: seq<string>)
    requires lines != [] && IsHeading(lines[0])
    ensures BodyLength(lines) == 0
    ensures var n := BodyLength(lines[1..]); var rest := lines[1 + n..];
      && BodyLength(rest) == 0
      && SplitBlocks(lines) == [Block(lines[0], lines[1..1 + n])] + SplitBlocks(rest)
      && Reassemble(SplitBlocks(lines)) == lines[..1 + n] + Reassemble(SplitBlocks(rest))
  {
    hide IsHeading, SplitBlocks, Reassemble, BodyLength;
    var n := BodyLength(lines[1..]);
    var rest := lines[1 + n..];
    HeadingCut(lines);
    BodyLengthStops(lines[1..]);
    if rest == [] {
      NothingToCut();
    } else {
      assert rest[0] == lines[1..][n];
      HeadingCut(rest);
    }
    var b := Block(lines[0], lines[1..1 + n]);
    ReassembleFirst(b, SplitBlocks(rest));
    assert [b.heading] + b.body == lines[..1 + n];
  }

  // ------------------------------------------------- first offending block

  /** The ids of the blocks before position `k`. */
  function IdsBefore(bs: seq<Block>, k: nat): set<string>
    requires AllHeaded(bs) && k <= |bs|
  {
    set i | 0 <= i < k && BlockId(bs[i]).Some? :: BlockId(bs[i]).value
  }

  function FaultAt(bs: seq<Block>, k: nat): Option<ParseError>
    requires AllHeaded(bs) && k < |bs|
  {
    BlockFault(IdsBefore(bs, k), bs[k])
  }

  predicate Faultless(bs: seq<Block>, n: nat)
    requires AllHeaded(bs) && n <= |bs|
  {
    forall i | 0 <= i < n :: FaultAt(bs, i).None?
  }

  /** Every block reads as a section and the document has no other section. */
  predicate ReadsAs(bs: seq<Block>, sections: seq<Section>)
    requires AllHeaded(bs)
  {
    && |sections| == |bs|
    && forall i | 0 <= i < |bs| :: BlockId(bs[i]).Some? && sections[i] == BlockSection(bs[i])
  }

  /** The outcome of checking blocks in order, without recursion. */
  ghost predicate ReportsFirstFault(bs: seq<Block>, r: ParseResult)
    requires AllHeaded(bs)
  {
    match r
    case Ok(sections) => Faultless(bs, |bs|) && ReadsAs(bs, sections)
    case Err(e) => exists n | 0 <= n < |bs| :: Faultless(bs, n) && FaultAt(bs, n) == Some(e)
  }

  lemma {:induction false} DoneIdsAreIdsBefore(bs: seq<Block>, k: nat, done: seq<Section>)
    requires AllHeaded(bs) && k <= |bs| && ReadsAs(bs[..k], done)
    ensures SectionIds(done) == IdsBefore(bs, k)
  {
    hide IsHeading, BlockId;
    forall i | 0 <= i < k ensures done[i].dateId == BlockId(bs[i]).value && BlockId(bs[i]).Some? {
      assert bs[..k][i] == bs[i];
    }
    forall x | x in IdsBefore(bs, k) ensures x in SectionIds(done) {
      var i :| 0 <= i < k && BlockId(bs[i]).Some? && BlockId(bs[i]).value == x;
      assert done[i] in done;
    }
  }

  lemma {:induction false} CheckBlocksIsFirstFault(bs: seq<Block>, k: nat, done: seq<Section>)
    requires AllHeaded(bs) && k <= |bs|
    requires Faultless(bs, k) && ReadsAs(bs[..k], done)
    ensures ReportsFirstFault(bs, CheckBlocks(done, bs[k..]))
    decreases |bs| - k
  {
    hide IsHeading, BlockSection, BlockFault, BlockId;
    DoneIdsAreIdsBefore(bs, k, done);
    if k == |bs| {
      assert bs[..k] == bs;
    } else {
      assert bs[k..][0] == bs[k] && bs[k..][1..] == bs[k + 1..];
      if FaultAt(bs, k).None? {
        assert bs[..k + 1] == bs[..k] + [bs[k]];
        CheckBlocksIsFirstFault(bs, k + 1, done + [BlockSection(bs[k])]);
      }
    }
  }

  /**
   The meaning without recursion: a document is read into one section per block exactly
   when no block is at fault, and otherwise the error is that of the first block at fault.
   */
  lemma {:induction false} ParseReportsFirstOffendingBlock(text: string)
    requires Strip(text) != ""
    ensures var bs := SplitBlocks(SplitLines(text));
      if bs == [] then ParseMeaning(text) == Err(NoSections)
      else ReportsFirstFault(bs, ParseMeaning(text))
  {
    hide Strip, SplitLines, IsHeading, BlockSection, BlockFault, BlockId;
    var bs := SplitBlocks(SplitLines(text));
    assert bs[0..] == bs && bs[..0] == [];
    CheckBlocksIsFirstFault(bs, 0, []);
  }

  /** Ids of a readable document are canonical and never repeat. */
  lemma {:induction false} ParsedIdsDistinct(text: string)
    requires ParseMeaning(text).Ok?
    ensures var sections := ParseMeaning(text).value;
      && sections != []
      && (forall i | 0 <= i < |sections| :: IsCanonical(sections[i].dateId))
      && (forall i, j | 0 <= i < j < |sections| :: sections[i].dateId != sections[j].dateId)
  {
    hide Strip, SplitLines, IsHeading, IsCanonical, CanonicalDateId;
    ParseReportsFirstOffendingBlock(text);
    var bs := SplitBlocks(SplitLines(text));
    var sections := ParseMeaning(text).value;
    forall i, j | 0 <= i < j < |sections| ensures sections[i].dateId != sections[j].dateId {
      assert FaultAt(bs, j).None?;
      assert BlockId(bs[i]).value in IdsBefore(bs, j);
    }
  }

  // -------------------------------------------------------- one-pass reader

  /** The reader's state: closed sections, used ids, and the section being filled. */
  class SectionReader {
    var sections: seq<Section>
    var seen: set<string>
    var current: Option<string>
    var symbol: Option<string>
    var market: Option<string>
    var hasSourceTimestamp: bool
    var hasSummary: bool
    var hasPayloadHash: bool

    constructor ()
      ensures sections == [] && seen == {} && Closed()
    {
      sections, seen := [], {};
      current, symbol, market := None, None, None;
      hasSourceTimestamp, hasSummary, hasPayloadHash := false, false, false;
    }

    predicate Closed()
      reads this
    {
      && current.None? && symbol.None? && market.None?
      && !hasSourceTimestamp && !hasSummary && !hasPayloadHash
    }

    /** The open section is exactly what the lines of `b` so far say. */
    ghost predicate Filling(b: Block)
      reads this
    {
      && IsHeading(b.heading)
      && current.Some? && BlockId(b) == current
      && symbol == LastValue(b.body, SYMBOL_LINE_PREFIX)
      && market == LastValue(b.body, MARKET_LINE_PREFIX)
      && hasSourceTimestamp == AnyLineContains(b.body, FIELD_SOURCE_TIMESTAMP)
      && hasSummary == AnyLineContains(b.body, FIELD_SUMMARY)
      && hasPayloadHash == AnyLineContains(b.body, FIELD_PAYLOAD_HASH)
    }

    method FlushSection() returns (fault: Option<ParseError>)
      requires current.None? ==> Closed()
      modifies this
      ensures old(current).None? ==> fault.None? && Closed() && sections == old(sections) && seen == old(seen)
      ensures old(current).Some? ==>
        fault == SectionFault(old(seen), old(current).value, old(hasSourceTimestamp), old(hasSummary), old(hasPayloadHash))
      ensures old(current).Some? && fault.None? ==>
        && Closed()
        && seen == old(seen) + {old(current).value}
        && sections == old(sections) + [Section(old(current).value, old(symbol), old(market),
                                                old(hasSourceTimestamp), old(hasSummary), old(hasPayloadHash))]
    {
      if current.None? {
        return None;
      }
      var id := current.value;
      if id in seen {
        return Some(DuplicateSection(id));
      }
      seen := seen + {id};
      if !hasSourceTimestamp {
        return Some(MissingSourceTimestamp(id));
      }
      if !hasSummary {
        return Some(MissingSummary(id));
      }
      if !hasPayloadHash {
        return Some(MissingPayloadHash(id));
      }
      sections := sections + [Section(id, symbol, market, hasSourceTimestamp, hasSummary, hasPayloadHash)];
      current, symbol, market := None, None, None;
      hasSourceTimestamp, hasSummary, hasPayloadHash := false, false, false;
      fault := None;
    }

    method OpenSection(ghost heading: string, id: string)
      requires Closed() && IsHeading(heading) && BlockId(Block(heading, [])) == Some(id)
      modifies `current
      ensures Filling(Block(heading, []))
    {
      hide IsHeading, BlockId;
      current := Some(id);
    }

    method AbsorbLine(ghost b: Block, line: string)
      requires Filling(b)
      modifies `symbol, `market, `hasSourceTimestamp, `hasSummary, `hasPayloadHash
      ensures Filling(Block(b.heading, b.body + [line]))
    {
      hide IsHeading, HeadingId, Contains, ExtractFieldValue, LastValue, AnyLineContains, Trimmed, Closed,
           FIELD_SOURCE_TIMESTAMP, FIELD_SUMMARY, FIELD_PAYLOAD_HASH, SYMBOL_LINE_PREFIX, MARKET_LINE_PREFIX;
      AbsorbedText(b.body, line, FIELD_SOURCE_TIMESTAMP);
      AbsorbedText(b.body, line, FIELD_SUMMARY);
      AbsorbedText(b.body, line, FIELD_PAYLOAD_HASH);
      AbsorbedValue(b.body, line, SYMBOL_LINE_PREFIX);
      AbsorbedValue(b.body, line, MARKET_LINE_PREFIX);
      ghost var next := b.body + [line];
      if Contains(line, FIELD_SOURCE_TIMESTAMP) {
        hasSourceTimestamp := true;
      }
      assert hasSourceTimestamp == AnyLineContains(next, FIELD_SOURCE_TIMESTAMP);
      if Contains(line, FIELD_SUMMARY) {
        hasSummary := true;
      }
      assert hasSummary == AnyLineContains(next, FIELD_SUMMARY);
      if Contains(line, FIELD_PAYLOAD_HASH) {
        hasPayloadHash := true;
      }
      assert hasPayloadHash == AnyLineContains(next, FIELD_PAYLOAD_HASH);
      var symbolValue := ExtractFieldValue(line, SYMBOL_LINE_PREFIX);
      if symbolValue.Some? {
        symbol := symbolValue;
      }
      assert symbol == LastValue(next, SYMBOL_LINE_PREFIX);
      var marketValue := ExtractFieldValue(line, MARKET_LINE_PREFIX);
      if marketValue.Some? {
        market := marketValue;
      }
      assert market == LastValue(next, MARKET_LINE_PREFIX);
    }
  }

  lemma AbsorbedText(body: seq<string>, line: string, field: string)
    ensures AnyLineContains(body + [line], field) <==> AnyLineContains(body, field) || Contains(line, field)
  {
    hide Contains;
    assert line in body + [line] && forall l | l in body :: l in body + [line];
  }

  lemma AbsorbedValue(body: seq<string>, line: string, prefix: string)
    ensures LastValue(body + [line], prefix) ==
            if ExtractFieldValue(line, prefix).Some? then ExtractFieldValue(line, prefix) else LastValue(body, prefix)
  {
    hide ExtractFieldValue;
    assert (body + [line])[..|body|] == body;
  }

  /** What remains to be reported when `done` is closed, `open` is half read and `rest` is unread. */
  ghost function Remaining(done: seq<Section>, open: Option<Block>, rest: seq<string>): ParseResult
    requires open.Some? ==> IsHeading(open.value.heading)
  {
    match open
    case None => CheckBlocks(done, SplitBlocks(rest))
    case Some(b) =>
      var n := BodyLength(rest);
      CheckBlocks(done, [Block(b.heading, b.body + rest[..n])] + SplitBlocks(rest[n..]))
  }

  lemma RemainingSkips(done: seq<Section>, rest: seq<string>)
    requires rest != [] && !IsHeading(rest[0])
    ensures Remaining(done, None, rest) == Remaining(done, None, rest[1..])
  {
  }

  lemma RemainingOpens(done: seq<Section>, rest: seq<string>)
    requires rest != [] && IsHeading(rest[0])
    ensures Remaining(done, None, rest) == Remaining(done, Some(Block(rest[0], [])), rest[1..])
  {
    var n := BodyLength(rest[1..]);
    assert rest[1..][..n] == rest[1..1 + n] == [] + rest[1..][..n];
    assert rest[1..][n..] == rest[1 + n..];
  }

  lemma RemainingAbsorbs(done: seq<Section>, b: Block, rest: seq<string>)
    requires IsHeading(b.heading) && rest != [] && !IsHeading(rest[0])
    ensures Remaining(done, Some(b), rest) == Remaining(done, Some(Block(b.heading, b.body + [rest[0]])), rest[1..])
  {
    hide IsHeading, CheckBlocks, SplitBlocks;
    var n := BodyLength(rest[1..]);
    assert b.body + rest[..1 + n] == b.body + [rest[0]] + rest[1..][..n];
    assert rest[1..][n..] == rest[1 + n..];
  }

  lemma RemainingCloses(done: seq<Section>, b: Block, rest: seq<string>)
    requires IsHeading(b.heading) && (rest == [] || IsHeading(rest[0]))
    ensures Remaining(done, Some(b), rest) ==
            match BlockFault(SectionIds(done), b)
            case Some(e) => Err(e)
            case None => Remaining(done + [BlockSection(b)], None, rest)
  {
    assert rest[..0] == [] && rest[0..] == rest;
    assert b == Block(b.heading, b.body + []);
    var bs := [b] + SplitBlocks(rest);
    assert bs[1..] == SplitBlocks(rest);
  }

  lemma SectionIdsSnoc(done: seq<Section>, s: Section)
    ensures SectionIds(done + [s]) == SectionIds(done) + {s.dateId}
  {
    var all := done + [s];
    assert s in all;
    forall x | x in SectionIds(done) ensures x in SectionIds(all) {
      var t :| t in done && t.dateId == x;
      assert t in all;
    }
  }

  /** `parse_date_md_sections`: the single pass computes the block-by-block meaning of any text. */
  method ParseDateMdSections(text: string) returns (r: ParseResult)
    ensures r == ParseMeaning(text)
  {
    hide HeadingToken, CanonicalDateId, Strip, SplitLines, LastValue, AnyLineContains, CheckBlocks, SplitBlocks, BodyLength;
    if Strip(text) == "" {
      return Err(EmptyDocument);
    }
    var lines := SplitLines(text);
    var reader := new SectionReader();
    ghost var open: Option<Block> := None;
    var i := 0;
    assert lines[0..] == lines;
    RemainingStarts(lines);
    while i < |lines|
      invariant 0 <= i <= |lines|
      invariant reader.seen == SectionIds(reader.sections)
      invariant if open.None? then reader.Closed() else reader.Filling(open.value)
      invariant Remaining(reader.sections, open, lines[i..]) == CheckBlocks([], SplitBlocks(lines))
    {
      var line := lines[i];
      assert lines[i..][0] == line && lines[i..][1..] == lines[i + 1..];
      var token := HeadingToken(line);
      if token.Some? {
        if open.Some? {
          RemainingCloses(reader.sections, open.value, lines[i..]);
          SectionIdsSnoc(reader.sections, BlockSection(open.value));
        }
        var fault := reader.FlushSection();
        if fault.Some? {
          return Err(fault.value);
        }
        RemainingOpens(reader.sections, lines[i..]);
        var id := CanonicalDateId(Strip(token.value));
        if id.None? {
          RemainingRejects(reader.sections, Block(line, []), lines[i + 1..]);
          return Err(InvalidHeading(Strip(token.value)));
        }
        reader.OpenSection(line, id.value);
        open := Some(Block(line, []));
      } else if reader.current.None? {
        RemainingSkips(reader.sections, lines[i..]);
      } else {
        RemainingAbsorbs(reader.sections, open.value, lines[i..]);
        reader.AbsorbLine(open.value, line);
        open := Some(Block(open.value.heading, open.value.body + [line]));
      }
      i := i + 1;
    }
    assert lines[i..] == [];
    if open.Some? {
      RemainingCloses(reader.sections, open.value, []);
    }
    var fault := reader.FlushSection();
    if fault.Some? {
      return Err(fault.value);
    }
    assert Remaining(reader.sections, None, []) == CheckBlocks([], SplitBlocks(lines));
    RemainingEnds(reader.sections);
    if reader.sections == [] {
      return Err(NoSections);
    }
    return Ok(reader.sections);
  }

  lemma RemainingStarts(lines: seq<string>)
    ensures Remaining([], None, lines) == CheckBlocks([], SplitBlocks(lines))
  {
  }

  lemma RemainingEnds(done: seq<Section>)
    ensures Remaining(done, None, []) == Ok(done)
  {
  }

  lemma RemainingRejects(done: seq<Section>, b: Block, rest: seq<string>)
    requires IsHeading(b.heading) && BlockId(b).None?
    ensures Remaining(done, Some(b), rest) == Err(InvalidHeading(HeadingText(b.heading)))
  {
    hide IsHeading, HeadingId, HeadingText, BlockSection, SplitBlocks, AnyLineContains, BodyLength;
  }
}
