/** Evidence records as `DateIdSourceRecord` validates them. */
module SourceRecords {
  import opened Wrappers
  import opened PyText
  import opened DateIds

  datatype FactType = Price | Flow | Fx | News | Disclosure | Macro | Manual

  function FactName(f: FactType): (s: string)
    ensures s != "" && SingleLine(s) && Trimmed(s)
  {
    match f
    case Price => "price"
    case Flow => "flow"
    case Fx => "fx"
    case News => "news"
    case Disclosure => "disclosure"
    case Macro => "macro"
    case Manual => "manual"
  }

  /**
   `sourceTimestamp` is the ISO text of the instant `instant` (microseconds);
   `payloadHash` is the SHA-256 of the canonical payload.
   */
  datatype SourceRecord = SourceRecord(
    dateId: string, factType: FactType, sourceName: string,
    sourceTimestamp: string, instant: int, summary: string,
    symbol: Option<string>, market: Option<string>, sourceUrl: Option<string>,
    payloadHash: string)

  /** What `normalize_required_string` returns: stripped and not blank, but possibly many lines. */
  predicate IsText(s: string) {
    s != "" && Trimmed(s)
  }

  predicate IsOptionalText(s: Option<string>) {
    s.Some? ==> IsText(s.value)
  }

  predicate IsToken(s: string) {
    IsText(s) && SingleLine(s)
  }

  predicate ValidRecord(r: SourceRecord) {
    && IsCanonical(r.dateId)
    && IsText(r.sourceName) && IsText(r.summary)
    && IsOptionalText(r.symbol) && IsOptionalText(r.market) && IsOptionalText(r.sourceUrl)
    && IsToken(r.sourceTimestamp) && IsToken(r.payloadHash)
  }

  predicate DistinctIds(rs: seq<SourceRecord>) {
    forall i, j | 0 <= i < j < |rs| :: rs[i].dateId != rs[j].dateId
  }

  function IdsOf(rs: seq<SourceRecord>): set<string> {
    set r | r in rs :: r.dateId
  }
}
