/** Entities of the governed metrics chain. Decimals are exact reals, datetimes are microseconds,
    and the digest that names a batch and its row is a parameter. */
module MetricModel {
  import opened PythonText

  datatype SourceMode = Synthetic | Live

  datatype UnavailableReason =
    | DefinitionUnavailable | SourceUnavailable | Stale | InsufficientCoverage
    | ReconciliationFailed | UngovernedSource

  /** The three metrics with a projection recipe, and any other registered key. */
  datatype MetricKey = SalesOrderValue | InventoryOnHand | ReceivablesBalance | OtherMetric(name: string)

  datatype WindowType = Rolling | Calendar | PointInTime

  datatype Definition = Definition(
    version: string, unit: string, sloSeconds: int, minimumCoverage: real, tolerance: real, window: WindowType)
  {
    predicate Valid() { sloSeconds >= 1 && 0.0 <= minimumCoverage <= 1.0 && tolerance >= 0.0 }
  }

  /** Exactly one source mode is enabled. */
  datatype Registry = Registry(definitions: map<MetricKey, Definition>, enabled: SourceMode)

  datatype Row = Row(
    rowId: string, metric: MetricKey, windowStart: int, windowEnd: int, asOf: int, value: real,
    included: int, total: int, reference: string, variance: real, checkedAt: int,
    refs: seq<string>, governed: bool, version: string)

  datatype Batch = Batch(
    batchId: string, site: string, mode: SourceMode, checkpoint: string, retrievedAt: int, rows: seq<Row>)

  datatype Stored = Stored(batch: Batch, row: Row)

  datatype MetricQuery = MetricQuery(
    site: string, metric: MetricKey, windowStart: int, windowEnd: int, queriedAt: int, requestId: string)

  predicate Distinct<T(==)>(xs: seq<T>) {
    forall i, j :: 0 <= i < j < |xs| ==> xs[i] != xs[j]
  }

  // ---- text checks ----------------------------------------------------------------------------

  predicate Identifier(s: string) { 1 <= |s| <= 256 && !Space(s[0]) && !Space(s[|s|-1]) }

  predicate Alphanumeric(c: char) { 'A' <= c <= 'Z' || 'a' <= c <= 'z' || '0' <= c <= '9' }

  predicate SiteId(s: string) {
    1 <= |s| <= 140 && Alphanumeric(s[0]) && forall i :: 0 <= i < |s| ==> Alphanumeric(s[i]) || s[i] in {'.', '-'}
  }

  predicate SourceRef(s: string) {
    1 <= |s| <= 256 && Alphanumeric(s[0]) && forall i :: 0 <= i < |s| ==> Alphanumeric(s[i]) || s[i] in {'.', '_', ':', '-'}
  }

  const MAX_QUERY_WINDOW: int := 366 * 86_400 * 1_000_000

  predicate Window(start: int, end: int) { start <= end <= start + MAX_QUERY_WINDOW }
}
