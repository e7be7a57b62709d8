/** The two copies of the quality gate: the promoter's, which decides what may be stored, and the
    query evaluator's, which decides what may be answered. */
module MetricGate {
  import opened Wrappers
  import opened MetricModel

  const SECOND: int := 1_000_000

  /** max(0, ceil(seconds from `asOf` to `t`)). */
  function AgeSeconds(t: int, asOf: int): int {
    var up := -((asOf - t) / SECOND);
    if up > 0 then up else 0
  }

  function Coverage(row: Row): real {
    if row.total != 0 then row.included as real / row.total as real else 0.0
  }

  function Abs(x: real): real { if x < 0.0 then -x else x }

  // ---- the gate in counts and instants ----------------------------------------------------------

  /** What the row's constructor enforces of its counts. */
  predicate Counted(row: Row) { 0 <= row.included <= row.total }

  /** Enough of the records are included: included / total is at least the minimum, without dividing. */
  predicate EnoughIncluded(def: Definition, row: Row) {
    if row.total == 0 then def.minimumCoverage <= 0.0
    else row.included as real >= def.minimumCoverage * row.total as real
  }

  predicate WithinTolerance(def: Definition, row: Row) { 0.0 - def.tolerance <= row.variance <= def.tolerance }

  /** Not in the future, and no older than the freshness objective to the microsecond. */
  predicate FreshAt(def: Definition, row: Row, t: int) { row.asOf <= t <= row.asOf + def.sloSeconds * 1_000_000 }

  /** The row may be stored and answered at `t`. */
  predicate Passes(def: Definition, row: Row, t: int) {
    && row.governed && row.version == def.version && FreshAt(def, row, t) && EnoughIncluded(def, row)
    && WithinTolerance(def, row) && row.checkedAt <= t
  }

  lemma CoverageInCounts(def: Definition, row: Row)
    requires Counted(row)
    ensures Coverage(row) >= def.minimumCoverage <==> EnoughIncluded(def, row)
  {
    if row.total != 0 {
      assert row.total as real > 0.0;
      Quotient(row.included as real, row.total as real, def.minimumCoverage);
    }
  }

  lemma Quotient(n: real, d: real, m: real)
    requires d > 0.0
    ensures n / d >= m <==> n >= m * d
  {
    var q := n / d;
    assert q * d == n;
    if q >= m { ScaleUp(m, q, d); }
    if q < m { ScaleStrictly(q, m, d); }
  }

  lemma ScaleUp(a: real, b: real, d: real)
    requires a <= b && d > 0.0
    ensures a * d <= b * d
  {
  }

  lemma ScaleStrictly(a: real, b: real, d: real)
    requires a < b && d > 0.0
    ensures a * d < b * d
  {
  }

  lemma FreshInInstants(def: Definition, row: Row, t: int)
    requires def.Valid()
    ensures row.asOf <= t && AgeSeconds(t, row.asOf) <= def.sloSeconds <==> FreshAt(def, row, t)
  {
    if row.asOf <= t {
      CeilingBound(t - row.asOf, def.sloSeconds);
      assert row.asOf - t == -(t - row.asOf);
    }
  }

  // ---- promotion ------------------------------------------------------------------------------

  function PromotionReason(def: Definition, row: Row, t: int): Option<UnavailableReason> {
    if !row.governed || row.version != def.version then Some(UngovernedSource)
    else if row.asOf > t || AgeSeconds(t, row.asOf) > def.sloSeconds then Some(Stale)
    else if Coverage(row) < def.minimumCoverage then Some(InsufficientCoverage)
    else if row.checkedAt > t || Abs(row.variance) > def.tolerance then Some(ReconciliationFailed)
    else None
  }

  datatype MetricException = MetricException(
    reason: UnavailableReason, site: string, metric: MetricKey, mode: SourceMode, detectedAt: int,
    batchId: string, rowId: string, checkpoint: string, included: int, total: int, variance: real)

  datatype Promotion = Promotion(batch: Option<Batch>, exceptions: seq<MetricException>)

  function RowReason(reg: Registry, batch: Batch, row: Row, t: int): Option<UnavailableReason>
    requires row.metric in reg.definitions
  {
    if batch.mode != reg.enabled then Some(UngovernedSource) else PromotionReason(reg.definitions[row.metric], row, t)
  }

  function ExceptionFor(batch: Batch, row: Row, reason: UnavailableReason, t: int): MetricException {
    MetricException(reason, batch.site, row.metric, batch.mode, t, batch.batchId, row.rowId, batch.checkpoint,
                    row.included, row.total, row.variance)
  }

  predicate Registered(reg: Registry, rows: seq<Row>) {
    forall i :: 0 <= i < |rows| ==> rows[i].metric in reg.definitions
  }

  /** One exception per failing row, in row order. */
  function Failures(reg: Registry, batch: Batch, rows: seq<Row>, t: int): (xs: seq<MetricException>)
    requires Registered(reg, rows)
  {
    if rows == [] then []
    else
      var n := |rows| - 1;
      var reason := RowReason(reg, batch, rows[n], t);
      Failures(reg, batch, rows[..n], t) + if reason.Some? then [ExceptionFor(batch, rows[n], reason.value, t)] else []
  }

  predicate AllPass(reg: Registry, batch: Batch, rows: seq<Row>, t: int)
    requires Registered(reg, rows)
  {
    forall i :: 0 <= i < |rows| ==> RowReason(reg, batch, rows[i], t).None?
  }

  lemma {:induction false} NoFailuresIffAllPass(reg: Registry, batch: Batch, rows: seq<Row>, t: int)
    requires Registered(reg, rows)
    ensures Failures(reg, batch, rows, t) == [] <==> AllPass(reg, batch, rows, t)
    ensures |Failures(reg, batch, rows, t)| <= |rows|
    decreases |rows|
  {
    if rows != [] {
      var n := |rows| - 1;
      NoFailuresIffAllPass(reg, batch, rows[..n], t);
      assert AllPass(reg, batch, rows, t) <==> AllPass(reg, batch, rows[..n], t) && RowReason(reg, batch, rows[n], t).None? by {
        if AllPass(reg, batch, rows, t) {
          forall i | 0 <= i < n ensures RowReason(reg, batch, rows[..n][i], t).None? { assert rows[..n][i] == rows[i]; }
        }
        if AllPass(reg, batch, rows[..n], t) && RowReason(reg, batch, rows[n], t).None? {
          forall i | 0 <= i < |rows| ensures RowReason(reg, batch, rows[i], t).None? {
            if i < n { assert rows[..n][i] == rows[i]; }
          }
        }
      }
    }
  }

  /** The exception tells which row failed, when, why and with what counts. */
  predicate Tells(x: MetricException, batch: Batch, row: Row, t: int, reason: UnavailableReason) {
    && x.reason == reason && x.site == batch.site && x.metric == row.metric && x.mode == batch.mode && x.detectedAt == t
    && x.batchId == batch.batchId && x.rowId == row.rowId && x.checkpoint == batch.checkpoint
    && x.included == row.included && x.total == row.total && x.variance == row.variance
  }

  /** Every exception is about a failing row, with the reason the gate gives. */
  lemma {:induction false} FailuresTell(reg: Registry, batch: Batch, rows: seq<Row>, t: int, j: nat) returns (i: nat)
    requires Registered(reg, rows) && j < |Failures(reg, batch, rows, t)|
    ensures i < |rows| && RowReason(reg, batch, rows[i], t).Some?
    ensures Tells(Failures(reg, batch, rows, t)[j], batch, rows[i], t, RowReason(reg, batch, rows[i], t).value)
    decreases |rows|
  {
    var n := |rows| - 1;
    if j < |Failures(reg, batch, rows[..n], t)| {
      i := FailuresTell(reg, batch, rows[..n], t, j);
    } else {
      i := n;
    }
  }

  /** The definitions and rows are as their constructors leave them. */
  predicate Sound(reg: Registry, batch: Batch) {
    forall i :: 0 <= i < |batch.rows| ==>
      Counted(batch.rows[i]) && (batch.rows[i].metric in reg.definitions ==> reg.definitions[batch.rows[i].metric].Valid())
  }

  /** The row is of the enabled mode and passes. */
  predicate RowMayBeStored(reg: Registry, batch: Batch, row: Row, t: int) {
    batch.mode == reg.enabled && row.metric in reg.definitions && Passes(reg.definitions[row.metric], row, t)
  }

  predicate MayBeStored(reg: Registry, batch: Batch, t: int) {
    forall i :: 0 <= i < |batch.rows| ==> RowMayBeStored(reg, batch, batch.rows[i], t)
  }

  lemma RowPassesInCounts(reg: Registry, batch: Batch, row: Row, t: int)
    requires row.metric in reg.definitions && reg.definitions[row.metric].Valid() && Counted(row)
    ensures RowReason(reg, batch, row, t).None? <==> RowMayBeStored(reg, batch, row, t)
  {
    CoverageInCounts(reg.definitions[row.metric], row);
    FreshInInstants(reg.definitions[row.metric], row, t);
  }

  lemma AllPassInCounts(reg: Registry, batch: Batch, t: int)
    requires Registered(reg, batch.rows) && Sound(reg, batch)
    ensures AllPass(reg, batch, batch.rows, t) <==> MayBeStored(reg, batch, t)
  {
    if AllPass(reg, batch, batch.rows, t) {
      forall i | 0 <= i < |batch.rows| ensures RowMayBeStored(reg, batch, batch.rows[i], t) {
        assert RowReason(reg, batch, batch.rows[i], t).None?;
        RowPassesInCounts(reg, batch, batch.rows[i], t);
      }
    }
    if MayBeStored(reg, batch, t) {
      forall i | 0 <= i < |batch.rows| ensures RowReason(reg, batch, batch.rows[i], t).None? {
        assert RowMayBeStored(reg, batch, batch.rows[i], t);
        RowPassesInCounts(reg, batch, batch.rows[i], t);
      }
    }
  }

  /** A batch is promoted whole, exactly when every row passes; otherwise every failing row is
      reported. An unregistered metric raises whatever the other rows are. */
  method Promote(reg: Registry, batch: Batch, t: int) returns (r: Result<Promotion, ()>)
    ensures r.Ok? <==> Registered(reg, batch.rows)
    ensures r.Ok? ==> r.value.exceptions == Failures(reg, batch, batch.rows, t)
    ensures r.Ok? ==> r.value.batch == if AllPass(reg, batch, batch.rows, t) then Some(batch) else None
    ensures r.Ok? && Sound(reg, batch) ==> (r.value.batch == Some(batch) <==> MayBeStored(reg, batch, t))
    ensures r.Ok? && r.value.batch != Some(batch) ==> r.value.batch.None?
  {
    if Registered(reg, batch.rows) && Sound(reg, batch) {
      AllPassInCounts(reg, batch, t);
      assert AllPass(reg, batch, batch.rows, t) <==> MayBeStored(reg, batch, t);
    }
    var exceptions := [];
    for i := 0 to |batch.rows|
      invariant Registered(reg, batch.rows[..i])
      invariant exceptions == Failures(reg, batch, batch.rows[..i], t)
    {
      var row := batch.rows[i];
      if row.metric !in reg.definitions {
        return Err(());
      }
      var reason := if batch.mode != reg.enabled then Some(UngovernedSource)
                    else PromotionReason(reg.definitions[row.metric], row, t);
      assert batch.rows[..i+1][..i] == batch.rows[..i];
      if reason.Some? {
        exceptions := exceptions + [ExceptionFor(batch, row, reason.value, t)];
      }
    }
    assert batch.rows[..|batch.rows|] == batch.rows;
    NoFailuresIffAllPass(reg, batch, batch.rows, t);
    if exceptions != [] {
      return Ok(Promotion(None, exceptions));
    }
    return Ok(Promotion(Some(batch), []));
  }

  // ---- query ----------------------------------------------------------------------------------

  datatype Freshness = Fresh | StaleData | FreshnessUnknown
  datatype CoverageStatus = Sufficient | Insufficient | CoverageUnknown
  datatype Reconciliation = Passed | Mismatch | NotRun

  datatype Answer = Answer(
    reason: Option<UnavailableReason>, value: Option<real>, age: int, freshness: Freshness, coverage: CoverageStatus,
    reconciliation: Reconciliation, governedSources: bool, asOf: int, included: int, total: int, refs: seq<string>)
  {
    predicate Available() { reason.None? }
  }

  function EvaluationReason(def: Definition, row: Row, t: int): Option<UnavailableReason> {
    var reconciled := Abs(row.variance) <= def.tolerance && row.checkedAt <= t;
    if !row.governed then Some(UngovernedSource)
    else if row.version != def.version then Some(DefinitionUnavailable)
    else if row.asOf > t || AgeSeconds(t, row.asOf) > def.sloSeconds then Some(Stale)
    else if Coverage(row) < def.minimumCoverage then Some(InsufficientCoverage)
    else if !reconciled then Some(ReconciliationFailed)
    else None
  }

  /** float(): the nearest double of an exact value. */
  type ToFloat = real -> real

  /** Without a projection the single source reference is the digest of the request id. */
  function Evaluate(toFloat: ToFloat, def: Definition, q: MetricQuery, projection: Option<Stored>): Answer {
    match projection
    case None =>
      Answer(Some(SourceUnavailable), None, 0, FreshnessUnknown, CoverageUnknown, NotRun, false, q.queriedAt, 0, 0, [q.requestId])
    case Some(p) =>
      var row, t := p.row, q.queriedAt;
      var reason := EvaluationReason(def, row, t);
      Answer(reason, if reason.None? then Some(toFloat(row.value)) else None, AgeSeconds(t, row.asOf),
             if row.asOf <= t && AgeSeconds(t, row.asOf) <= def.sloSeconds then Fresh else StaleData,
             if Coverage(row) >= def.minimumCoverage then Sufficient else Insufficient,
             if Abs(row.variance) <= def.tolerance && row.checkedAt <= t then Passed else Mismatch,
             row.governed && row.version == def.version, row.asOf, row.included, row.total, row.refs)
  }

  // ---- agreement ------------------------------------------------------------------------------

  /** The promoter reports a version mismatch as an ungoverned source. */
  function AsPromotion(reason: Option<UnavailableReason>): Option<UnavailableReason> {
    if reason == Some(DefinitionUnavailable) then Some(UngovernedSource) else reason
  }

  /** The gates agree on every row at every instant, reason by reason. */
  lemma GatesAgree(toFloat: ToFloat, reg: Registry, batch: Batch, row: Row, q: MetricQuery)
    requires row.metric in reg.definitions && batch.mode == reg.enabled
    ensures var answer := Evaluate(toFloat, reg.definitions[row.metric], q, Some(Stored(batch, row)));
      && RowReason(reg, batch, row, q.queriedAt) == AsPromotion(answer.reason)
      && (RowReason(reg, batch, row, q.queriedAt).None? <==> answer.Available())
      && (answer.Available() <==> answer.value == Some(toFloat(row.value)))
  {
  }

  /** The reported statuses explain the verdict: a value is answered exactly when the sources are
      governed, fresh, sufficient and reconciled. */
  lemma StatusesExplainTheVerdict(toFloat: ToFloat, def: Definition, q: MetricQuery, projection: Option<Stored>)
    ensures var a := Evaluate(toFloat, def, q, projection);
      a.Available() <==> a.governedSources && a.freshness == Fresh && a.coverage == Sufficient && a.reconciliation == Passed
    ensures var a := Evaluate(toFloat, def, q, projection); a.value.Some? <==> a.Available()
  {
  }

  /** What an answer says about the latest row: the value exactly if the row passes now, otherwise the
      first thing that is wrong, and in both cases what was found. */
  predicate Answers(toFloat: ToFloat, def: Definition, row: Row, t: int, a: Answer) {
    && (a.reason.None? <==> Passes(def, row, t)) && a.value == (if Passes(def, row, t) then Some(toFloat(row.value)) else None)
    && (a.reason == Some(UngovernedSource) <==> !row.governed)
    && (a.reason == Some(DefinitionUnavailable) <==> row.governed && row.version != def.version)
    && (a.reason == Some(Stale) <==> row.governed && row.version == def.version && !FreshAt(def, row, t))
    && (a.reason == Some(InsufficientCoverage) <==>
          row.governed && row.version == def.version && FreshAt(def, row, t) && !EnoughIncluded(def, row))
    && (a.reason == Some(ReconciliationFailed) <==>
          && row.governed && row.version == def.version && FreshAt(def, row, t) && EnoughIncluded(def, row)
          && !(WithinTolerance(def, row) && row.checkedAt <= t))
    && a.freshness == (if FreshAt(def, row, t) then Fresh else StaleData)
    && a.coverage == (if EnoughIncluded(def, row) then Sufficient else Insufficient)
    && a.reconciliation == (if WithinTolerance(def, row) && row.checkedAt <= t then Passed else Mismatch)
    && a.governedSources == (row.governed && row.version == def.version)
    && a.asOf == row.asOf && a.included == row.included && a.total == row.total && a.refs == row.refs
  }

  lemma EvaluateAnswers(toFloat: ToFloat, def: Definition, q: MetricQuery, p: Stored)
    requires def.Valid() && Counted(p.row)
    ensures Answers(toFloat, def, p.row, q.queriedAt, Evaluate(toFloat, def, q, Some(p)))
  {
    CoverageInCounts(def, p.row);
    FreshInInstants(def, p.row, q.queriedAt);
  }

  /** The reported age is the elapsed time rounded up to whole seconds, and never negative. */
  lemma AgeIs(t: int, asOf: int)
    ensures AgeSeconds(t, asOf) >= 0
    ensures t > asOf ==> (AgeSeconds(t, asOf) - 1) * 1_000_000 < t - asOf <= AgeSeconds(t, asOf) * 1_000_000
    ensures t <= asOf ==> AgeSeconds(t, asOf) == 0
  {
    var q := (asOf - t) / SECOND;
    assert asOf - t == q * SECOND + (asOf - t) % SECOND;
  }

  /** What does not depend on the clock. */
  predicate Promotable(def: Definition, row: Row) {
    && row.governed && row.version == def.version && Coverage(row) >= def.minimumCoverage
    && Abs(row.variance) <= def.tolerance
  }

  lemma CeilingBound(age: int, slo: int)
    requires age >= 0
    ensures -((-age) / SECOND) <= slo <==> age <= slo * SECOND
  {
    var q := (-age) / SECOND;
    assert -age == q * SECOND + (-age) % SECOND;
    assert 0 <= (-age) % SECOND < SECOND;
  }

  /** Rounding the age up to whole seconds loses nothing: a row is available exactly on the closed
      interval from the later of its two timestamps to `asOf` plus the freshness objective. */
  lemma AvailableExactlyWithin(def: Definition, row: Row, t: int)
    requires def.Valid()
    ensures EvaluationReason(def, row, t).None? <==>
      Promotable(def, row) && row.asOf <= t && row.checkedAt <= t && t <= row.asOf + def.sloSeconds * SECOND
  {
    if row.asOf <= t {
      CeilingBound(t - row.asOf, def.sloSeconds);
      assert row.asOf - t == -(t - row.asOf);
    }
  }

  /** A row that passes the promoter answers queries until its freshness runs out, and can never
      answer one before it was reconciled. */
  lemma PromotedRowsStayAvailable(toFloat: ToFloat, reg: Registry, batch: Batch, row: Row, promotedAt: int, q: MetricQuery)
    requires row.metric in reg.definitions && reg.definitions[row.metric].Valid()
    requires RowReason(reg, batch, row, promotedAt).None? && promotedAt <= q.queriedAt
    ensures var def := reg.definitions[row.metric];
      Evaluate(toFloat, def, q, Some(Stored(batch, row))).Available() <==> q.queriedAt <= row.asOf + def.sloSeconds * SECOND
    ensures var def := reg.definitions[row.metric]; promotedAt <= row.asOf + def.sloSeconds * SECOND
  {
    var def := reg.definitions[row.metric];
    GatesAgree(toFloat, reg, batch, row, q.(queriedAt := promotedAt));
    AvailableExactlyWithin(def, row, promotedAt);
    AvailableExactlyWithin(def, row, q.queriedAt);
  }
}
