/** What the metrics chain accepts, stores and reads back, member by member: the projector in the terms of
    the response, the store in the terms of its batches. */
module MetricEffects {
  import opened Wrappers
  import opened Ordering
  import opened MetricModel
  import opened MetricProjector
  import opened MetricStore
  import opened MetricLookup

  // ---- projection: what is accepted -----------------------------------------------------------

  /** The field a metric sums. */
  function FieldOf(metric: MetricKey): Field {
    match metric
    case SalesOrderValue => TotalAmount
    case InventoryOnHand => BaseQuantity
    case ReceivablesBalance => OpenAmount
    case OtherMetric(name) => OtherField(name)
  }

  predicate AnswersFor(metric: MetricKey, response: Response) {
    match metric
    case SalesOrderValue => response.logical == SalesOrderObject && response.tool == SalesOrderGet
    case InventoryOnHand => response.logical == InventoryObject && response.tool == InventoryGet
    case ReceivablesBalance => response.logical == ReceivableObject && response.tool == ReceivableGet
    case OtherMetric(_) => false
  }

  /** Available, verified in all four ways, read only, and without fallbacks. */
  predicate Trusted(response: Response) {
    && response.available && response.reasonCode.None?
    && response.verification == Verification(true, true, true, true)
    && response.controls.writerTools == 0 && response.controls.mutations == 0 && response.controls.fallbacks == 0
    && (response.synthetic ==> response.controls.networkCalls == 0)
  }

  /** The page counts its rows, stays within its limit and the total, and has more only if the total does. */
  predicate Paged(page: Page, n: int, total: int) {
    && page.returnedRows == Some(n) && page.limit.Some? && page.offset.Some? && page.hasMore.Some?
    && n <= page.limit.value <= 50 && page.offset.value >= 0
    && page.offset.value + n <= total && (page.hasMore.value ==> page.offset.value + n < total)
  }

  /** The row has a reference and exactly these fields, and is marked synthetic iff the response is. */
  predicate RowFits(r: Record, synthetic: bool, fields: set<Field>, amount: Field) {
    && !r.extraKeys && r.ref.Some? && r.ref.value.Text? && SourceRef(r.ref.value.text)
    && r.synthetic == (if synthetic then Some(true) else None)
    && r.values.Some? && r.values.value.Some?
    && r.values.value.value.Keys == fields && amount in fields && r.values.value.value[amount].Number?
  }

  predicate RowFitsMetric(r: Record, synthetic: bool, metric: MetricKey) {
    match metric
    case SalesOrderValue => RowFits(r, synthetic, {OrderNumber, CustomerNumber, OrderDate, TotalAmount}, TotalAmount)
    case InventoryOnHand => RowFits(r, synthetic, {MaterialNumber, WarehouseNumber, BaseQuantity}, BaseQuantity)
    case ReceivablesBalance => RowFits(r, synthetic, {BillNumber, CustomerNumber, DueDate, OpenAmount}, OpenAmount)
    case OtherMetric(_) => false
  }

  /** The rows fit and no reference occurs twice. */
  predicate AllFit(rows: seq<Record>, synthetic: bool, metric: MetricKey) {
    && (forall i :: 0 <= i < |rows| ==> RowFitsMetric(rows[i], synthetic, metric))
    && (forall i, j :: 0 <= i < j < |rows| ==> rows[i].ref != rows[j].ref)
  }

  lemma RowsFitIff(response: Response, metric: MetricKey)
    requires RecipeFor(metric).Some?
    ensures AllFit(response.rows, response.synthetic, metric) <==>
      && RowsValid(response, RecipeFor(metric).value, response.rows)
      && forall i :: 0 <= i < |response.rows| ==> SourceRef(RefOf(response.rows[i]))
  {
    var recipe, rows := RecipeFor(metric).value, response.rows;
    forall i | 0 <= i < |rows|
      ensures RowFitsMetric(rows[i], response.synthetic, metric) <==> Shaped(response, recipe, rows[i]) && SourceRef(RefOf(rows[i]))
    {
    }
    if AllFit(rows, response.synthetic, metric) {
      forall i, j | 0 <= i < j < |rows| ensures RefOf(rows[i]) != RefOf(rows[j]) {
        assert RowFitsMetric(rows[i], response.synthetic, metric) && RowFitsMetric(rows[j], response.synthetic, metric);
      }
    }
  }

  lemma HeaderFitsIff(response: Response, inputs: Inputs)
    requires RecipeFor(inputs.metric).Some?
    ensures HeaderProblem(response, RecipeFor(inputs.metric).value, inputs).None? <==>
      && AnswersFor(inputs.metric, response) && Trusted(response) && 1 <= |response.rows| <= 50
      && Paged(response.page, |response.rows|, inputs.total)
  {
  }

  /** Exactly which deliveries are projected. */
  lemma ProjectsIff(names: Identity -> Names, reg: Registry, response: Response, inputs: Inputs, crosswalk: map<string, string>)
    ensures Project(names, reg, response, inputs, crosswalk).Ok? <==>
      && inputs.metric in reg.definitions && inputs.version == reg.definitions[inputs.metric].version
      && reg.enabled == (if response.synthetic then Synthetic else Live)
      && AnswersFor(inputs.metric, response) && Trusted(response) && 1 <= |response.rows| <= 50
      && Paged(response.page, |response.rows|, inputs.total)
      && AllFit(response.rows, response.synthetic, inputs.metric) && SiteId(response.site)
  {
    if RecipeFor(inputs.metric).Some? {
      var recipe := RecipeFor(inputs.metric).value;
      HeaderFitsIff(response, inputs);
      RowsFitIff(response, inputs.metric);
      if Problem(response, recipe, inputs).None? {
        ProjectionFailsOnlyOnText(names, recipe, if response.synthetic then Synthetic else Live, response, inputs, crosswalk);
      }
    }
  }

  // ---- projection: what is stored -------------------------------------------------------------

  /** The row's reference has a usable counterpart. */
  predicate Known(crosswalk: map<string, string>, r: Record) {
    r.ref.Some? && r.ref.value.Text? && r.ref.value.text in crosswalk && Identifier(crosswalk[r.ref.value.text])
  }

  function Amount(metric: MetricKey, r: Record): real {
    if r.values.Some? && r.values.value.Some? && FieldOf(metric) in r.values.value.value && r.values.value.value[FieldOf(metric)].Number?
    then r.values.value.value[FieldOf(metric)].amount else 0.0
  }

  /** The sum over the rows with a counterpart, in response order. */
  function Total(metric: MetricKey, crosswalk: map<string, string>, rows: seq<Record>): real {
    if rows == [] then 0.0 else (if Known(crosswalk, rows[0]) then Amount(metric, rows[0]) else 0.0) + Total(metric, crosswalk, rows[1..])
  }

  function Count(crosswalk: map<string, string>, rows: seq<Record>): nat {
    if rows == [] then 0 else (if Known(crosswalk, rows[0]) then 1 else 0) + Count(crosswalk, rows[1..])
  }

  predicate HasRefs(rows: seq<Record>) { forall i :: 0 <= i < |rows| ==> rows[i].ref.Some? && rows[i].ref.value.Text? }

  lemma {:induction false} InsertTallies(metric: MetricKey, crosswalk: map<string, string>, r: Record, rows: seq<Record>)
    ensures Total(metric, crosswalk, Insert(r, rows)) == Total(metric, crosswalk, [r] + rows)
    ensures Count(crosswalk, Insert(r, rows)) == Count(crosswalk, [r] + rows)
    decreases |rows|
  {
    assert ([r] + rows)[1..] == rows;
    if rows != [] && !StrLe(RefOf(r), RefOf(rows[0])) {
      InsertTallies(metric, crosswalk, r, rows[1..]);
      assert ([r] + rows[1..])[1..] == rows[1..];
      assert ([rows[0]] + Insert(r, rows[1..]))[1..] == Insert(r, rows[1..]);
    }
  }

  lemma {:induction false} SortTallies(metric: MetricKey, crosswalk: map<string, string>, rows: seq<Record>)
    ensures Total(metric, crosswalk, Sort(rows)) == Total(metric, crosswalk, rows) && Count(crosswalk, Sort(rows)) == Count(crosswalk, rows)
    decreases |rows|
  {
    if rows != [] {
      SortTallies(metric, crosswalk, rows[1..]);
      InsertTallies(metric, crosswalk, rows[0], Sort(rows[1..]));
      assert ([rows[0]] + Sort(rows[1..]))[1..] == Sort(rows[1..]);
    }
  }

  lemma {:induction false} TallySnoc(metric: MetricKey, crosswalk: map<string, string>, rows: seq<Record>, r: Record)
    ensures Total(metric, crosswalk, rows + [r]) == Total(metric, crosswalk, rows) + if Known(crosswalk, r) then Amount(metric, r) else 0.0
    ensures Count(crosswalk, rows + [r]) == Count(crosswalk, rows) + if Known(crosswalk, r) then 1 else 0
    decreases |rows|
  {
    if rows != [] {
      assert (rows + [r])[1..] == rows[1..] + [r];
      TallySnoc(metric, crosswalk, rows[1..], r);
    } else {
      assert (rows + [r])[1..] == [];
    }
  }

  lemma {:induction false} ResolvedIsTallied(metric: MetricKey, crosswalk: map<string, string>, rows: seq<Record>)
    requires RecipeFor(metric).Some? && HasRefs(rows)
    ensures ResolvedSum(RecipeFor(metric).value, crosswalk, rows) == Total(metric, crosswalk, rows)
    ensures |Resolved(crosswalk, Refs(rows))| == Count(crosswalk, rows)
    decreases |rows|
  {
    if rows != [] {
      var n := |rows| - 1;
      ResolvedIsTallied(metric, crosswalk, rows[..n]);
      TallySnoc(metric, crosswalk, rows[..n], rows[n]);
      assert rows == rows[..n] + [rows[n]];
      assert Refs(rows)[..n] == Refs(rows[..n]) && Refs(rows)[n] == RefOf(rows[n]);
    }
  }

  lemma {:induction false} ResolvedImages(crosswalk: map<string, string>, refs: seq<string>)
    requires |Resolved(crosswalk, refs)| == |refs|
    ensures forall i :: 0 <= i < |refs| ==> refs[i] in crosswalk && Resolved(crosswalk, refs)[i] == crosswalk[refs[i]]
    decreases |refs|
  {
    if refs != [] {
      var n := |refs| - 1;
      ResolvedIsAll(crosswalk, refs[..n]);
      ResolvedImages(crosswalk, refs[..n]);
      forall i | 0 <= i < |refs| ensures refs[i] in crosswalk && Resolved(crosswalk, refs)[i] == crosswalk[refs[i]] {
        if i < n { assert refs[..n][i] == refs[i]; }
      }
    }
  }

  lemma {:induction false} AllKnownIff(crosswalk: map<string, string>, rows: seq<Record>)
    ensures Count(crosswalk, rows) <= |rows|
    ensures Count(crosswalk, rows) == |rows| <==> forall i :: 0 <= i < |rows| ==> Known(crosswalk, rows[i])
    decreases |rows|
  {
    if rows != [] {
      AllKnownIff(crosswalk, rows[1..]);
      assert rows == [rows[0]] + rows[1..];
    }
  }

  /** Every row has a counterpart, and no two rows share one. */
  predicate OneToOne(crosswalk: map<string, string>, rows: seq<Record>) {
    && (forall i :: 0 <= i < |rows| ==> Known(crosswalk, rows[i]))
    && (forall i, j :: 0 <= i < j < |rows| && Known(crosswalk, rows[i]) && Known(crosswalk, rows[j]) ==>
          crosswalk[rows[i].ref.value.text] != crosswalk[rows[j].ref.value.text])
  }

  lemma OneToOneIff(crosswalk: map<string, string>, rows: seq<Record>)
    requires HasRefs(rows)
    ensures var governed := Resolved(crosswalk, Refs(rows));
      OneToOne(crosswalk, rows) <==> |governed| == |rows| && Distinct(governed)
  {
    var refs := Refs(rows);
    var governed := Resolved(crosswalk, refs);
    ResolvedCount(crosswalk, rows);
    AllKnownIff(crosswalk, rows);
    if |governed| == |rows| {
      ResolvedImages(crosswalk, refs);
      forall i | 0 <= i < |rows| ensures governed[i] == crosswalk[rows[i].ref.value.text] { assert refs[i] == RefOf(rows[i]); }
    }
  }

  lemma {:induction false} ResolvedCount(crosswalk: map<string, string>, rows: seq<Record>)
    requires HasRefs(rows)
    ensures |Resolved(crosswalk, Refs(rows))| == Count(crosswalk, rows)
    decreases |rows|
  {
    ResolvedIsTallied(SalesOrderValue, crosswalk, rows);
  }

  lemma OneToOneUnderPermutation(crosswalk: map<string, string>, xs: seq<Record>, ys: seq<Record>)
    requires multiset(xs) == multiset(ys) && RefsUnique(xs) && OneToOne(crosswalk, xs)
    ensures OneToOne(crosswalk, ys)
  {
    UniqueUnderPermutation(xs, ys);
    forall i | 0 <= i < |ys| ensures ys[i] in xs { assert ys[i] in multiset(xs); }
    forall i, j | 0 <= i < j < |ys| ensures crosswalk[ys[i].ref.value.text] != crosswalk[ys[j].ref.value.text] {
      var a :| 0 <= a < |xs| && xs[a] == ys[i];
      var b :| 0 <= b < |xs| && xs[b] == ys[j];
      assert RefOf(ys[i]) != RefOf(ys[j]);
      assert a != b;
    }
  }

  /** What a projection stores: one row with the inputs' columns, the exact sum and number of the rows that
      have a counterpart, all references in order, and governed iff the counterparts are one to one. */
  predicate Stores(batch: Batch, response: Response, inputs: Inputs, crosswalk: map<string, string>) {
    && batch.site == response.site && batch.mode == (if response.synthetic then Synthetic else Live)
    && batch.checkpoint == inputs.checkpoint && batch.retrievedAt == inputs.retrievedAt && |batch.rows| == 1
    && var row := batch.rows[0];
    && row == Row(row.rowId, inputs.metric, inputs.windowStart, inputs.windowEnd, inputs.asOf,
                  Total(inputs.metric, crosswalk, response.rows), Count(crosswalk, response.rows), inputs.total,
                  inputs.reference, inputs.variance, inputs.checkedAt, row.refs, OneToOne(crosswalk, response.rows), inputs.version)
    && |row.refs| == |response.rows|
    && (forall i :: 0 <= i < |response.rows| ==> response.rows[i].ref.Some? && response.rows[i].ref.value.Text? && response.rows[i].ref.value.text in row.refs)
    && (forall i, j :: 0 <= i < j < |row.refs| ==> row.refs[i] != row.refs[j] && StrLe(row.refs[i], row.refs[j]))
  }

  lemma SortedRefs(rows: seq<Record>)
    requires RefsUnique(rows)
    ensures var refs := Refs(Sort(rows));
      && |refs| == |rows| && (forall i :: 0 <= i < |rows| ==> RefOf(rows[i]) in refs)
      && (forall i, j :: 0 <= i < j < |refs| ==> refs[i] != refs[j] && StrLe(refs[i], refs[j]))
  {
    SortSorts(rows);
    SortedLength(rows);
    UniqueUnderPermutation(rows, Sort(rows));
    var refs := Refs(Sort(rows));
    forall i | 0 <= i < |refs| ensures refs[i] == RefOf(Sort(rows)[i]) {}
    forall i | 0 <= i < |rows| ensures RefOf(rows[i]) in refs {
      assert rows[i] in multiset(Sort(rows));
      var j :| 0 <= j < |refs| && Sort(rows)[j] == rows[i];
      assert refs[j] == RefOf(rows[i]);
    }
  }

  lemma SortedTallies(metric: MetricKey, crosswalk: map<string, string>, rows: seq<Record>)
    requires RecipeFor(metric).Some? && HasRefs(rows) && RefsUnique(rows)
    ensures var refs := Refs(Sort(rows));
      var governed := Resolved(crosswalk, refs);
      && ResolvedSum(RecipeFor(metric).value, crosswalk, Sort(rows)) == Total(metric, crosswalk, rows)
      && |governed| == Count(crosswalk, rows)
      && (OneToOne(crosswalk, rows) <==> |governed| == |refs| && Distinct(governed))
  {
    SortSorts(rows);
    SortedLength(rows);
    forall i | 0 <= i < |rows| ensures Sort(rows)[i] in rows { assert Sort(rows)[i] in multiset(rows); }
    SortTallies(metric, crosswalk, rows);
    ResolvedIsTallied(metric, crosswalk, Sort(rows));
    OneToOneIff(crosswalk, Sort(rows));
    UniqueUnderPermutation(rows, Sort(rows));
    if OneToOne(crosswalk, rows) { OneToOneUnderPermutation(crosswalk, rows, Sort(rows)); }
    if OneToOne(crosswalk, Sort(rows)) { OneToOneUnderPermutation(crosswalk, Sort(rows), rows); }
  }

  lemma ProjectionStores(names: Identity -> Names, reg: Registry, response: Response, inputs: Inputs, crosswalk: map<string, string>)
    requires Project(names, reg, response, inputs, crosswalk).Ok?
    ensures Stores(Project(names, reg, response, inputs, crosswalk).value, response, inputs, crosswalk)
  {
    SortedRefs(response.rows);
    SortedTallies(inputs.metric, crosswalk, response.rows);
  }

  // ---- the store ------------------------------------------------------------------------------

  predicate StoredAs(s: Store, b: Batch) { BatchKey(b.site, b.batchId) in s.batches }

  predicate HasCheckpoint(s: Store, b: Batch) {
    exists k :: k in s.batches && s.batches[k].site == b.site && s.batches[k].mode == b.mode && s.batches[k].checkpoint == b.checkpoint
  }

  predicate HasRowOf(s: Store, b: Batch) {
    exists k, i, j :: k in s.batches && s.batches[k].site == b.site && 0 <= i < |s.batches[k].rows| && 0 <= j < |b.rows| && s.batches[k].rows[i].rowId == b.rows[j].rowId
  }

  lemma CheckpointUsedIff(s: Store, b: Batch)
    requires Inv(s)
    ensures CheckpointOf(b) in s.checkpointBatches <==> HasCheckpoint(s, b)
  {
    assert CheckpointEntry(s, CheckpointOf(b));
    forall k | k in s.batches && CheckpointOf(s.batches[k]) == CheckpointOf(b) ensures CheckpointOf(b) in s.checkpointBatches { assert BatchEntry(s, k); }
  }

  lemma RowUsedIff(s: Store, b: Batch)
    requires Inv(s)
    ensures RowIdUsed(s, b, b.rows) <==> HasRowOf(s, b)
  {
    forall k | k in s.batches ensures k.site == s.batches[k].site { assert BatchEntry(s, k); }
    forall j | 0 <= j < |b.rows| { RowsAreBacked(s, b.site, b.rows[j].rowId); }
    if RowIdUsed(s, b, b.rows) {
      var j :| 0 <= j < |b.rows| && RowKey(b.site, b.rows[j].rowId) in s.rowIds;
      RowsAreBacked(s, b.site, b.rows[j].rowId);
    }
  }

  /** An append replays a stored batch, conflicts with another under its id, with another mode of its site,
      with a batch of the same checkpoint and with a stored row id, in this order, or is stored. */
  lemma AppendEffect(s: Store, b: Batch)
    requires Inv(s)
    ensures var (s', reply) := AppendBatch(s, b);
      if StoredAs(s, b) then s' == s && reply == (if s.batches[BatchKey(b.site, b.batchId)] == b then Ok(b) else Err(ImmutableConflict))
      else if exists k :: k in s.batches && s.batches[k].site == b.site && s.batches[k].mode != b.mode then s' == s && reply == Err(ModeConflict)
      else if HasCheckpoint(s, b) || HasRowOf(s, b) then s' == s && reply == Err(ImmutableConflict)
      else
        && reply == Ok(b) && s'.batches == s.batches[BatchKey(b.site, b.batchId) := b]
        && s'.checkpoints == s.checkpoints[ModeKey(b.site, b.mode) := b.checkpoint]
  {
    CheckpointUsedIff(s, b);
    RowUsedIff(s, b);
  }

  predicate Answering(w: Wanted, b: Batch, row: Row) {
    && b.site == w.site && b.mode == w.mode
    && row.metric == w.metric && row.windowStart == w.windowStart && row.windowEnd == w.windowEnd
  }

  /** Retrieved later, then with the greater batch id, then with the greater row id. */
  predicate AtLeastAsLate(a: Stored, b: Stored) {
    && a.batch.retrievedAt >= b.batch.retrievedAt
    && (a.batch.retrievedAt == b.batch.retrievedAt ==> StrLe(b.batch.batchId, a.batch.batchId))
    && (a.batch.retrievedAt == b.batch.retrievedAt && a.batch.batchId == b.batch.batchId ==> StrLe(b.row.rowId, a.row.rowId))
  }

  /** The row found answers the question and is the latest stored one that does; none is found iff none
      does. */
  lemma FindEffect(s: Store, w: Wanted)
    ensures Find(s, w).None? <==> forall k, i :: k in s.batches && 0 <= i < |s.batches[k].rows| ==> !Answering(w, s.batches[k], s.batches[k].rows[i])
    ensures Find(s, w).Some? ==>
      && (exists k, i :: k in s.batches && 0 <= i < |s.batches[k].rows| && Find(s, w).value == Stored(s.batches[k], s.batches[k].rows[i]))
      && Answering(w, Find(s, w).value.batch, Find(s, w).value.row)
      && forall k, i :: k in s.batches && 0 <= i < |s.batches[k].rows| && Answering(w, s.batches[k], s.batches[k].rows[i]) ==>
           AtLeastAsLate(Find(s, w).value, Stored(s.batches[k], s.batches[k].rows[i]))
  {
    forall k, i | k in s.batches && 0 <= i < |s.batches[k].rows| && Answering(w, s.batches[k], s.batches[k].rows[i])
      ensures Stored(s.batches[k], s.batches[k].rows[i]) in Candidates(s, w)
    {
    }
    if Find(s, w).Some? {
      StrLeReflexive(Find(s, w).value.batch.batchId);
    }
  }

  /** The SQL checkpoint is that of a batch of the site and mode retrieved last, among those the greatest. */
  lemma SqlCheckpointEffect(s: Store, site: string, mode: SourceMode)
    ensures SqlCheckpoint(s, ModeKey(site, mode)).None? <==> forall k :: k in s.batches ==> s.batches[k].site != site || s.batches[k].mode != mode
    ensures SqlCheckpoint(s, ModeKey(site, mode)).Some? ==>
      exists k :: k in s.batches && s.batches[k].site == site && s.batches[k].mode == mode
        && s.batches[k].checkpoint == SqlCheckpoint(s, ModeKey(site, mode)).value
        && forall c :: c in s.batches && s.batches[c].site == site && s.batches[c].mode == mode ==>
             && s.batches[c].retrievedAt <= s.batches[k].retrievedAt
             && (s.batches[c].retrievedAt == s.batches[k].retrievedAt ==> StrLe(s.batches[c].checkpoint, s.batches[k].checkpoint))
  {
    var m := ModeKey(site, mode);
    forall k | k in s.batches && s.batches[k].site == site && s.batches[k].mode == mode ensures k in Of(s, m) {}
    if Of(s, m) != {} {
      var k := NewestOf(s, m);
      assert k in Of(s, m);
    }
  }
}
