/** The whole metrics chain: project, promote, append, query. */
module MetricPipeline {
  import opened Wrappers
  import opened MetricModel
  import opened MetricProjector
  import opened MetricGate
  import opened MetricStore
  import opened MetricLookup

  type Naming = Identity -> Names

  /** One delivery: an adapter response with its inputs and crosswalk, evaluated at `at`. */
  datatype Feed = Feed(response: Response, inputs: Inputs, crosswalk: map<string, string>, at: int)

  lemma ProjectedIsRegistered(names: Naming, reg: Registry, f: Feed)
    ensures var r := Project(names, reg, f.response, f.inputs, f.crosswalk);
      r.Ok? ==> Registered(reg, r.value.rows) && BatchOK(r.value) && r.value.mode == reg.enabled
  {
  }

  /** The batch a delivery promotes, if any. */
  function Promoted(names: Naming, reg: Registry, f: Feed): Option<Batch> {
    ProjectedIsRegistered(names, reg, f);
    var r := Project(names, reg, f.response, f.inputs, f.crosswalk);
    if r.Ok? && AllPass(reg, r.value, r.value.rows, f.at) then Some(r.value) else None
  }

  ghost function RunFeeds(names: Naming, reg: Registry, s: Store, fs: seq<Feed>): Store
    decreases |fs|
  {
    if fs == [] then s
    else
      var b := Promoted(names, reg, fs[0]);
      RunFeeds(names, reg, if b.Some? then AppendBatch(s, b.value).0 else s, fs[1..])
  }

  /** Every stored batch was projected from a delivery of the run and passed the promoter. */
  lemma {:induction false} StoredWasFed(names: Naming, reg: Registry, s: Store, fs: seq<Feed>, k: BatchKey) returns (f: Feed)
    requires k in RunFeeds(names, reg, s, fs).batches && k !in s.batches
    ensures f in fs && Promoted(names, reg, f) == Some(RunFeeds(names, reg, s, fs).batches[k])
    decreases |fs|
  {
    var b := Promoted(names, reg, fs[0]);
    var s1 := if b.Some? then AppendBatch(s, b.value).0 else s;
    if k in s1.batches {
      StoredIsKept(names, reg, s1, fs[1..], k);
      f := fs[0];
    } else {
      f := StoredWasFed(names, reg, s1, fs[1..], k);
    }
  }

  lemma {:induction false} StoredIsKept(names: Naming, reg: Registry, s: Store, fs: seq<Feed>, k: BatchKey)
    requires k in s.batches
    ensures k in RunFeeds(names, reg, s, fs).batches && RunFeeds(names, reg, s, fs).batches[k] == s.batches[k]
    decreases |fs|
  {
    if fs != [] {
      var b := Promoted(names, reg, fs[0]);
      StoredIsKept(names, reg, if b.Some? then AppendBatch(s, b.value).0 else s, fs[1..], k);
    }
  }

  function AskedBy(reg: Registry, q: MetricQuery): Wanted { Wanted(q.site, q.metric, reg.enabled, q.windowStart, q.windowEnd) }

  /** What an available answer means, in terms of the delivery `f` it came from. */
  predicate Accounts(toFloat: ToFloat, a: Answer, q: MetricQuery, f: Feed) {
    && RecipeFor(q.metric).Some?
    && f.response.site == q.site && f.inputs.metric == q.metric
    && f.inputs.windowStart == q.windowStart && f.inputs.windowEnd == q.windowEnd
    && a.value == Some(toFloat(FieldSum(RecipeFor(q.metric).value, f.response.rows)))
    && a.included == |f.response.rows| && a.included <= a.total
    && multiset(a.refs) == multiset(Refs(f.response.rows))
  }

  lemma AvailableRowAccounts(toFloat: ToFloat, names: Naming, reg: Registry, q: MetricQuery, f: Feed, x: Stored)
    requires q.metric in reg.definitions && Project(names, reg, f.response, f.inputs, f.crosswalk) == Ok(x.batch)
    requires x.row in x.batch.rows && Matches(AskedBy(reg, q), x.batch, x.row)
    requires Evaluate(toFloat, reg.definitions[q.metric], q, Some(x)).Available()
    ensures Accounts(toFloat, Evaluate(toFloat, reg.definitions[q.metric], q, Some(x)), q, f)
  {
    GovernedValueIsTheWholeSum(names, reg, f.response, f.inputs, f.crosswalk);
    assert x.row == x.batch.rows[0];
  }

  /** End to end: if the store is fed only through project and promote, every available answer is
      the float of the exact sum of the recipe's field over all rows of one delivered response, none dropped. */
  lemma AnswersAreWholeSums(toFloat: ToFloat, names: Naming, reg: Registry, fs: seq<Feed>, q: MetricQuery) returns (f: Feed)
    requires q.metric in reg.definitions
    requires var s := RunFeeds(names, reg, EMPTY, fs);
      Evaluate(toFloat, reg.definitions[q.metric], q, Find(s, AskedBy(reg, q))).Available()
    ensures f in fs && Promoted(names, reg, f).Some?
    ensures var s := RunFeeds(names, reg, EMPTY, fs);
      Accounts(toFloat, Evaluate(toFloat, reg.definitions[q.metric], q, Find(s, AskedBy(reg, q))), q, f)
  {
    var s := RunFeeds(names, reg, EMPTY, fs);
    var w := AskedBy(reg, q);
    var x := Find(s, w).value;
    assert x in Candidates(s, w);
    var k, i :| k in s.batches && 0 <= i < |s.batches[k].rows| && x == Stored(s.batches[k], s.batches[k].rows[i])
      && Matches(w, s.batches[k], s.batches[k].rows[i]);
    f := StoredWasFed(names, reg, EMPTY, fs, k);
    AvailableRowAccounts(toFloat, names, reg, q, f, x);
  }

  /** A delivery answers its own query from the moment it was evaluated until its freshness runs
      out, unless a later one for the same window has replaced it. */
  lemma PromotedAnswers(toFloat: ToFloat, names: Naming, reg: Registry, f: Feed, q: MetricQuery, x: Stored)
    requires f.inputs.metric in reg.definitions && reg.definitions[f.inputs.metric].Valid()
    requires Promoted(names, reg, f) == Some(x.batch) && x.row in x.batch.rows && f.at <= q.queriedAt
    ensures Evaluate(toFloat, reg.definitions[f.inputs.metric], q, Some(x)).Available() <==>
      q.queriedAt <= f.inputs.asOf + reg.definitions[f.inputs.metric].sloSeconds * SECOND
  {
    ProjectedIsRegistered(names, reg, f);
    GovernedValueIsTheWholeSum(names, reg, f.response, f.inputs, f.crosswalk);
    assert x.row == x.batch.rows[0] && RowReason(reg, x.batch, x.row, f.at).None?;
    PromotedRowsStayAvailable(toFloat, reg, x.batch, x.row, f.at, q);
    assert x.row.asOf == f.inputs.asOf;
  }
}
