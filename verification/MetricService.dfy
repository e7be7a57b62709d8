/** InMemoryMetricsRepository and MetricsService, updated in place against MetricStore,
    MetricLookup and MetricGate. */
module MetricService {
  import opened Wrappers
  import opened MetricModel
  import opened MetricStore
  import opened MetricLookup
  import opened MetricGate

  datatype AuditKey = AuditKey(site: string, audit: string)

  datatype Audit = Audit(
    id: string, requestId: string, wanted: Wanted, queriedAt: int, reason: Option<UnavailableReason>,
    batchId: Option<string>, rowId: Option<string>)
  {
    function Key(): AuditKey { AuditKey(wanted.site, id) }
  }

  class MetricsRepository {
    var batches: map<BatchKey, Batch>
    var rowIds: map<RowKey, (string, Row)>
    var checkpoints: map<ModeKey, string>
    var checkpointBatches: map<CheckpointKey, string>
    var audits: map<AuditKey, Audit>

    ghost function Contents(): Store
      reads this
    {
      Store(batches, rowIds, checkpoints, checkpointBatches)
    }

    ghost predicate Valid()
      reads this
    {
      Inv(Contents())
    }

    constructor ()
      ensures Valid() && Contents() == EMPTY && audits == map[]
    {
      batches, rowIds, checkpoints, checkpointBatches, audits := map[], map[], map[], map[], map[];
    }

    /** The first loop of append_batch: is any row id taken? */
    method RowTaken(b: Batch) returns (taken: bool)
      ensures taken <==> RowIdUsed(Contents(), b, b.rows)
    {
      for i := 0 to |b.rows|
        invariant !RowIdUsed(Contents(), b, b.rows[..i])
      {
        if RowKey(b.site, b.rows[i].rowId) in rowIds {
          return true;
        }
      }
      assert b.rows[..|b.rows|] == b.rows;
      return false;
    }

    /** The second loop: index every row. */
    method IndexRows(b: Batch)
      modifies this`rowIds
      ensures rowIds == AddRows(old(rowIds), b, b.rows)
    {
      for i := 0 to |b.rows|
        invariant rowIds == AddRows(old(rowIds), b, b.rows[..i])
      {
        assert b.rows[..i+1][..i] == b.rows[..i];
        rowIds := rowIds[RowKey(b.site, b.rows[i].rowId) := (b.batchId, b.rows[i])];
      }
      assert b.rows[..|b.rows|] == b.rows;
    }

    method AppendBatch(b: Batch) returns (r: Result<Batch, StoreError>)
      requires Valid() && BatchOK(b)
      modifies this`batches, this`rowIds, this`checkpoints, this`checkpointBatches
      ensures Valid()
      ensures (Contents(), r) == MetricStore.AppendBatch(old(Contents()), b)
    {
      AppendKeepsInv(Contents(), b);
      var key := KeyOf(b);
      if key in batches {
        if batches[key] != b {
          return Err(ImmutableConflict);
        }
        return Ok(batches[key]);
      }
      if exists k :: k in batches && batches[k].site == b.site && batches[k].mode != b.mode {
        return Err(ModeConflict);
      }
      if CheckpointOf(b) in checkpointBatches {
        return Err(ImmutableConflict);
      }
      var taken := RowTaken(b);
      if taken {
        return Err(ImmutableConflict);
      }
      batches := batches[key := b];
      IndexRows(b);
      checkpoints := checkpoints[ModeOf(b) := b.checkpoint];
      checkpointBatches := checkpointBatches[CheckpointOf(b) := b.batchId];
      return Ok(b);
    }

    /** max over the matching rows by (retrieved_at, batch_id, row_id). */
    method FindProjection(w: Wanted) returns (r: Option<Stored>)
      requires Valid()
      ensures r == Find(Contents(), w)
    {
      var candidates := set k, i | k in batches && 0 <= i < |batches[k].rows| && Matches(w, batches[k], batches[k].rows[i])
        :: Stored(batches[k], batches[k].rows[i]);
      assert candidates == Candidates(Contents(), w);
      if candidates == {} {
        return None;
      }
      var best :| best in candidates;
      var rest := candidates - {best};
      NotLaterIsTotalOrder(best, best, best);
      while rest != {}
        invariant rest <= candidates && best in candidates
        invariant forall c :: c in candidates - rest ==> NotLater(c, best)
        decreases rest
      {
        var c :| c in rest;
        NotLaterIsTotalOrder(best, c, c);
        if !NotLater(c, best) {
          forall d | d in candidates - rest ensures NotLater(d, c) { NotLaterIsTotalOrder(d, best, c); }
          best := c;
        }
        NotLaterIsTotalOrder(c, c, c);
        rest := rest - {c};
      }
      LatestIsUnique(Contents(), w, best, Find(Contents(), w).value);
      return Some(best);
    }

    /** `bs` are the batches appended so far, in order. */
    method Checkpoint(m: ModeKey, ghost bs: seq<Batch>) returns (r: Option<string>)
      requires Contents() == Run(EMPTY, bs)
      ensures r.None? <==> NoneAccepted(bs, m)
      ensures r.Some? ==> exists i: nat :: LastAccepted(bs, m, i) && r.value == bs[i].checkpoint
    {
      CheckpointIsLastAccepted(bs, m);
      if m in checkpoints {
        return Some(checkpoints[m]);
      }
      return None;
    }

    /** Append-only audits: the same audit replays, another under its id conflicts. */
    method AppendAudit(a: Audit) returns (r: Result<Audit, StoreError>)
      modifies this`audits
      ensures r.Ok? <==> (a.Key() in old(audits) ==> old(audits)[a.Key()] == a)
      ensures r.Ok? ==> r.value == a && audits == old(audits)[a.Key() := a]
      ensures r.Err? ==> r.error == ImmutableConflict && audits == old(audits)
      ensures forall k :: k in old(audits) ==> k in audits && audits[k] == old(audits)[k]
    {
      if a.Key() in audits {
        if audits[a.Key()] != a {
          return Err(ImmutableConflict);
        }
        return Ok(audits[a.Key()]);
      }
      audits := audits[a.Key() := a];
      return Ok(a);
    }
  }

  datatype QueryError = NotRegistered | WindowMismatch | AuditConflict

  class Service {
    const registry: Registry
    const mode: SourceMode
    const repository: MetricsRepository
    const toFloat: ToFloat

    constructor (reg: Registry, repo: MetricsRepository, convert: ToFloat)
      ensures registry == reg && repository == repo && mode == reg.enabled && toFloat == convert
    {
      registry, repository, mode, toFloat := reg, repo, reg.enabled, convert;
    }

    function WantedBy(q: MetricQuery): Wanted { Wanted(q.site, q.metric, mode, q.windowStart, q.windowEnd) }

    /** Every answer is the evaluation of the latest matching row, and leaves exactly one audit
        with the same verdict. `auditId` is the random id drawn for this call. */
    method Query(q: MetricQuery, auditId: string) returns (r: Result<Answer, QueryError>)
      requires repository.Valid()
      modifies repository`audits
      ensures repository.Valid() && repository.Contents() == old(repository.Contents())
      ensures r == Err(NotRegistered) <==> q.metric !in registry.definitions
      ensures r == Err(WindowMismatch) <==>
        && q.metric in registry.definitions
        && (registry.definitions[q.metric].window == PointInTime) != (q.windowStart == q.windowEnd)
      ensures r == Err(AuditConflict) ==> AuditKey(q.site, auditId) in old(repository.audits)
      ensures r.Err? ==> repository.audits == old(repository.audits)
      ensures r.Ok? ==>
        && q.metric in registry.definitions
        && var found := Find(repository.Contents(), WantedBy(q));
        && r.value == Evaluate(toFloat, registry.definitions[q.metric], q, found)
        && (found.Some? && registry.definitions[q.metric].Valid() && Counted(found.value.row) ==>
              Answers(toFloat, registry.definitions[q.metric], found.value.row, q.queriedAt, r.value))
        && (found.None? ==> r.value.reason == Some(SourceUnavailable) && r.value.value.None?)
        && repository.audits == old(repository.audits)[AuditKey(q.site, auditId) :=
             Audit(auditId, q.requestId, WantedBy(q), q.queriedAt, r.value.reason,
                   if found.Some? then Some(found.value.batch.batchId) else None,
                   if found.Some? then Some(found.value.row.rowId) else None)]
    {
      if q.metric !in registry.definitions {
        return Err(NotRegistered);
      }
      var def := registry.definitions[q.metric];
      var instant := q.windowStart == q.windowEnd;
      if (def.window == PointInTime) != instant {
        return Err(WindowMismatch);
      }
      var found := repository.FindProjection(WantedBy(q));
      var answer := Evaluate(toFloat, def, q, found);
      if found.Some? && def.Valid() && Counted(found.value.row) { EvaluateAnswers(toFloat, def, q, found.value); }
      var audit := Audit(auditId, q.requestId, WantedBy(q), q.queriedAt, answer.reason,
                         if found.Some? then Some(found.value.batch.batchId) else None,
                         if found.Some? then Some(found.value.row.rowId) else None);
      var appended := repository.AppendAudit(audit);
      if appended.Err? {
        return Err(AuditConflict);
      }
      return Ok(answer);
    }
  }
}
