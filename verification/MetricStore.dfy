/** The append-only metrics store as functions on its whole state, and what holds over every run
    of appends. */
module MetricStore {
  import opened Wrappers
  import opened MetricModel

  datatype BatchKey = BatchKey(site: string, batch: string)
  datatype RowKey = RowKey(site: string, row: string)
  datatype ModeKey = ModeKey(site: string, mode: SourceMode)
  datatype CheckpointKey = CheckpointKey(site: string, mode: SourceMode, checkpoint: string)

  datatype Store = Store(
    batches: map<BatchKey, Batch>, rowIds: map<RowKey, (string, Row)>,
    checkpoints: map<ModeKey, string>, checkpointBatches: map<CheckpointKey, string>)

  const EMPTY: Store := Store(map[], map[], map[], map[])

  datatype StoreError = ImmutableConflict | ModeConflict

  function KeyOf(b: Batch): BatchKey { BatchKey(b.site, b.batchId) }
  function ModeOf(b: Batch): ModeKey { ModeKey(b.site, b.mode) }
  function CheckpointOf(b: Batch): CheckpointKey { CheckpointKey(b.site, b.mode, b.checkpoint) }

  /** What the batch constructor enforces of its rows. */
  predicate BatchOK(b: Batch) {
    b.rows != [] && forall i, j :: 0 <= i < j < |b.rows| ==> b.rows[i].rowId != b.rows[j].rowId
  }

  predicate OtherMode(s: Store, b: Batch) {
    exists k :: k in s.batches && s.batches[k].site == b.site && s.batches[k].mode != b.mode
  }

  predicate RowIdUsed(s: Store, b: Batch, rows: seq<Row>) {
    exists i :: 0 <= i < |rows| && RowKey(b.site, rows[i].rowId) in s.rowIds
  }

  function AddRows(ids: map<RowKey, (string, Row)>, b: Batch, rows: seq<Row>): map<RowKey, (string, Row)> {
    if rows == [] then ids
    else AddRows(ids, b, rows[..|rows|-1])[RowKey(b.site, rows[|rows|-1].rowId) := (b.batchId, rows[|rows|-1])]
  }

  function Added(s: Store, b: Batch): Store {
    Store(s.batches[KeyOf(b) := b], AddRows(s.rowIds, b, b.rows), s.checkpoints[ModeOf(b) := b.checkpoint],
          s.checkpointBatches[CheckpointOf(b) := b.batchId])
  }

  predicate Accepts(s: Store, b: Batch) {
    && KeyOf(b) !in s.batches && !OtherMode(s, b)
    && CheckpointOf(b) !in s.checkpointBatches && !RowIdUsed(s, b, b.rows)
  }

  function AppendBatch(s: Store, b: Batch): (Store, Result<Batch, StoreError>) {
    if KeyOf(b) in s.batches then
      if s.batches[KeyOf(b)] != b then (s, Err(ImmutableConflict)) else (s, Ok(s.batches[KeyOf(b)]))
    else if OtherMode(s, b) then (s, Err(ModeConflict))
    else if CheckpointOf(b) in s.checkpointBatches then (s, Err(ImmutableConflict))
    else if RowIdUsed(s, b, b.rows) then (s, Err(ImmutableConflict))
    else (Added(s, b), Ok(b))
  }

  // ---- the indexes mirror the batches ---------------------------------------------------------

  predicate HasRow(b: Batch, row: Row) { exists i :: 0 <= i < |b.rows| && b.rows[i] == row }

  /** Every part of a stored batch is indexed. */
  predicate BatchEntry(s: Store, k: BatchKey) {
    k in s.batches ==>
      var b := s.batches[k];
      && KeyOf(b) == k && BatchOK(b)
      && CheckpointOf(b) in s.checkpointBatches && s.checkpointBatches[CheckpointOf(b)] == b.batchId
      && ModeOf(b) in s.checkpoints
      && forall i :: 0 <= i < |b.rows| ==> RowKey(b.site, b.rows[i].rowId) in s.rowIds && s.rowIds[RowKey(b.site, b.rows[i].rowId)] == (b.batchId, b.rows[i])
  }

  /** Every indexed row is a row of a stored batch. */
  predicate RowEntry(s: Store, r: RowKey) {
    r in s.rowIds ==>
      && s.rowIds[r].1.rowId == r.row
      && BatchKey(r.site, s.rowIds[r].0) in s.batches
      && HasRow(s.batches[BatchKey(r.site, s.rowIds[r].0)], s.rowIds[r].1)
  }

  /** Every recorded checkpoint is that of a stored batch. */
  predicate CheckpointEntry(s: Store, c: CheckpointKey) {
    c in s.checkpointBatches ==>
      BatchKey(c.site, s.checkpointBatches[c]) in s.batches && CheckpointOf(s.batches[BatchKey(c.site, s.checkpointBatches[c])]) == c
  }

  predicate ModeEntry(s: Store, m: ModeKey) {
    m in s.checkpoints ==> CheckpointKey(m.site, m.mode, s.checkpoints[m]) in s.checkpointBatches
  }

  predicate SameMode(s: Store, j: BatchKey, k: BatchKey) {
    j in s.batches && k in s.batches && s.batches[j].site == s.batches[k].site ==> s.batches[j].mode == s.batches[k].mode
  }

  ghost predicate Inv(s: Store) {
    && (forall k {:trigger BatchEntry(s, k)} :: BatchEntry(s, k))
    && (forall r {:trigger RowEntry(s, r)} :: RowEntry(s, r))
    && (forall c {:trigger CheckpointEntry(s, c)} :: CheckpointEntry(s, c))
    && (forall m {:trigger ModeEntry(s, m)} :: ModeEntry(s, m))
    && (forall j, k {:trigger SameMode(s, j, k)} :: SameMode(s, j, k))
  }

  lemma {:induction false} AddRowsIs(ids: map<RowKey, (string, Row)>, b: Batch, rows: seq<Row>)
    requires forall i, j :: 0 <= i < j < |rows| ==> rows[i].rowId != rows[j].rowId
    ensures var r := AddRows(ids, b, rows);
      && (forall i :: 0 <= i < |rows| ==> RowKey(b.site, rows[i].rowId) in r && r[RowKey(b.site, rows[i].rowId)] == (b.batchId, rows[i]))
      && (forall k :: k in ids && (forall i :: 0 <= i < |rows| ==> k != RowKey(b.site, rows[i].rowId)) ==> k in r && r[k] == ids[k])
      && (forall k :: k in r ==> (k in ids && r[k] == ids[k]) || exists i :: 0 <= i < |rows| && k == RowKey(b.site, rows[i].rowId) && r[k] == (b.batchId, rows[i]))
    decreases |rows|
  {
    if rows != [] {
      var n := |rows| - 1;
      AddRowsIs(ids, b, rows[..n]);
      var before, r := AddRows(ids, b, rows[..n]), AddRows(ids, b, rows);
      forall i | 0 <= i < |rows| ensures RowKey(b.site, rows[i].rowId) in r && r[RowKey(b.site, rows[i].rowId)] == (b.batchId, rows[i]) {
        if i < n { assert rows[..n][i] == rows[i]; }
      }
      forall k | k in r ensures (k in ids && r[k] == ids[k]) || exists i :: 0 <= i < |rows| && k == RowKey(b.site, rows[i].rowId) && r[k] == (b.batchId, rows[i]) {
        if k != RowKey(b.site, rows[n].rowId) {
          assert k in before;
          if !(k in ids && r[k] == ids[k]) {
            var i :| 0 <= i < n && k == RowKey(b.site, rows[..n][i].rowId) && before[k] == (b.batchId, rows[..n][i]);
            assert rows[..n][i] == rows[i];
          }
        }
      }
    }
  }

  lemma AddedKeepsRows(s: Store, b: Batch)
    requires Inv(s) && Accepts(s, b) && BatchOK(b)
    ensures var s' := Added(s, b); forall r {:trigger RowEntry(s', r)} :: RowEntry(s', r)
  {
    var s' := Added(s, b);
    AddRowsIs(s.rowIds, b, b.rows);
    forall r ensures RowEntry(s', r) {
      assert RowEntry(s, r);
    }
  }

  lemma AddedKeepsBatch(s: Store, b: Batch, k: BatchKey)
    requires Inv(s) && Accepts(s, b) && BatchOK(b)
    ensures BatchEntry(Added(s, b), k)
  {
    AddRowsIs(s.rowIds, b, b.rows);
    assert BatchEntry(s, k);
    if k in s.batches {
      var c := s.batches[k];
      forall i | 0 <= i < |c.rows| ensures RowKey(c.site, c.rows[i].rowId) in Added(s, b).rowIds
        && Added(s, b).rowIds[RowKey(c.site, c.rows[i].rowId)] == (c.batchId, c.rows[i])
      {
        assert RowKey(c.site, c.rows[i].rowId) in s.rowIds;
      }
    }
  }

  lemma AddedKeepsOthers(s: Store, b: Batch)
    requires Inv(s) && Accepts(s, b)
    ensures var s' := Added(s, b);
      && (forall c {:trigger CheckpointEntry(s', c)} :: CheckpointEntry(s', c))
      && (forall m {:trigger ModeEntry(s', m)} :: ModeEntry(s', m))
      && (forall j, k {:trigger SameMode(s', j, k)} :: SameMode(s', j, k))
  {
    var s' := Added(s, b);
    forall c ensures CheckpointEntry(s', c) { assert CheckpointEntry(s, c); }
    forall m ensures ModeEntry(s', m) { assert ModeEntry(s, m); }
    forall j, k ensures SameMode(s', j, k) { assert SameMode(s, j, k); }
  }

  lemma AppendKeepsInv(s: Store, b: Batch)
    requires Inv(s) && BatchOK(b)
    ensures Inv(AppendBatch(s, b).0)
  {
    if Accepts(s, b) {
      AddedKeepsRows(s, b);
      AddedKeepsOthers(s, b);
      forall k ensures BatchEntry(Added(s, b), k) { AddedKeepsBatch(s, b, k); }
    }
  }

  // ---- runs -----------------------------------------------------------------------------------

  ghost function Run(s: Store, bs: seq<Batch>): Store
    decreases |bs|
  {
    if bs == [] then s else Run(AppendBatch(s, bs[0]).0, bs[1..])
  }

  predicate Constructed(bs: seq<Batch>) { forall i :: 0 <= i < |bs| ==> BatchOK(bs[i]) }

  lemma {:induction false} RunKeepsInv(s: Store, bs: seq<Batch>)
    requires Inv(s) && Constructed(bs)
    ensures Inv(Run(s, bs))
    decreases |bs|
  {
    if bs != [] {
      AppendKeepsInv(s, bs[0]);
      RunKeepsInv(AppendBatch(s, bs[0]).0, bs[1..]);
    }
  }

  ghost predicate Grew(s: Store, s': Store) {
    forall k {:trigger s'.batches[k]} {:trigger k in s'.batches} :: k in s.batches ==> k in s'.batches && s'.batches[k] == s.batches[k]
  }

  lemma {:induction false} RunGrows(s: Store, bs: seq<Batch>)
    ensures Grew(s, Run(s, bs))
    decreases |bs|
  {
    if bs != [] {
      RunGrows(AppendBatch(s, bs[0]).0, bs[1..]);
    }
  }

  /** Nothing is stored that was not appended. */
  lemma {:induction false} RunOnlyAddsAppended(s: Store, bs: seq<Batch>, k: BatchKey)
    requires k in Run(s, bs).batches && k !in s.batches
    ensures Run(s, bs).batches[k] in bs
    decreases |bs|
  {
    if bs != [] {
      var s1 := AppendBatch(s, bs[0]).0;
      if k in s1.batches {
        RunGrows(s1, bs[1..]);
      } else {
        RunOnlyAddsAppended(s1, bs[1..], k);
      }
    }
  }

  /** An accepted batch can be appended again after any later run: it is returned and nothing
      changes. A rejected append changes nothing either. */
  lemma ReplayIsNoOp(s: Store, b: Batch, later: seq<Batch>)
    ensures AppendBatch(s, b).1.Err? ==> AppendBatch(s, b).0 == s
    ensures AppendBatch(s, b).1.Ok? ==>
      var s' := Run(AppendBatch(s, b).0, later); AppendBatch(s', b) == (s', Ok(b))
  {
    RunGrows(AppendBatch(s, b).0, later);
  }

  /** In every reachable store: one mode per site, and indexes that hold exactly the rows and
      checkpoints of the stored batches. */
  lemma IndexesMirrorBatches(bs: seq<Batch>, site: string, id: string, b: Batch)
    requires Constructed(bs)
    ensures var s := Run(EMPTY, bs);
      && (RowKey(site, id) in s.rowIds <==> exists k, i :: k in s.batches && k.site == site && 0 <= i < |s.batches[k].rows| && s.batches[k].rows[i].rowId == id)
      && (CheckpointOf(b) in s.checkpointBatches <==> exists k :: k in s.batches && CheckpointOf(s.batches[k]) == CheckpointOf(b))
      && (ModeOf(b) in s.checkpoints <==> exists k :: k in s.batches && ModeOf(s.batches[k]) == ModeOf(b))
      && (forall j, k :: j in s.batches && k in s.batches && j.site == k.site ==> s.batches[j].mode == s.batches[k].mode)
  {
    RunKeepsInv(EMPTY, bs);
    var s := Run(EMPTY, bs);
    assert RowEntry(s, RowKey(site, id)) && CheckpointEntry(s, CheckpointOf(b)) && ModeEntry(s, ModeOf(b));
    RowsAreBacked(s, site, id);
    if ModeOf(b) in s.checkpoints {
      assert CheckpointEntry(s, CheckpointKey(b.site, b.mode, s.checkpoints[ModeOf(b)]));
    }
    forall k | k in s.batches ensures BatchEntry(s, k) {}
    forall j, k | j in s.batches && k in s.batches && j.site == k.site ensures s.batches[j].mode == s.batches[k].mode {
      assert BatchEntry(s, j) && BatchEntry(s, k) && SameMode(s, j, k);
    }
  }

  lemma RowsAreBacked(s: Store, site: string, id: string)
    requires Inv(s)
    ensures RowKey(site, id) in s.rowIds <==> exists k, i :: k in s.batches && k.site == site && 0 <= i < |s.batches[k].rows| && s.batches[k].rows[i].rowId == id
  {
    assert RowEntry(s, RowKey(site, id));
    if RowKey(site, id) in s.rowIds {
      var k := BatchKey(site, s.rowIds[RowKey(site, id)].0);
      var i :| 0 <= i < |s.batches[k].rows| && s.batches[k].rows[i] == s.rowIds[RowKey(site, id)].1;
      assert s.batches[k].rows[i].rowId == id;
    }
    forall k, i | k in s.batches && k.site == site && 0 <= i < |s.batches[k].rows| && s.batches[k].rows[i].rowId == id
      ensures RowKey(site, id) in s.rowIds
    {
      assert BatchEntry(s, k);
    }
  }
}
