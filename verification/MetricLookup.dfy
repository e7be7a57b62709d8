/** Reading the metrics store: the latest projection for a window, and the two checkpoints. */
module MetricLookup {
  import opened Wrappers
  import opened Ordering
  import opened MetricModel
  import opened MetricStore

  // ---- find_projection ------------------------------------------------------------------------

  datatype Wanted = Wanted(site: string, metric: MetricKey, mode: SourceMode, windowStart: int, windowEnd: int)

  predicate Matches(w: Wanted, b: Batch, row: Row) {
    && b.site == w.site && b.mode == w.mode
    && row.metric == w.metric && row.windowStart == w.windowStart && row.windowEnd == w.windowEnd
  }

  function Candidates(s: Store, w: Wanted): set<Stored> {
    set k, i | k in s.batches && 0 <= i < |s.batches[k].rows| && Matches(w, s.batches[k], s.batches[k].rows[i])
      :: Stored(s.batches[k], s.batches[k].rows[i])
  }

  /** Order by (retrieved_at, batch_id, row_id). */
  predicate NotLater(a: Stored, b: Stored) {
    if a.batch.retrievedAt != b.batch.retrievedAt then a.batch.retrievedAt < b.batch.retrievedAt
    else if a.batch.batchId != b.batch.batchId then StrLe(a.batch.batchId, b.batch.batchId)
    else StrLe(a.row.rowId, b.row.rowId)
  }

  lemma NotLaterIsTotalOrder(a: Stored, b: Stored, c: Stored)
    ensures NotLater(a, a)
    ensures NotLater(a, b) || NotLater(b, a)
    ensures NotLater(a, b) && NotLater(b, c) ==> NotLater(a, c)
    ensures NotLater(a, b) && NotLater(b, a) ==> a.batch.batchId == b.batch.batchId && a.row.rowId == b.row.rowId
  {
    StrLeReflexive(a.row.rowId);
    StrLeTotal(a.batch.batchId, b.batch.batchId);
    StrLeTotal(a.row.rowId, b.row.rowId);
    if StrLe(a.batch.batchId, b.batch.batchId) && StrLe(b.batch.batchId, c.batch.batchId) {
      StrLeTransitive(a.batch.batchId, b.batch.batchId, c.batch.batchId);
    }
    if StrLe(a.batch.batchId, b.batch.batchId) && StrLe(b.batch.batchId, a.batch.batchId) {
      StrLeAntisymmetric(a.batch.batchId, b.batch.batchId);
    }
    if c.batch.batchId == a.batch.batchId && StrLe(a.batch.batchId, b.batch.batchId) && StrLe(b.batch.batchId, c.batch.batchId) {
      StrLeAntisymmetric(a.batch.batchId, b.batch.batchId);
    }
    if StrLe(a.row.rowId, b.row.rowId) && StrLe(b.row.rowId, c.row.rowId) {
      StrLeTransitive(a.row.rowId, b.row.rowId, c.row.rowId);
    }
    if StrLe(a.row.rowId, b.row.rowId) && StrLe(b.row.rowId, a.row.rowId) { StrLeAntisymmetric(a.row.rowId, b.row.rowId); }
  }

  ghost predicate IsLatest(xs: set<Stored>, x: Stored) {
    x in xs && forall c :: c in xs ==> NotLater(c, x)
  }

  lemma {:induction false} LatestExists(xs: set<Stored>)
    requires xs != {}
    ensures exists x :: IsLatest(xs, x)
    decreases |xs|
  {
    var x :| x in xs;
    var rest := xs - {x};
    NotLaterIsTotalOrder(x, x, x);
    if rest == {} {
      assert xs == {x};
      assert IsLatest(xs, x);
    } else {
      LatestExists(rest);
      var m :| IsLatest(rest, m);
      var best := if NotLater(m, x) then x else m;
      forall c | c in xs ensures NotLater(c, best) { NotLaterIsTotalOrder(c, m, x); NotLaterIsTotalOrder(m, x, x); }
      assert IsLatest(xs, best);
    }
  }

  ghost function Find(s: Store, w: Wanted): (r: Option<Stored>)
    ensures r.None? <==> Candidates(s, w) == {}
    ensures r.Some? ==> IsLatest(Candidates(s, w), r.value)
  {
    var xs := Candidates(s, w);
    if xs == {} then None
    else
      LatestExists(xs);
      var x :| IsLatest(xs, x);
      Some(x)
  }

  /** In a consistent store the greatest key belongs to one row only, so `max` has no ties. */
  lemma LatestIsUnique(s: Store, w: Wanted, x: Stored, y: Stored)
    requires Inv(s) && IsLatest(Candidates(s, w), x) && IsLatest(Candidates(s, w), y)
    ensures x == y
  {
    NotLaterIsTotalOrder(x, y, x);
    var j, a :| j in s.batches && 0 <= a < |s.batches[j].rows| && x == Stored(s.batches[j], s.batches[j].rows[a]);
    var k, b :| k in s.batches && 0 <= b < |s.batches[k].rows| && y == Stored(s.batches[k], s.batches[k].rows[b]);
    assert BatchEntry(s, j) && BatchEntry(s, k);
    assert s.batches[j].site == w.site == s.batches[k].site;
  }

  /** Appends never make the answer to a fixed question older, and never take it away. */
  lemma AnswersNeverGetOlder(s: Store, bs: seq<Batch>, w: Wanted)
    requires Find(s, w).Some?
    ensures Find(Run(s, bs), w).Some? && NotLater(Find(s, w).value, Find(Run(s, bs), w).value)
  {
    RunGrows(s, bs);
    var x, s' := Find(s, w).value, Run(s, bs);
    var k, i :| k in s.batches && 0 <= i < |s.batches[k].rows| && x == Stored(s.batches[k], s.batches[k].rows[i])
      && Matches(w, s.batches[k], s.batches[k].rows[i]);
    assert k in s'.batches && s'.batches[k] == s.batches[k];
    assert x in Candidates(s', w);
  }

  // ---- checkpoint -----------------------------------------------------------------------------

  /** The in-memory checkpoint: that of the batch appended last. */
  function MemoryCheckpoint(s: Store, m: ModeKey): Option<string> {
    if m in s.checkpoints then Some(s.checkpoints[m]) else None
  }

  /** ORDER BY recorded_at, checkpoint; recorded_at is the batch's retrieved_at. */
  predicate NoNewer(a: Batch, b: Batch) {
    if a.retrievedAt != b.retrievedAt then a.retrievedAt < b.retrievedAt else StrLe(a.checkpoint, b.checkpoint)
  }

  lemma NoNewerIsTotalOrder(a: Batch, b: Batch, c: Batch)
    ensures NoNewer(a, a)
    ensures NoNewer(a, b) || NoNewer(b, a)
    ensures NoNewer(a, b) && NoNewer(b, c) ==> NoNewer(a, c)
    ensures NoNewer(a, b) && NoNewer(b, a) ==> a.checkpoint == b.checkpoint
  {
    StrLeReflexive(a.checkpoint);
    StrLeTotal(a.checkpoint, b.checkpoint);
    if StrLe(a.checkpoint, b.checkpoint) && StrLe(b.checkpoint, c.checkpoint) { StrLeTransitive(a.checkpoint, b.checkpoint, c.checkpoint); }
    if StrLe(a.checkpoint, b.checkpoint) && StrLe(b.checkpoint, a.checkpoint) { StrLeAntisymmetric(a.checkpoint, b.checkpoint); }
  }

  function Of(s: Store, m: ModeKey): set<BatchKey> {
    set k | k in s.batches && ModeOf(s.batches[k]) == m
  }

  ghost predicate IsNewest(s: Store, ks: set<BatchKey>, k: BatchKey) {
    k in ks && k in s.batches && forall c :: c in ks && c in s.batches ==> NoNewer(s.batches[c], s.batches[k])
  }

  lemma {:induction false} NewestExists(s: Store, ks: set<BatchKey>)
    requires ks != {} && ks <= s.batches.Keys
    ensures exists k :: IsNewest(s, ks, k)
    decreases |ks|
  {
    var x :| x in ks;
    var rest := ks - {x};
    NoNewerIsTotalOrder(s.batches[x], s.batches[x], s.batches[x]);
    if rest == {} {
      assert ks == {x};
      assert IsNewest(s, ks, x);
    } else {
      NewestExists(s, rest);
      var m :| IsNewest(s, rest, m);
      var best := if NoNewer(s.batches[m], s.batches[x]) then x else m;
      forall c | c in ks ensures NoNewer(s.batches[c], s.batches[best]) {
        NoNewerIsTotalOrder(s.batches[c], s.batches[m], s.batches[x]);
        NoNewerIsTotalOrder(s.batches[m], s.batches[x], s.batches[x]);
      }
      assert IsNewest(s, ks, best);
    }
  }

  ghost function NewestOf(s: Store, m: ModeKey): (k: BatchKey)
    requires Of(s, m) != {}
    ensures IsNewest(s, Of(s, m), k)
  {
    NewestExists(s, Of(s, m));
    var k :| IsNewest(s, Of(s, m), k);
    k
  }

  /** The PostgreSQL checkpoint: that of the newest recorded batch. */
  ghost function SqlCheckpoint(s: Store, m: ModeKey): Option<string> {
    if Of(s, m) == {} then None else Some(s.batches[NewestOf(s, m)].checkpoint)
  }

  ghost predicate CheckpointsAgree(s: Store, m: ModeKey) { MemoryCheckpoint(s, m) == SqlCheckpoint(s, m) }

  /** The batch is newer than everything stored for its site and mode. */
  ghost predicate Newest(s: Store, b: Batch) {
    forall k :: k in s.batches && ModeOf(s.batches[k]) == ModeOf(b) ==> NoNewer(s.batches[k], b)
  }

  /** After an accepted append the two checkpoints of its site and mode agree exactly when the new
      batch is newer than everything stored; those of every other site and mode are unaffected. */
  lemma CheckpointsAgreeIff(s: Store, b: Batch)
    requires Inv(s) && Accepts(s, b) && BatchOK(b)
    ensures CheckpointsAgree(AppendBatch(s, b).0, ModeOf(b)) <==> Newest(s, b)
  {
    var s' := Added(s, b);
    assert KeyOf(b) in Of(s', ModeOf(b));
    var k := NewestOf(s', ModeOf(b));
    NoNewerIsTotalOrder(b, s'.batches[k], b);
    if Newest(s, b) {
      assert s'.batches[k].checkpoint == b.checkpoint;
    } else {
      var c :| c in s.batches && ModeOf(s.batches[c]) == ModeOf(b) && !NoNewer(s.batches[c], b);
      assert c in Of(s', ModeOf(b)) && NoNewer(s'.batches[c], s'.batches[k]);
      assert BatchEntry(s, k);
    }
  }

  lemma OtherCheckpointsUnmoved(s: Store, b: Batch, m: ModeKey)
    requires Accepts(s, b) && m != ModeOf(b)
    ensures MemoryCheckpoint(Added(s, b), m) == MemoryCheckpoint(s, m)
    ensures SqlCheckpoint(Added(s, b), m) == SqlCheckpoint(s, m)
  {
    var s' := Added(s, b);
    assert Of(s', m) == Of(s, m);
    if Of(s, m) != {} {
      NoNewerIsTotalOrder(s.batches[NewestOf(s, m)], s.batches[NewestOf(s', m)], s.batches[NewestOf(s, m)]);
    }
  }

  // ---- over runs ------------------------------------------------------------------------------

  lemma {:induction false} RunSnoc(s: Store, bs: seq<Batch>, b: Batch)
    ensures Run(s, bs + [b]) == AppendBatch(Run(s, bs), b).0
    decreases |bs|
  {
    if bs == [] {
      assert ([] + [b])[1..] == [];
    } else {
      assert (bs + [b])[1..] == bs[1..] + [b];
      RunSnoc(AppendBatch(s, bs[0]).0, bs[1..], b);
    }
  }

  lemma {:induction false} AddRowsKeeps(ids: map<RowKey, (string, Row)>, b: Batch, rows: seq<Row>, r: RowKey)
    requires r in ids
    ensures r in AddRows(ids, b, rows)
    decreases |rows|
  {
    if rows != [] { AddRowsKeeps(ids, b, rows[..|rows|-1], r); }
  }

  lemma RejectedStays(s: Store, c: Batch, b: Batch)
    requires AppendBatch(s, b).1.Err?
    ensures AppendBatch(AppendBatch(s, c).0, b).1.Err?
  {
    var s' := AppendBatch(s, c).0;
    if s' != s && !OtherMode(s, b) && KeyOf(b) !in s.batches && CheckpointOf(b) !in s.checkpointBatches {
      var i :| 0 <= i < |b.rows| && RowKey(b.site, b.rows[i].rowId) in s.rowIds;
      AddRowsKeeps(s.rowIds, c, c.rows, RowKey(b.site, b.rows[i].rowId));
      assert RowIdUsed(s', b, b.rows);
    } else if OtherMode(s, b) {
      var k :| k in s.batches && s.batches[k].site == b.site && s.batches[k].mode != b.mode;
      assert k in s'.batches && s'.batches[k] == s.batches[k];
    }
  }

  /** Verdicts are final: a batch rejected once is rejected after every later run. */
  lemma {:induction false} RejectionIsFinal(s: Store, b: Batch, later: seq<Batch>)
    requires AppendBatch(s, b).1.Err?
    ensures AppendBatch(Run(s, later), b).1.Err?
    decreases |later|
  {
    if later != [] {
      RejectedStays(s, later[0], b);
      RejectionIsFinal(AppendBatch(s, later[0]).0, b, later[1..]);
    }
  }

  lemma {:induction false} RunSplit(s: Store, xs: seq<Batch>, ys: seq<Batch>)
    ensures Run(s, xs + ys) == Run(Run(s, xs), ys)
    decreases |xs|
  {
    if xs == [] {
      assert xs + ys == ys;
    } else {
      assert (xs + ys)[1..] == xs[1..] + ys;
      RunSplit(AppendBatch(s, xs[0]).0, xs[1..], ys);
    }
  }

  /** Appending again a batch that the run has seen changes nothing. */
  lemma RepeatChangesNothing(bs: seq<Batch>, b: Batch)
    requires b in bs
    ensures AppendBatch(Run(EMPTY, bs), b).0 == Run(EMPTY, bs)
  {
    var i :| 0 <= i < |bs| && bs[i] == b;
    var s, later := Run(EMPTY, bs[..i]), bs[i+1..];
    assert bs == bs[..i] + ([b] + later);
    RunSplit(EMPTY, bs[..i], [b] + later);
    assert ([b] + later)[1..] == later;
    ReplayIsNoOp(s, b, later);
    if AppendBatch(s, b).1.Err? { RejectionIsFinal(s, b, later); ReplayIsNoOp(Run(s, later), b, []); }
  }

  /** Every batch is a repeat or was retrieved later than all earlier ones of its site and mode. */
  predicate Chronological(bs: seq<Batch>) {
    forall j :: 0 <= j < |bs| ==> bs[j] in bs[..j] || InOrder(bs, j)
  }

  predicate InOrder(bs: seq<Batch>, j: nat)
    requires j < |bs|
  {
    forall i :: 0 <= i < j && ModeOf(bs[i]) == ModeOf(bs[j]) ==> bs[i].retrievedAt < bs[j].retrievedAt
  }

  lemma StoredAreOlder(bs: seq<Batch>, n: nat)
    requires Constructed(bs) && n < |bs| && InOrder(bs, n)
    ensures Newest(Run(EMPTY, bs[..n]), bs[n])
  {
    var s := Run(EMPTY, bs[..n]);
    forall k | k in s.batches && ModeOf(s.batches[k]) == ModeOf(bs[n]) ensures NoNewer(s.batches[k], bs[n]) {
      RunOnlyAddsAppended(EMPTY, bs[..n], k);
      var i :| 0 <= i < n && bs[..n][i] == s.batches[k];
      assert bs[i] == s.batches[k];
    }
  }

  /** Batch `n` of the run changes nothing, or is newer than what is stored when it comes. */
  ghost predicate RepeatOrNewest(bs: seq<Batch>, n: nat) {
    n < |bs| ==> var s := Run(EMPTY, bs[..n]); AppendBatch(s, bs[n]).0 == s || Newest(s, bs[n])
  }

  lemma NextIsRepeatOrNewest(bs: seq<Batch>, n: nat)
    requires Constructed(bs) && Chronological(bs)
    ensures RepeatOrNewest(bs, n)
  {
    if n < |bs| {
      if bs[n] in bs[..n] { RepeatChangesNothing(bs[..n], bs[n]); } else { StoredAreOlder(bs, n); }
    }
  }

  lemma EmptyAgrees(m: ModeKey)
    ensures CheckpointsAgree(Run(EMPTY, []), m)
  {
    assert Of(EMPTY, m) == {};
  }

  lemma NextAgrees(bs: seq<Batch>, n: nat, m: ModeKey)
    requires Constructed(bs) && n < |bs| && CheckpointsAgree(Run(EMPTY, bs[..n]), m) && RepeatOrNewest(bs, n)
    ensures CheckpointsAgree(Run(EMPTY, bs[..n+1]), m)
  {
    PrefixStep(bs, n);
    AppendKeepsAgreement(Run(EMPTY, bs[..n]), bs[n], m);
  }

  lemma PrefixStep(bs: seq<Batch>, n: nat)
    requires Constructed(bs) && n < |bs|
    ensures Inv(Run(EMPTY, bs[..n])) && Run(EMPTY, bs[..n+1]) == AppendBatch(Run(EMPTY, bs[..n]), bs[n]).0
  {
    RunKeepsInv(EMPTY, bs[..n]);
    RunSnoc(EMPTY, bs[..n], bs[n]);
    assert bs[..n+1] == bs[..n] + [bs[n]];
  }

  lemma {:induction false} PrefixesAgree(bs: seq<Batch>, n: nat, m: ModeKey)
    requires Constructed(bs) && n <= |bs| && forall j: nat {:trigger RepeatOrNewest(bs, j)} :: RepeatOrNewest(bs, j)
    ensures CheckpointsAgree(Run(EMPTY, bs[..n]), m)
    decreases n
  {
    if n == 0 {
      EmptyAgrees(m);
    } else {
      PrefixesAgree(bs, n - 1, m);
      assert RepeatOrNewest(bs, n - 1);
      NextAgrees(bs, n - 1, m);
    }
  }

  /** When retrieval times strictly increase per site and mode, the two checkpoints agree for
      every site and mode after every run, replays included. */
  lemma ChronologicalRunsAgree(bs: seq<Batch>, m: ModeKey)
    requires Constructed(bs) && Chronological(bs)
    ensures CheckpointsAgree(Run(EMPTY, bs), m)
  {
    forall j: nat ensures RepeatOrNewest(bs, j) { NextIsRepeatOrNewest(bs, j); }
    PrefixesAgree(bs, |bs|, m);
    assert bs[..|bs|] == bs;
  }

  lemma AppendKeepsAgreement(s: Store, b: Batch, m: ModeKey)
    requires Inv(s) && BatchOK(b) && CheckpointsAgree(s, m)
    requires AppendBatch(s, b).0 == s || Newest(s, b)
    ensures CheckpointsAgree(AppendBatch(s, b).0, m)
  {
    if Accepts(s, b) && AppendBatch(s, b).0 != s {
      if m == ModeOf(b) { CheckpointsAgreeIff(s, b); } else { OtherCheckpointsUnmoved(s, b, m); }
    }
  }

  /** Batch `i` of the run was accepted when it came: it is not a replay and was not rejected. */
  ghost predicate AcceptedAt(bs: seq<Batch>, i: nat) {
    i < |bs| && Accepts(Run(EMPTY, bs[..i]), bs[i])
  }

  /** It is the last accepted batch of its site and mode. */
  ghost predicate LastAccepted(bs: seq<Batch>, m: ModeKey, i: nat) {
    && AcceptedAt(bs, i) && ModeOf(bs[i]) == m
    && forall j :: i < j < |bs| && AcceptedAt(bs, j) ==> ModeOf(bs[j]) != m
  }

  lemma AcceptedBefore(bs: seq<Batch>, b: Batch, i: nat)
    requires i < |bs|
    ensures AcceptedAt(bs + [b], i) <==> AcceptedAt(bs, i)
  {
    assert (bs + [b])[..i] == bs[..i] && (bs + [b])[i] == bs[i];
  }

  lemma LastAcceptedSnoc(bs: seq<Batch>, b: Batch, m: ModeKey, i: nat)
    requires i < |bs|
    ensures LastAccepted(bs + [b], m, i) <==> LastAccepted(bs, m, i) && !(AcceptedAt(bs + [b], |bs|) && ModeOf(b) == m)
  {
    var cs := bs + [b];
    AcceptedBefore(bs, b, i);
    forall j | i < j < |bs| ensures AcceptedAt(cs, j) <==> AcceptedAt(bs, j) { AcceptedBefore(bs, b, j); }
    if LastAccepted(cs, m, i) {
      forall j | i < j < |bs| && AcceptedAt(bs, j) ensures ModeOf(bs[j]) != m { assert AcceptedAt(cs, j) && cs[j] == bs[j]; }
      assert AcceptedAt(cs, |bs|) ==> ModeOf(cs[|bs|]) != m;
    }
    if LastAccepted(bs, m, i) && !(AcceptedAt(cs, |bs|) && ModeOf(b) == m) {
      forall j | i < j < |cs| && AcceptedAt(cs, j) ensures ModeOf(cs[j]) != m { if j < |bs| { assert cs[j] == bs[j]; } }
    }
  }

  ghost predicate NoneAccepted(bs: seq<Batch>, m: ModeKey) {
    forall i: nat :: AcceptedAt(bs, i) ==> ModeOf(bs[i]) != m
  }

  lemma NoneAcceptedSnoc(bs: seq<Batch>, b: Batch, m: ModeKey)
    ensures NoneAccepted(bs + [b], m) <==> NoneAccepted(bs, m) && !(AcceptedAt(bs + [b], |bs|) && ModeOf(b) == m)
  {
    var cs := bs + [b];
    forall i: nat | i < |bs| ensures AcceptedAt(cs, i) <==> AcceptedAt(bs, i) { AcceptedBefore(bs, b, i); }
    if NoneAccepted(cs, m) {
      forall i: nat | AcceptedAt(bs, i) ensures ModeOf(bs[i]) != m { assert AcceptedAt(cs, i) && cs[i] == bs[i]; }
      assert AcceptedAt(cs, |bs|) ==> ModeOf(cs[|bs|]) != m;
    }
    if NoneAccepted(bs, m) && !(AcceptedAt(cs, |bs|) && ModeOf(b) == m) {
      forall i: nat | AcceptedAt(cs, i) ensures ModeOf(cs[i]) != m { if i < |bs| { assert cs[i] == bs[i]; } }
    }
  }

  /** The last append moved the checkpoint exactly if it was accepted for this site and mode. */
  lemma CheckpointSnoc(bs: seq<Batch>, b: Batch, m: ModeKey)
    ensures MemoryCheckpoint(Run(EMPTY, bs + [b]), m) ==
      if AcceptedAt(bs + [b], |bs|) && ModeOf(b) == m then Some(b.checkpoint) else MemoryCheckpoint(Run(EMPTY, bs), m)
  {
    RunSnoc(EMPTY, bs, b);
    assert (bs + [b])[..|bs|] == bs;
  }

  /** Over every run of appends, the in-memory checkpoint of a site and mode is that of the last batch
      accepted for it, and there is none exactly when none was accepted. */
  lemma {:induction false} CheckpointIsLastAccepted(bs: seq<Batch>, m: ModeKey)
    ensures MemoryCheckpoint(Run(EMPTY, bs), m).None? <==> NoneAccepted(bs, m)
    ensures MemoryCheckpoint(Run(EMPTY, bs), m).Some? ==>
      exists i: nat :: LastAccepted(bs, m, i) && MemoryCheckpoint(Run(EMPTY, bs), m) == Some(bs[i].checkpoint)
    decreases |bs|
  {
    if bs != [] {
      var n := |bs| - 1;
      var before, b := bs[..n], bs[n];
      CheckpointIsLastAccepted(before, m);
      assert bs == before + [b];
      CheckpointSnoc(before, b, m);
      NoneAcceptedSnoc(before, b, m);
      if AcceptedAt(bs, n) && ModeOf(b) == m {
        assert LastAccepted(bs, m, n);
      } else if MemoryCheckpoint(Run(EMPTY, before), m).Some? {
        var i: nat :| LastAccepted(before, m, i) && MemoryCheckpoint(Run(EMPTY, before), m) == Some(before[i].checkpoint);
        LastAcceptedSnoc(before, b, m, i);
        assert LastAccepted(bs, m, i) && bs[i] == before[i];
      }
    }
  }

  function ExampleBatch(id: string, retrievedAt: int): Batch {
    Batch(id, "site", Live, id, retrievedAt,
          [Row(id, SalesOrderValue, 0, 1, 0, 0.0, 1, 1, "r", 0.0, 0, ["x"], true, "1")])
  }

  lemma AppendToEmpty(b: Batch)
    requires BatchOK(b)
    ensures Run(EMPTY, [b]) == Added(EMPTY, b) && Inv(Added(EMPTY, b))
  {
    assert [b][1..] == [];
    assert Accepts(EMPTY, b);
    AppendKeepsInv(EMPTY, b);
  }

  /** Two batches delivered out of order: the in-memory checkpoint goes back, PostgreSQL's does not. */
  lemma OutOfOrderExample()
    ensures var bs := [ExampleBatch("b", 2), ExampleBatch("a", 1)];
      Constructed(bs) && !CheckpointsAgree(Run(EMPTY, bs), ModeKey("site", Live))
  {
    var first, second := ExampleBatch("b", 2), ExampleBatch("a", 1);
    assert second.batchId != first.batchId;
    var s := Added(EMPTY, first);
    AppendToEmpty(first);
    AddRowsIs(EMPTY.rowIds, first, first.rows);
    assert Accepts(s, second);
    assert KeyOf(first) in s.batches && !NoNewer(first, second);
    CheckpointsAgreeIff(s, second);
    RunSnoc(EMPTY, [first], second);
    assert [first] + [second] == [first, second];
  }
}
