/** The materialization outbox: rows, the guarded SQL updates on them, and the two checks the
    database itself makes (state constraint and transition trigger), written separately. */
module Outbox {
  import opened Wrappers
  import opened Ordering
  import opened TaskModel
  import opened Materializer
  import opened ProposalBundle

  /** A materialization id is derived from site and proposal by a digest. The table is keyed by
      the id alone: distinct proposals have distinct ids, in all sites. */
  type Mid = string

  datatype ErrorCode = BodyConflict | MaterializationFailed | LeaseExpired

  datatype Receipt = Receipt(doctype: Doctype, name: string, revision: nat, requestId: Mid, digest: Intent)

  /** `bundle` is what the joined tables hold for the row's proposal. */
  datatype Row = Row(
    id: Mid, site: string, bundle: Bundle, createdAt: int, maxAttempts: int, status: OutboxStatus,
    attempt: int, owner: Option<string>, expires: Option<int>, nextAt: int,
    error: Option<ErrorCode>, receipt: Option<Receipt>, updatedAt: int)

  type Table = map<Mid, Row>

  /** The record's invariant, also a CHECK constraint of the table. */
  predicate RowOK(r: Row) {
    && 0 <= r.attempt <= r.maxAttempts && r.maxAttempts >= 1
    && (r.status == RunningRow <==> r.owner.Some?) && (r.status == RunningRow <==> r.expires.Some?)
    && (r.status == RunningRow ==> r.attempt >= 1)
    && (r.status == SucceededRow <==> r.receipt.Some?)
  }

  /** The identity columns a second trigger protects. */
  predicate SameIdentity(old': Row, new': Row) {
    old'.id == new'.id && old'.site == new'.site && old'.bundle == new'.bundle && old'.createdAt == new'.createdAt && old'.maxAttempts == new'.maxAttempts
  }

  /** The state-transition trigger. */
  predicate TriggerAllows(o: Row, n: Row) {
    || (o.status in {PendingRow, RetryRow, RunningRow} && n.status == RunningRow && n.attempt == o.attempt + 1)
    || (o.status == RunningRow && n.status in {SucceededRow, RetryRow, DeadLetterRow} && n.attempt == o.attempt)
    || (&& o.status == RunningRow && n.status == RunningRow && n.attempt == o.attempt && n.owner == o.owner
        && o.expires.Some? && n.expires.Some? && n.expires.value > o.expires.value
        && n.nextAt == o.nextAt && n.error == o.error && n.receipt == o.receipt && n.updatedAt >= o.updatedAt)
  }

  // ---- the guarded updates -----------------------------------------------------------------

  predicate Expired(r: Row, now: int) {
    r.status == RunningRow && r.expires.Some? && r.expires.value <= now
  }

  predicate Exhausted(r: Row, site: string, now: int) {
    r.site == site && Expired(r, now) && r.attempt >= r.maxAttempts
  }

  function Reaped(r: Row, now: int): Row {
    r.(status := DeadLetterRow, owner := None, expires := None, error := Some(LeaseExpired), updatedAt := now)
  }

  function ReapRow(r: Row, site: string, now: int): Row {
    if Exhausted(r, site, now) then Reaped(r, now) else r
  }

  function Reap(t: Table, site: string, now: int): Table {
    map m | m in t :: ReapRow(t[m], site, now)
  }

  predicate Claimable(r: Row, site: string, now: int) {
    && r.site == site && r.attempt < r.maxAttempts
    && (((r.status == PendingRow || r.status == RetryRow) && r.nextAt <= now) || Expired(r, now))
  }

  function ClaimedRow(r: Row, worker: string, now: int, duration: int): Row {
    r.(status := RunningRow, attempt := r.attempt + 1, owner := Some(worker), expires := Some(now + duration),
       error := None, updatedAt := now)
  }

  predicate Live(r: Row, worker: string, attempt: int, now: int) {
    r.status == RunningRow && r.owner == Some(worker) && r.attempt == attempt && r.expires.Some? && r.expires.value > now
  }

  function AckedRow(r: Row, receipt: Receipt, now: int): Row {
    r.(status := SucceededRow, owner := None, expires := None, error := None, receipt := Some(receipt), updatedAt := now)
  }

  function FailedRow(r: Row, now: int, retryAt: int, code: ErrorCode): Row {
    r.(status := if r.attempt >= r.maxAttempts then DeadLetterRow else RetryRow, owner := None, expires := None,
       nextAt := retryAt, error := Some(code), updatedAt := now)
  }

  function BeatenRow(r: Row, now: int, duration: int): Row {
    r.(expires := Some(now + duration), updatedAt := now)
  }

  /** ORDER BY next_attempt_at, created_at, materialization_id. */
  predicate RowBefore(a: Row, b: Row) {
    if a.nextAt != b.nextAt then a.nextAt < b.nextAt
    else if a.createdAt != b.createdAt then a.createdAt < b.createdAt
    else StrLe(a.id, b.id)
  }

  lemma RowBeforeIsTotalOrder(a: Row, b: Row, c: Row)
    ensures RowBefore(a, a)
    ensures RowBefore(a, b) || RowBefore(b, a)
    ensures RowBefore(a, b) && RowBefore(b, c) ==> RowBefore(a, c)
    ensures RowBefore(a, b) && RowBefore(b, a) ==> a.id == b.id
  {
    StrLeReflexive(a.id);
    StrLeTotal(a.id, b.id);
    if StrLe(a.id, b.id) && StrLe(b.id, c.id) {
      StrLeTransitive(a.id, b.id, c.id);
    }
    if StrLe(a.id, b.id) && StrLe(b.id, a.id) {
      StrLeAntisymmetric(a.id, b.id);
    }
  }

  // ---- the calls ---------------------------------------------------------------------------

  datatype CallError = LeaseConflictError | IdempotencyError | ValidationFailed | TriggerRaised

  /** A claim, with the lease duration its worker uses for the claim and for its heartbeats. */
  datatype Claim = Claim(id: Mid, attempt: int, worker: string, duration: int, envelope: Envelope)

  ghost predicate IsFirst(t: Table, ms: set<Mid>, m: Mid) {
    m in ms && m in t && forall c :: c in ms && c in t ==> RowBefore(t[m], t[c])
  }

  lemma {:induction false} FirstExists(t: Table, ms: set<Mid>)
    requires ms != {} && ms <= t.Keys
    ensures exists m :: IsFirst(t, ms, m)
    decreases |ms|
  {
    var x :| x in ms;
    var rest := ms - {x};
    RowBeforeIsTotalOrder(t[x], t[x], t[x]);
    if rest == {} {
      assert ms == {x};
      assert IsFirst(t, ms, x);
    } else {
      FirstExists(t, rest);
      var m :| IsFirst(t, rest, m);
      var best := if RowBefore(t[x], t[m]) then x else m;
      forall c | c in ms ensures RowBefore(t[best], t[c]) {
        RowBeforeIsTotalOrder(t[x], t[m], t[c]);
      }
      assert IsFirst(t, ms, best);
    }
  }

  ghost function First(t: Table, ms: set<Mid>): (m: Mid)
    requires ms != {} && ms <= t.Keys
    ensures IsFirst(t, ms, m)
  {
    FirstExists(t, ms);
    var m :| IsFirst(t, ms, m);
    m
  }

  function Candidates(t: Table, site: string, now: int): set<Mid> {
    set m | m in t && Claimable(t[m], site, now)
  }

  ghost function ClaimNext(t: Table, site: string, worker: string, now: int, duration: int): (Table, Result<Option<Claim>, CallError>) {
    if site == "" || worker == "" || duration <= 0 then (t, Err(ValidationFailed))
    else
      var r := Reap(t, site, now);
      var ms := Candidates(r, site, now);
      if ms == {} then (r, Ok(None))
      else
        var m := First(r, ms);
        if ReadBundle(r[m].bundle).None? then (t, Err(ValidationFailed))
        else (r[m := ClaimedRow(r[m], worker, now, duration)],
              Ok(Some(Claim(m, r[m].attempt + 1, worker, duration, ReadBundle(r[m].bundle).value))))
  }

  function Acknowledge(t: Table, m: Mid, worker: string, attempt: int, now: int, receipt: Receipt): (Table, Result<Receipt, CallError>) {
    if receipt.requestId != m then (t, Err(IdempotencyError))
    else if m !in t then (t, Err(ValidationFailed))
    else if t[m].status == SucceededRow then
      (t, if t[m].receipt != Some(receipt) then Err(IdempotencyError) else Ok(receipt))
    else if !Live(t[m], worker, attempt, now) then (t, Err(LeaseConflictError))
    else (t[m := AckedRow(t[m], receipt, now)], Ok(receipt))
  }

  /** Renews only a lease that would grow. The trigger refuses a renewal that moves the row's
      updated_at backwards. */
  function Heartbeat(t: Table, m: Mid, worker: string, attempt: int, now: int, duration: int): (Table, Result<(), CallError>) {
    if duration <= 0 then (t, Err(ValidationFailed))
    else if m !in t || !Live(t[m], worker, attempt, now) then (t, Err(LeaseConflictError))
    else if t[m].expires.value >= now + duration then (t, Ok(()))
    else if !TriggerAllows(t[m], BeatenRow(t[m], now, duration)) then (t, Err(TriggerRaised))
    else (t[m := BeatenRow(t[m], now, duration)], Ok(()))
  }

  function Fail(t: Table, m: Mid, worker: string, attempt: int, now: int, retryAt: int, code: ErrorCode): (Table, Result<OutboxStatus, CallError>) {
    if retryAt <= now then (t, Err(ValidationFailed))
    else if m !in t || !Live(t[m], worker, attempt, now) then (t, Err(LeaseConflictError))
    else
      var r := FailedRow(t[m], now, retryAt, code);
      (t[m := r], Ok(r.status))
  }

  // ---- what every update keeps ---------------------------------------------------------------

  ghost predicate TableOK(t: Table) {
    forall m :: m in t ==> t[m].id == m && RowOK(t[m])
  }

  /** Every update the application makes satisfies the record invariant, keeps the identity
      columns and is one the trigger allows. */
  lemma UpdatesAreLegal(r: Row, site: string, worker: string, attempt: int, now: int, duration: int, retryAt: int, code: ErrorCode, receipt: Receipt)
    requires RowOK(r)
    ensures Exhausted(r, site, now) ==> RowOK(Reaped(r, now)) && TriggerAllows(r, Reaped(r, now)) && SameIdentity(r, Reaped(r, now))
    ensures Claimable(r, site, now) ==>
      var n := ClaimedRow(r, worker, now, duration); RowOK(n) && TriggerAllows(r, n) && SameIdentity(r, n)
    ensures Live(r, worker, attempt, now) ==>
      && (var n := AckedRow(r, receipt, now); RowOK(n) && TriggerAllows(r, n) && SameIdentity(r, n))
      && (var n := FailedRow(r, now, retryAt, code); RowOK(n) && TriggerAllows(r, n) && SameIdentity(r, n))
  {
  }

  /** The one exception: a live heartbeat is refused by the trigger exactly when it would extend
      the lease at a clock reading before the row's last update. */
  lemma HeartbeatRefusedIff(t: Table, m: Mid, worker: string, attempt: int, now: int, duration: int)
    requires TableOK(t) && m in t && Live(t[m], worker, attempt, now) && duration > 0
    ensures Heartbeat(t, m, worker, attempt, now, duration).1 == Err(TriggerRaised) <==>
            now + duration > t[m].expires.value && now < t[m].updatedAt
  {
  }

  /** Same identity, no smaller attempt, and a terminal row is unchanged. */
  predicate RowForward(t: Table, t': Table, m: Mid) {
    m in t ==>
      && m in t' && SameIdentity(t[m], t'[m]) && t[m].attempt <= t'[m].attempt
      && (t[m].status in {SucceededRow, DeadLetterRow} ==> t'[m] == t[m])
      && (t'[m] == t[m] || TriggerAllows(t[m], t'[m]))
  }

  ghost predicate TableForward(t: Table, t': Table) {
    && t'.Keys == t.Keys
    && forall m {:trigger RowForward(t, t', m)} :: m in t ==> RowForward(t, t', m)
  }

  lemma ReapIsLegal(t: Table, site: string, now: int)
    requires TableOK(t)
    ensures TableOK(Reap(t, site, now)) && TableForward(t, Reap(t, site, now))
    ensures forall m :: m in Candidates(Reap(t, site, now), site, now) ==> m in t && Reap(t, site, now)[m] == t[m]
  {
    forall m | m in t ensures RowForward(t, Reap(t, site, now), m) {
      assert Reap(t, site, now)[m] == ReapRow(t[m], site, now);
    }
  }

  lemma ClaimedRowIsLegal(t: Table, site: string, worker: string, now: int, duration: int, m: Mid)
    requires TableOK(t) && m in Candidates(Reap(t, site, now), site, now)
    ensures var r := Reap(t, site, now);
      var t' := r[m := ClaimedRow(r[m], worker, now, duration)];
      TableOK(t') && TableForward(t, t')
  {
    ReapIsLegal(t, site, now);
    var r := Reap(t, site, now);
    var t' := r[m := ClaimedRow(r[m], worker, now, duration)];
    forall k | k in t ensures RowForward(t, t', k) {
      assert RowForward(t, r, k);
    }
  }

  lemma Unmoved(t: Table)
    ensures TableForward(t, t)
  {
    forall m | m in t ensures RowForward(t, t, m) {}
  }

  lemma ClaimIsLegal(t: Table, site: string, worker: string, now: int, duration: int)
    requires TableOK(t)
    ensures var (t', reply) := ClaimNext(t, site, worker, now, duration);
      && TableOK(t') && TableForward(t, t')
      && (reply.Ok? && reply.value.Some? ==>
            var c := reply.value.value;
            && c.id in t && c.worker == worker && c.duration == duration > 0 && ReadBundle(t[c.id].bundle) == Some(c.envelope)
            && c.attempt == t[c.id].attempt + 1
            && t'[c.id] == ClaimedRow(t[c.id], worker, now, duration) && Claimable(t[c.id], site, now))
  {
    ReapIsLegal(t, site, now);
    Unmoved(t);
    var r := Reap(t, site, now);
    var ms := Candidates(r, site, now);
    if ms != {} { ClaimedRowIsLegal(t, site, worker, now, duration, First(r, ms)); }
  }

  /** The row is claimable and no other claimable row of the site comes before it. */
  ghost predicate Heads(t: Table, site: string, now: int, m: Mid) {
    m in t && Claimable(t[m], site, now) && forall c :: c in t && Claimable(t[c], site, now) ==> RowBefore(t[m], t[c])
  }

  lemma HeadIsFirst(t: Table, site: string, now: int, m: Mid)
    requires TableOK(t)
    ensures var r := Reap(t, site, now);
      var ms := Candidates(r, site, now);
      Heads(t, site, now, m) <==> ms != {} && m == First(r, ms)
    ensures Heads(t, site, now, m) ==> Reap(t, site, now)[m] == t[m]
  {
    var r := Reap(t, site, now);
    var ms := Candidates(r, site, now);
    ReapIsLegal(t, site, now);
    forall c | c in t && Claimable(t[c], site, now) ensures c in ms { assert r[c] == ReapRow(t[c], site, now); }
    if Heads(t, site, now, m) {
      var f := First(r, ms);
      assert RowBefore(t[m], t[f]) && RowBefore(r[f], r[m]);
      RowBeforeIsTotalOrder(t[m], t[f], t[m]);
    }
  }

  /** A claim raises and rolls back exactly when the row first in line has a bundle that is not
      readable. */
  lemma ClaimRollsBackIff(t: Table, site: string, worker: string, now: int, duration: int)
    requires TableOK(t) && site != "" && worker != "" && duration > 0
    ensures ClaimNext(t, site, worker, now, duration).1.Err? <==> exists m :: Heads(t, site, now, m) && !Readable(t[m].bundle)
    ensures ClaimNext(t, site, worker, now, duration).1.Err? ==> ClaimNext(t, site, worker, now, duration).0 == t
  {
    var r := Reap(t, site, now);
    var ms := Candidates(r, site, now);
    if ms != {} {
      var f := First(r, ms);
      HeadIsFirst(t, site, now, f);
      ReadIffReadable(t[f].bundle);
    }
    forall m | Heads(t, site, now, m) ensures ms != {} && m == First(r, ms) { HeadIsFirst(t, site, now, m); }
  }

  lemma AcknowledgeIsLegal(t: Table, m: Mid, worker: string, attempt: int, now: int, receipt: Receipt)
    requires TableOK(t)
    ensures var t' := Acknowledge(t, m, worker, attempt, now, receipt).0; TableOK(t') && TableForward(t, t')
  {
    var t' := Acknowledge(t, m, worker, attempt, now, receipt).0;
    forall k | k in t ensures RowForward(t, t', k) {}
  }

  lemma HeartbeatIsLegal(t: Table, m: Mid, worker: string, attempt: int, now: int, duration: int)
    requires TableOK(t)
    ensures var t' := Heartbeat(t, m, worker, attempt, now, duration).0; TableOK(t') && TableForward(t, t')
  {
    var t' := Heartbeat(t, m, worker, attempt, now, duration).0;
    forall k | k in t ensures RowForward(t, t', k) {}
  }

  lemma FailIsLegal(t: Table, m: Mid, worker: string, attempt: int, now: int, retryAt: int, code: ErrorCode)
    requires TableOK(t)
    ensures var t' := Fail(t, m, worker, attempt, now, retryAt, code).0; TableOK(t') && TableForward(t, t')
  {
    var t' := Fail(t, m, worker, attempt, now, retryAt, code).0;
    forall k | k in t ensures RowForward(t, t', k) {}
  }
}
