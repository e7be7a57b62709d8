/** What each update of the materialization outbox does, column by column, in the terms of its rows
    only, and how long a failed row waits. */
module OutboxEffects {
  import opened Wrappers
  import opened Ordering
  import opened TaskModel
  import opened ProposalBundle
  import opened Outbox
  import opened MaterializationProtocol

  // ---- claims ---------------------------------------------------------------------------------

  /** The row may be claimed: it is due or its lease has run out, and it has an attempt left. */
  predicate Open(r: Row, site: string, now: int) {
    && r.site == site && r.attempt < r.maxAttempts
    && (|| (r.status in {PendingRow, RetryRow} && r.nextAt <= now)
        || (r.status == RunningRow && r.expires.Some? && r.expires.value <= now))
  }

  /** Its lease has run out and it has no attempt left. */
  predicate Spent(r: Row, site: string, now: int) {
    r.site == site && r.attempt >= r.maxAttempts && r.status == RunningRow && r.expires.Some? && r.expires.value <= now
  }

  /** Earlier due, then earlier created, then the ids in order. */
  predicate NoLater(a: Row, b: Row) {
    && a.nextAt <= b.nextAt
    && (a.nextAt == b.nextAt ==> a.createdAt <= b.createdAt)
    && (a.nextAt == b.nextAt && a.createdAt == b.createdAt ==> StrLe(a.id, b.id))
  }

  predicate FirstInLine(t: Table, m: Mid, site: string, now: int) {
    m in t && Open(t[m], site, now) && forall c :: c in t && Open(t[c], site, now) ==> NoLater(t[m], t[c])
  }

  predicate Buried(was: Row, r: Row, now: int) {
    r == Row(was.id, was.site, was.bundle, was.createdAt, was.maxAttempts, DeadLetterRow, was.attempt,
             None, None, was.nextAt, Some(LeaseExpired), was.receipt, now)
  }

  /** Spent rows of the site are dead-lettered, and no other row has changed. */
  ghost predicate OthersReaped(t: Table, t': Table, site: string, now: int, but: Option<Mid>) {
    && t'.Keys == t.Keys
    && forall c :: c in t && but != Some(c) ==> if Spent(t[c], site, now) then Buried(t[c], t'[c], now) else t'[c] == t[c]
  }

  predicate LeasedTo(was: Row, r: Row, worker: string, now: int, duration: int) {
    r == Row(was.id, was.site, was.bundle, was.createdAt, was.maxAttempts, RunningRow, was.attempt + 1,
             Some(worker), Some(now + duration), was.nextAt, None, was.receipt, now)
  }

  lemma OpenIffCandidate(t: Table, site: string, now: int, m: Mid)
    ensures m in t && Open(t[m], site, now) <==> m in Candidates(Reap(t, site, now), site, now)
    ensures m in t && Open(t[m], site, now) ==> Reap(t, site, now)[m] == t[m]
  {
    if m in t { assert Reap(t, site, now)[m] == ReapRow(t[m], site, now); }
  }

  lemma FirstIsFirstInLine(t: Table, site: string, now: int)
    requires Candidates(Reap(t, site, now), site, now) != {}
    ensures var r := Reap(t, site, now); FirstInLine(t, First(r, Candidates(r, site, now)), site, now)
  {
    var r := Reap(t, site, now);
    var m := First(r, Candidates(r, site, now));
    OpenIffCandidate(t, site, now, m);
    forall c | c in t && Open(t[c], site, now) ensures NoLater(t[m], t[c]) {
      OpenIffCandidate(t, site, now, c);
      assert RowBefore(r[m], r[c]);
    }
  }

  lemma ReapDid(t: Table, site: string, now: int)
    ensures OthersReaped(t, Reap(t, site, now), site, now, None)
  {
    forall c | c in t
      ensures if Spent(t[c], site, now) then Buried(t[c], Reap(t, site, now)[c], now) else Reap(t, site, now)[c] == t[c]
    {
    }
  }

  /** The claim hands out row `m` with what its bundle reads as, or raises without any effect when
      that bundle cannot be read. */
  ghost predicate ClaimDid(t: Table, t': Table, reply: Result<Option<Claim>, CallError>, m: Mid, site: string, worker: string, now: int, duration: int) {
    && FirstInLine(t, m, site, now)
    && match ReadBundle(t[m].bundle)
       case None => t' == t && reply == Err(ValidationFailed)
       case Some(e) =>
         && reply == Ok(Some(Claim(m, t[m].attempt + 1, worker, duration, e)))
         && OthersReaped(t, t', site, now, Some(m)) && LeasedTo(t[m], t'[m], worker, now, duration)
  }

  lemma FirstClaimDid(t: Table, site: string, worker: string, now: int, duration: int)
    requires site != "" && worker != "" && duration > 0 && Candidates(Reap(t, site, now), site, now) != {}
    ensures var (t', reply) := ClaimNext(t, site, worker, now, duration);
      ClaimDid(t, t', reply, First(Reap(t, site, now), Candidates(Reap(t, site, now), site, now)), site, worker, now, duration)
  {
    FirstIsFirstInLine(t, site, now);
    ReapDid(t, site, now);
    OpenIffCandidate(t, site, now, First(Reap(t, site, now), Candidates(Reap(t, site, now), site, now)));
  }

  lemma NoneOpen(t: Table, site: string, now: int)
    ensures Candidates(Reap(t, site, now), site, now) == {} <==> forall m :: m in t ==> !Open(t[m], site, now)
  {
    forall m ensures m in t && Open(t[m], site, now) <==> m in Candidates(Reap(t, site, now), site, now) { OpenIffCandidate(t, site, now, m); }
  }

  /** A claim concerns the open row of the site that is first in line, or none when no row is open. */
  lemma ClaimEffect(t: Table, site: string, worker: string, now: int, duration: int)
    ensures var (t', reply) := ClaimNext(t, site, worker, now, duration);
      if site == "" || worker == "" || duration <= 0 then t' == t && reply == Err(ValidationFailed)
      else if forall m :: m in t ==> !Open(t[m], site, now) then reply == Ok(None) && OthersReaped(t, t', site, now, None)
      else exists m :: ClaimDid(t, t', reply, m, site, worker, now, duration)
  {
    NoneOpen(t, site, now);
    ReapDid(t, site, now);
    if site != "" && worker != "" && duration > 0 && Candidates(Reap(t, site, now), site, now) != {} {
      FirstClaimDid(t, site, worker, now, duration);
    }
  }

  // ---- updates under a lease ------------------------------------------------------------------

  /** The worker holds the row's live lease at this attempt. */
  predicate Holds(t: Table, m: Mid, worker: string, attempt: int, now: int) {
    && m in t && t[m].status == RunningRow && t[m].owner == Some(worker) && t[m].attempt == attempt
    && t[m].expires.Some? && now < t[m].expires.value
  }

  /** A receipt is stored once, under the live lease; a row that has one accepts only the same again. */
  lemma AcknowledgeEffect(t: Table, m: Mid, worker: string, attempt: int, now: int, receipt: Receipt)
    ensures var (t', reply) := Acknowledge(t, m, worker, attempt, now, receipt);
      if receipt.requestId != m then t' == t && reply == Err(IdempotencyError)
      else if m !in t then t' == t && reply == Err(ValidationFailed)
      else if t[m].status == SucceededRow then
        t' == t && reply == if t[m].receipt == Some(receipt) then Ok(receipt) else Err(IdempotencyError)
      else if !Holds(t, m, worker, attempt, now) then t' == t && reply == Err(LeaseConflictError)
      else
        var r := t[m];
        && reply == Ok(receipt)
        && t' == t[m := Row(r.id, r.site, r.bundle, r.createdAt, r.maxAttempts, SucceededRow, r.attempt, None, None, r.nextAt, None, Some(receipt), now)]
  {
  }

  /** A renewal that would not extend the lease is accepted without a write, and one that would move
      the row's last update backwards raises. */
  lemma HeartbeatEffect(t: Table, m: Mid, worker: string, attempt: int, now: int, duration: int)
    ensures var (t', reply) := Heartbeat(t, m, worker, attempt, now, duration);
      if duration <= 0 then t' == t && reply == Err(ValidationFailed)
      else if !Holds(t, m, worker, attempt, now) then t' == t && reply == Err(LeaseConflictError)
      else if now + duration <= t[m].expires.value then t' == t && reply == Ok(())
      else if now < t[m].updatedAt then t' == t && reply == Err(TriggerRaised)
      else
        var r := t[m];
        && reply == Ok(())
        && t' == t[m := Row(r.id, r.site, r.bundle, r.createdAt, r.maxAttempts, RunningRow, r.attempt, r.owner, Some(now + duration), r.nextAt, r.error, r.receipt, now)]
  {
  }

  /** A failure sends the row back to be retried at the given time, or dead-letters it after its last
      attempt. */
  lemma FailEffect(t: Table, m: Mid, worker: string, attempt: int, now: int, retryAt: int, code: ErrorCode)
    ensures var (t', reply) := Fail(t, m, worker, attempt, now, retryAt, code);
      if retryAt <= now then t' == t && reply == Err(ValidationFailed)
      else if !Holds(t, m, worker, attempt, now) then t' == t && reply == Err(LeaseConflictError)
      else
        var r, status := t[m], if t[m].attempt < t[m].maxAttempts then RetryRow else DeadLetterRow;
        && reply == Ok(status)
        && t' == t[m := Row(r.id, r.site, r.bundle, r.createdAt, r.maxAttempts, status, r.attempt, None, None, retryAt, Some(code), r.receipt, now)]
  {
  }

  // ---- waiting --------------------------------------------------------------------------------

  /** No claim of the site reads a clock at or after this time. */
  predicate ClaimsBefore(steps: seq<Step>, site: string, until: int) {
    forall i :: 0 <= i < |steps| && steps[i].ClaimStep? && steps[i].site == site ==> steps[i].now < until
  }

  lemma StepLeavesWaiting(s: World, step: Step, m: Mid)
    requires TableOK(s.rows) && m in s.rows && s.rows[m].status in {PendingRow, RetryRow}
    requires step.ClaimStep? && step.site == s.rows[m].site ==> step.now < s.rows[m].nextAt
    ensures m in Next(s, step).rows && Next(s, step).rows[m] == s.rows[m]
  {
    if step.ClaimStep? {
      ClaimEffect(s.rows, step.site, step.worker, step.now, step.duration);
      assert RowOK(s.rows[m]);
    }
  }

  /** Whatever the processes do, a row that waits stays exactly as it is until a claim of its site
      reads a clock that has reached its due time. */
  lemma {:induction false} WaitsUntilDue(s: World, steps: seq<Step>, m: Mid)
    requires Inv(s) && Valid(steps) && m in s.rows && s.rows[m].status in {PendingRow, RetryRow}
    requires ClaimsBefore(steps, s.rows[m].site, s.rows[m].nextAt)
    ensures m in Run(s, steps).rows && Run(s, steps).rows[m] == s.rows[m]
    decreases |steps|
  {
    if steps != [] {
      var step := steps[0];
      StepLeavesWaiting(s, step, m);
      NextKeepsInv(s, step);
      assert ClaimsBefore(steps[1..], s.rows[m].site, s.rows[m].nextAt);
      WaitsUntilDue(Next(s, step), steps[1..], m);
    }
  }

  /** A failure that leaves attempts is not retried before its retry time, in any continuation. */
  lemma FailedRowWaits(s: World, pid: int, now: int, retryAt: int, steps: seq<Step>)
    requires Inv(s) && Valid(steps) && PcOf(s, pid).Failing?
    requires var c := PcOf(s, pid).claim;
      && retryAt > now && Holds(s.rows, c.id, c.worker, c.attempt, now) && c.attempt < s.rows[c.id].maxAttempts
      && ClaimsBefore(steps, s.rows[c.id].site, retryAt)
    ensures var c := PcOf(s, pid).claim;
      var rows := Run(Next(s, FailStep(pid, now, retryAt)), steps).rows;
      && c.id in rows && rows[c.id].status == RetryRow && rows[c.id].attempt == c.attempt && rows[c.id].nextAt == retryAt
      && rows[c.id].error == Some(PcOf(s, pid).code)
  {
    var c := PcOf(s, pid).claim;
    FailEffect(s.rows, c.id, c.worker, c.attempt, now, retryAt, PcOf(s, pid).code);
    var s1 := Next(s, FailStep(pid, now, retryAt));
    NextKeepsInv(s, FailStep(pid, now, retryAt));
    WaitsUntilDue(s1, steps, c.id);
  }
}
