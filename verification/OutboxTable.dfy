/** The outbox table updated in place, one transaction per method, against the functions of
    module Outbox. */
module OutboxTable {
  import opened Wrappers
  import opened TaskModel
  import opened ProposalBundle
  import opened Outbox

  class MaterializationOutbox {
    var rows: Table

    ghost predicate Valid()
      reads this
    {
      TableOK(rows)
    }

    constructor ()
      ensures Valid() && rows == map[]
    {
      rows := map[];
    }

    /** UPDATE ... WHERE the lease is exhausted. */
    method ReapExhausted(site: string, now: int)
      requires Valid()
      modifies this
      ensures Valid() && rows == Outbox.Reap(old(rows), site, now)
    {
      ReapIsLegal(rows, site, now);
      var todo := rows.Keys;
      while todo != {}
        invariant todo <= rows.Keys == old(rows).Keys
        invariant forall m :: m in rows ==> rows[m] == if m in todo then old(rows)[m] else ReapRow(old(rows)[m], site, now)
        decreases todo
      {
        var m :| m in todo;
        if Exhausted(rows[m], site, now) {
          rows := rows[m := Reaped(rows[m], now)];
        }
        todo := todo - {m};
      }
    }

    /** ORDER BY ... LIMIT 1 over the candidates. */
    method SelectFirst(candidates: set<Mid>) returns (best: Mid)
      requires Valid() && candidates != {} && candidates <= rows.Keys
      ensures best == Outbox.First(rows, candidates)
    {
      best :| best in candidates;
      var rest := candidates - {best};
      RowBeforeIsTotalOrder(rows[best], rows[best], rows[best]);
      while rest != {}
        invariant rest <= candidates && best in candidates
        invariant forall c :: c in candidates - rest ==> RowBefore(rows[best], rows[c])
        decreases rest
      {
        var c :| c in rest;
        if !RowBefore(rows[best], rows[c]) {
          forall d | d in candidates - rest ensures RowBefore(rows[c], rows[d]) {
            RowBeforeIsTotalOrder(rows[best], rows[c], rows[d]);
            RowBeforeIsTotalOrder(rows[c], rows[best], rows[d]);
          }
          best := c;
        }
        RowBeforeIsTotalOrder(rows[c], rows[c], rows[c]);
        rest := rest - {c};
      }
      RowBeforeIsTotalOrder(rows[best], rows[Outbox.First(rows, candidates)], rows[best]);
    }

    method Claim(site: string, worker: string, now: int, duration: int) returns (reply: Result<Option<Claim>, CallError>)
      requires Valid()
      modifies this
      ensures Valid()
      ensures (rows, reply) == Outbox.ClaimNext(old(rows), site, worker, now, duration)
    {
      ClaimIsLegal(rows, site, worker, now, duration);
      if site == "" || worker == "" || duration <= 0 {
        return Err(ValidationFailed);
      }
      var before := rows;
      ReapExhausted(site, now);
      var candidates := set m | m in rows && Claimable(rows[m], site, now);
      if candidates == {} {
        return Ok(None);
      }
      var m := SelectFirst(candidates);
      var row := ClaimedRow(rows[m], worker, now, duration);
      rows := rows[m := row];
      var envelope := ReadBundle(row.bundle);
      if envelope.None? {
        rows := before;
        return Err(ValidationFailed);
      }
      return Ok(Some(Outbox.Claim(m, row.attempt, worker, duration, envelope.value)));
    }

    method Acknowledge(m: Mid, worker: string, attempt: int, now: int, receipt: Receipt) returns (reply: Result<Receipt, CallError>)
      requires Valid()
      modifies this
      ensures Valid()
      ensures (rows, reply) == Outbox.Acknowledge(old(rows), m, worker, attempt, now, receipt)
    {
      AcknowledgeIsLegal(rows, m, worker, attempt, now, receipt);
      if receipt.requestId != m {
        return Err(IdempotencyError);
      }
      if m !in rows {
        return Err(ValidationFailed);
      }
      if rows[m].status == SucceededRow {
        if rows[m].receipt != Some(receipt) {
          return Err(IdempotencyError);
        }
        return Ok(receipt);
      }
      if !Live(rows[m], worker, attempt, now) {
        return Err(LeaseConflictError);
      }
      rows := rows[m := AckedRow(rows[m], receipt, now)];
      return Ok(receipt);
    }

    method Heartbeat(m: Mid, worker: string, attempt: int, now: int, duration: int) returns (reply: Result<(), CallError>)
      requires Valid()
      modifies this
      ensures Valid()
      ensures (rows, reply) == Outbox.Heartbeat(old(rows), m, worker, attempt, now, duration)
    {
      HeartbeatIsLegal(rows, m, worker, attempt, now, duration);
      if duration <= 0 {
        return Err(ValidationFailed);
      }
      if m !in rows || !Live(rows[m], worker, attempt, now) {
        return Err(LeaseConflictError);
      }
      if rows[m].expires.value < now + duration {
        if now < rows[m].updatedAt {
          return Err(TriggerRaised);
        }
        rows := rows[m := BeatenRow(rows[m], now, duration)];
      }
      return Ok(());
    }

    method Fail(m: Mid, worker: string, attempt: int, now: int, retryAt: int, code: ErrorCode) returns (reply: Result<OutboxStatus, CallError>)
      requires Valid()
      modifies this
      ensures Valid()
      ensures (rows, reply) == Outbox.Fail(old(rows), m, worker, attempt, now, retryAt, code)
    {
      FailIsLegal(rows, m, worker, attempt, now, retryAt, code);
      if retryAt <= now {
        return Err(ValidationFailed);
      }
      if m !in rows || !Live(rows[m], worker, attempt, now) {
        return Err(LeaseConflictError);
      }
      var failed := FailedRow(rows[m], now, retryAt, code);
      rows := rows[m := failed];
      return Ok(failed.status);
    }
  }
}
