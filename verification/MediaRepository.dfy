/** InMemoryMediaJobRepository: two dictionaries updated in place, each method proved to make
    exactly the transition of its function in module MediaQueue. */
module MediaRepository {
  import opened Wrappers
  import opened MediaQueue

  class MediaJobRepository {
    var jobs: map<JobKey, Job>
    var requests: map<RequestKey, string>
    const id: IdDigest

    ghost function Snapshot(): State
      reads this
    {
      State(jobs, requests)
    }

    ghost predicate Valid()
      reads this
    {
      Injective(id) && Inv(id, Snapshot())
    }

    constructor (digest: IdDigest)
      requires Injective(digest)
      ensures Valid() && Snapshot() == MediaQueue.EMPTY && id == digest
    {
      id := digest;
      jobs, requests := map[], map[];
    }

    method Enqueue(sub: Submission, now: int) returns (reply: Result<Job, Error>)
      requires Valid() && sub.Valid()
      modifies this
      ensures Valid()
      ensures (Snapshot(), reply) == MediaQueue.Enqueue(id, old(Snapshot()), sub, now)
    {
      EnqueueKeepsInv(id, Snapshot(), sub, now);
      var rk := RequestKey(sub.receipt.site, sub.receipt.requestId);
      if rk in requests {
        assert RequestEntry(id, Snapshot(), rk);
        var existing := jobs[JobKey(sub.receipt.site, requests[rk])];
        if existing.digest != sub.Digest() {
          return Err(IdempotencyConflict);
        }
        return Ok(existing);
      }
      var job := FreshJob(id, sub, now);
      jobs := jobs[job.Key() := job];
      requests := requests[rk := job.id];
      return Ok(job);
    }

    /** The loop over a copy of the dictionary's items. */
    method ReapExhausted(site: string, now: int)
      requires Valid()
      modifies this`jobs
      ensures Valid() && jobs == MediaQueue.Reap(old(jobs), site, now)
    {
      ReapKeepsInv(id, Snapshot(), site, now);
      var items := jobs;
      var todo := items.Keys;
      while todo != {}
        invariant todo <= items.Keys == jobs.Keys
        invariant forall k :: k in jobs ==> jobs[k] == if k in todo then items[k] else ReapJob(items[k], site, now)
        decreases todo
      {
        var k :| k in todo;
        var job := items[k];
        if job.receipt.site == site && job.Expired(now) && job.attempt >= job.maxAttempts {
          jobs := jobs[k := Dead(job, now)];
        }
        todo := todo - {k};
      }
      assert jobs == MediaQueue.Reap(items, site, now);
      assert Snapshot() == old(Snapshot()).(jobs := MediaQueue.Reap(items, site, now));
    }

    /** min over the candidates by (due_at, created_at, job_id). */
    method SelectFirst(candidates: set<JobKey>, site: string) returns (best: JobKey)
      requires Valid() && candidates != {} && candidates <= jobs.Keys
      requires forall k :: k in candidates ==> jobs[k].receipt.site == site
      ensures best == First(jobs, candidates)
    {
      best :| best in candidates;
      var rest := candidates - {best};
      BeforeIsTotalOrder(jobs[best], jobs[best], jobs[best]);
      while rest != {}
        invariant rest <= candidates && best in candidates
        invariant forall c :: c in candidates - rest ==> Before(jobs[best], jobs[c])
        decreases rest
      {
        var c :| c in rest;
        if !Before(jobs[best], jobs[c]) {
          forall d | d in candidates - rest ensures Before(jobs[c], jobs[d]) {
            BeforeIsTotalOrder(jobs[best], jobs[c], jobs[d]);
            BeforeIsTotalOrder(jobs[c], jobs[best], jobs[d]);
          }
          best := c;
        }
        BeforeIsTotalOrder(jobs[c], jobs[c], jobs[c]);
        rest := rest - {c};
      }
      var least := First(jobs, candidates);
      BeforeIsTotalOrder(jobs[best], jobs[least], jobs[best]);
      assert JobEntry(id, Snapshot(), best) && JobEntry(id, Snapshot(), least);
    }

    method Claim(site: string, worker: string, now: int, duration: int) returns (reply: Result<Option<Job>, Error>)
      requires Valid()
      modifies this`jobs
      ensures Valid()
      ensures (Snapshot(), reply) == MediaQueue.Claim(old(Snapshot()), site, worker, now, duration)
    {
      ClaimKeepsInv(id, Snapshot(), site, worker, now, duration);
      if site == "" || worker == "" || duration <= 0 {
        return Err(Invalid);
      }
      ReapExhausted(site, now);
      var candidates := set k | k in jobs && Claimable(jobs[k], site, now);
      if candidates == {} {
        return Ok(None);
      }
      var k := SelectFirst(candidates, site);
      var claimed := Claimed(jobs[k], worker, now, duration);
      jobs := jobs[k := claimed];
      return Ok(Some(claimed));
    }

    method LiveLease(k: JobKey, worker: string, token: int, now: int) returns (r: Result<Job, Error>)
      ensures r == MediaQueue.LiveLease(Snapshot(), k, worker, token, now)
    {
      if k !in jobs {
        return Err(LeaseConflict);
      }
      var j := jobs[k];
      if j.status != Leased || j.owner != Some(worker) || j.token != token || j.expires.None? || j.expires.value <= now {
        return Err(LeaseConflict);
      }
      return Ok(j);
    }

    method Heartbeat(k: JobKey, worker: string, token: int, now: int, duration: int) returns (reply: Result<Job, Error>)
      requires Valid()
      modifies this`jobs
      ensures Valid()
      ensures (Snapshot(), reply) == MediaQueue.Heartbeat(old(Snapshot()), k, worker, token, now, duration)
    {
      LeaseCallsKeepInv(id, Snapshot(), k, worker, token, now);
      assert Inv(id, MediaQueue.Heartbeat(Snapshot(), k, worker, token, now, duration).0);
      if k.site == "" || worker == "" || duration <= 0 {
        return Err(Invalid);
      }
      var current := LiveLease(k, worker, token, now);
      if current.Err? {
        return Err(current.error);
      }
      var renewed := current.value.(expires := Some(now + duration), updatedAt := now);
      jobs := jobs[k := renewed];
      return Ok(renewed);
    }

    method Complete(k: JobKey, worker: string, token: int, now: int, status: Status, reasons: seq<Reason>,
                    ref: Option<Ref>, proof: Option<Proof>) returns (reply: Result<Job, Error>)
      requires Valid()
      modifies this`jobs
      ensures Valid()
      ensures (Snapshot(), reply) == MediaQueue.Complete(old(Snapshot()), k, worker, token, now, status, reasons, ref, proof)
    {
      LeaseCallsKeepInv(id, Snapshot(), k, worker, token, now);
      assert Inv(id, MediaQueue.Complete(Snapshot(), k, worker, token, now, status, reasons, ref, proof).0);
      if (status != Ready && status != Quarantined && status != DeadLetter) || !ValidReasons(reasons) {
        return Err(Invalid);
      }
      var current := LiveLease(k, worker, token, now);
      if current.Err? {
        return Err(current.error);
      }
      var completed := current.value.(status := status, owner := None, expires := None, reasons := reasons,
                                      ref := ref, proof := proof, updatedAt := now);
      jobs := jobs[k := completed];
      return Ok(completed);
    }

    method RetryLater(k: JobKey, worker: string, token: int, now: int, retryAt: int, reasons: seq<Reason>) returns (reply: Result<Job, Error>)
      requires Valid()
      modifies this`jobs
      ensures Valid()
      ensures (Snapshot(), reply) == MediaQueue.RetryJob(old(Snapshot()), k, worker, token, now, retryAt, reasons)
    {
      LeaseCallsKeepInv(id, Snapshot(), k, worker, token, now);
      assert Inv(id, MediaQueue.RetryJob(Snapshot(), k, worker, token, now, retryAt, reasons).0);
      if retryAt <= now || !ValidReasons(reasons) {
        return Err(Invalid);
      }
      var current := LiveLease(k, worker, token, now);
      if current.Err? {
        return Err(current.error);
      }
      var j := current.value;
      var status := if j.attempt < j.maxAttempts then Retry else DeadLetter;
      var updated := j.(status := status, dueAt := if status == Retry then retryAt else j.dueAt,
                        owner := None, expires := None, reasons := reasons, updatedAt := now);
      jobs := jobs[k := updated];
      return Ok(updated);
    }
  }
}
