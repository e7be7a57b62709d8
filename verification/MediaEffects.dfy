/** What each operation of the media queue does, field by field, in the terms of its jobs only, and how
    long a retried job waits. */
module MediaEffects {
  import opened Wrappers
  import opened Ordering
  import opened MediaQueue

  // ---- submission -----------------------------------------------------------------------------

  predicate For(s: State, k: JobKey, site: string, request: string) {
    k in s.jobs && s.jobs[k].receipt.site == site && s.jobs[k].receipt.requestId == request
  }

  /** The same upload, work and attempts, whatever the receipt's replay stamp. */
  predicate SameSubmission(j: Job, sub: Submission) {
    && j.digest.0.site == sub.receipt.site && j.digest.0.requestId == sub.receipt.requestId
    && j.digest.0.audio == sub.receipt.audio && j.digest.0.evidenceRef == sub.receipt.evidenceRef
    && j.digest.0.identity == sub.receipt.identity && j.digest.0.stamp == ""
    && j.digest.1 == sub.work && j.digest.2 == sub.maxAttempts
  }

  lemma ForIffRequested(id: IdDigest, s: State, site: string, request: string)
    requires Inv(id, s)
    ensures RequestKey(site, request) in s.requests <==> exists k :: For(s, k, site, request)
    ensures forall k :: For(s, k, site, request) ==> RequestKey(site, request) in s.requests && k == JobKey(site, s.requests[RequestKey(site, request)])
  {
    var r := RequestKey(site, request);
    if r in s.requests {
      assert RequestEntry(id, s, r);
      assert For(s, JobKey(site, s.requests[r]), site, request);
    }
    forall k | For(s, k, site, request) ensures r in s.requests && k == JobKey(site, s.requests[r]) {
      assert JobEntry(id, s, k);
    }
  }

  /** A request that has a job replays it when the submission is the same and conflicts otherwise; a new
      one gets a queued job that is due at once, with nothing done yet. */
  lemma EnqueueEffect(id: IdDigest, s: State, sub: Submission, now: int)
    requires Inv(id, s)
    ensures var (s', reply) := Enqueue(id, s, sub, now);
      var j := Job(id(sub.receipt.site, sub.receipt.requestId), sub.receipt, sub.work, (sub.receipt.(stamp := ""), sub.work, sub.maxAttempts),
                   Queued, now, 0, sub.maxAttempts, 0, None, None, [], None, None, now, now);
      if exists k :: For(s, k, sub.receipt.site, sub.receipt.requestId)
      then s' == s && forall k :: For(s, k, sub.receipt.site, sub.receipt.requestId) ==>
             reply == if SameSubmission(s.jobs[k], sub) then Ok(s.jobs[k]) else Err(IdempotencyConflict)
      else reply == Ok(j) && s' == State(s.jobs[JobKey(sub.receipt.site, j.id) := j],
                                         s.requests[RequestKey(sub.receipt.site, sub.receipt.requestId) := j.id])
  {
    ForIffRequested(id, s, sub.receipt.site, sub.receipt.requestId);
  }

  // ---- claims ---------------------------------------------------------------------------------

  /** The job may be claimed: it is due or its lease has run out, and it has an attempt left. */
  predicate Open(j: Job, site: string, now: int) {
    && j.receipt.site == site && j.attempt < j.maxAttempts
    && (|| (j.status in {Queued, Retry} && j.dueAt <= now)
        || (j.status == Leased && j.expires.Some? && j.expires.value <= now))
  }

  /** Its lease has run out and it has no attempt left. */
  predicate Spent(j: Job, site: string, now: int) {
    j.receipt.site == site && j.attempt >= j.maxAttempts && j.status == Leased && j.expires.Some? && j.expires.value <= now
  }

  /** Earlier due, then earlier created, then the job ids in order. */
  predicate NoLater(a: Job, b: Job) {
    && a.dueAt <= b.dueAt
    && (a.dueAt == b.dueAt ==> a.createdAt <= b.createdAt)
    && (a.dueAt == b.dueAt && a.createdAt == b.createdAt ==> StrLe(a.id, b.id))
  }

  predicate FirstInLine(s: State, k: JobKey, site: string, now: int) {
    k in s.jobs && Open(s.jobs[k], site, now) && forall c :: c in s.jobs && Open(s.jobs[c], site, now) ==> NoLater(s.jobs[k], s.jobs[c])
  }

  predicate Buried(was: Job, j: Job, now: int) {
    j == Job(was.id, was.receipt, was.work, was.digest, DeadLetter, was.dueAt, was.attempt, was.maxAttempts, was.token,
             None, None, [LeaseExpiredMaxAttempts], was.ref, was.proof, was.createdAt, now)
  }

  /** Spent jobs of the site are dead-lettered, and no other job or request has changed. */
  ghost predicate OthersReaped(s: State, s': State, site: string, now: int, but: Option<JobKey>) {
    && s'.requests == s.requests && s'.jobs.Keys == s.jobs.Keys
    && forall c :: c in s.jobs && but != Some(c) ==>
         if Spent(s.jobs[c], site, now) then Buried(s.jobs[c], s'.jobs[c], now) else s'.jobs[c] == s.jobs[c]
  }

  predicate LeasedTo(was: Job, j: Job, worker: string, now: int, duration: int) {
    j == Job(was.id, was.receipt, was.work, was.digest, Leased, was.dueAt, was.attempt + 1, was.maxAttempts, was.token + 1,
             Some(worker), Some(now + duration), was.reasons, was.ref, was.proof, was.createdAt, now)
  }

  /** The claim hands out job `k`, leased as asked and with the next fencing token. */
  ghost predicate ClaimDid(s: State, s': State, j: Job, k: JobKey, site: string, worker: string, now: int, duration: int) {
    && FirstInLine(s, k, site, now) && k in s'.jobs && s'.jobs[k] == j
    && LeasedTo(s.jobs[k], j, worker, now, duration) && OthersReaped(s, s', site, now, Some(k))
  }

  lemma OpenIffCandidate(s: State, site: string, now: int, k: JobKey)
    ensures k in s.jobs && Open(s.jobs[k], site, now) <==> k in Candidates(Reap(s.jobs, site, now), site, now)
    ensures k in s.jobs && Open(s.jobs[k], site, now) ==> Reap(s.jobs, site, now)[k] == s.jobs[k]
  {
    if k in s.jobs { assert Reap(s.jobs, site, now)[k] == ReapJob(s.jobs[k], site, now); }
  }

  lemma NoneOpen(s: State, site: string, now: int)
    ensures Candidates(Reap(s.jobs, site, now), site, now) == {} <==> forall k :: k in s.jobs ==> !Open(s.jobs[k], site, now)
  {
    forall k ensures k in s.jobs && Open(s.jobs[k], site, now) <==> k in Candidates(Reap(s.jobs, site, now), site, now) {
      OpenIffCandidate(s, site, now, k);
    }
  }

  lemma ReapDid(s: State, site: string, now: int)
    ensures OthersReaped(s, s.(jobs := Reap(s.jobs, site, now)), site, now, None)
  {
  }

  lemma FirstIsFirstInLine(s: State, site: string, now: int)
    requires Candidates(Reap(s.jobs, site, now), site, now) != {}
    ensures var r := Reap(s.jobs, site, now); FirstInLine(s, First(r, Candidates(r, site, now)), site, now)
  {
    var r := Reap(s.jobs, site, now);
    var k := First(r, Candidates(r, site, now));
    OpenIffCandidate(s, site, now, k);
    forall c | c in s.jobs && Open(s.jobs[c], site, now) ensures NoLater(s.jobs[k], s.jobs[c]) {
      OpenIffCandidate(s, site, now, c);
      assert Before(r[k], r[c]);
    }
  }

  lemma FirstClaimDid(s: State, site: string, worker: string, now: int, duration: int)
    requires site != "" && worker != "" && duration > 0 && Candidates(Reap(s.jobs, site, now), site, now) != {}
    ensures var (s', reply) := Claim(s, site, worker, now, duration);
      && reply.Ok? && reply.value.Some?
      && ClaimDid(s, s', reply.value.value, First(Reap(s.jobs, site, now), Candidates(Reap(s.jobs, site, now), site, now)), site, worker, now, duration)
  {
    FirstIsFirstInLine(s, site, now);
    ReapDid(s, site, now);
    OpenIffCandidate(s, site, now, First(Reap(s.jobs, site, now), Candidates(Reap(s.jobs, site, now), site, now)));
  }

  /** A claim hands out the open job of the site that is first in line, or none when no job is open. */
  lemma ClaimEffect(s: State, site: string, worker: string, now: int, duration: int)
    ensures var (s', reply) := Claim(s, site, worker, now, duration);
      if site == "" || worker == "" || duration <= 0 then s' == s && reply == Err(Invalid)
      else if forall k :: k in s.jobs ==> !Open(s.jobs[k], site, now) then reply == Ok(None) && OthersReaped(s, s', site, now, None)
      else reply.Ok? && reply.value.Some? && exists k :: ClaimDid(s, s', reply.value.value, k, site, worker, now, duration)
  {
    NoneOpen(s, site, now);
    ReapDid(s, site, now);
    if site != "" && worker != "" && duration > 0 && Candidates(Reap(s.jobs, site, now), site, now) != {} {
      FirstClaimDid(s, site, worker, now, duration);
    }
  }

  // ---- calls under a lease --------------------------------------------------------------------

  /** The worker holds the job's live lease with this token. */
  predicate Holds(s: State, k: JobKey, worker: string, token: int, now: int) {
    && k in s.jobs && s.jobs[k].status == Leased && s.jobs[k].owner == Some(worker) && s.jobs[k].token == token
    && s.jobs[k].expires.Some? && now < s.jobs[k].expires.value
  }

  /** The job has a new version, and nothing else has changed. */
  predicate Became(s: State, s': State, reply: Result<Job, Error>, k: JobKey, j: Job) {
    s' == State(s.jobs[k := j], s.requests) && reply == Ok(j)
  }

  lemma HeartbeatEffect(s: State, k: JobKey, worker: string, token: int, now: int, duration: int)
    ensures var (s', reply) := Heartbeat(s, k, worker, token, now, duration);
      if k.site == "" || worker == "" || duration <= 0 then s' == s && reply == Err(Invalid)
      else if !Holds(s, k, worker, token, now) then s' == s && reply == Err(LeaseConflict)
      else
        var j := s.jobs[k];
        Became(s, s', reply, k, Job(j.id, j.receipt, j.work, j.digest, Leased, j.dueAt, j.attempt, j.maxAttempts, j.token,
                                    j.owner, Some(now + duration), j.reasons, j.ref, j.proof, j.createdAt, now))
  {
  }

  lemma CompleteEffect(s: State, k: JobKey, worker: string, token: int, now: int, status: Status, reasons: seq<Reason>,
                       ref: Option<Ref>, proof: Option<Proof>)
    ensures var (s', reply) := Complete(s, k, worker, token, now, status, reasons, ref, proof);
      if status in {Queued, Leased, Retry} || !ValidReasons(reasons) then s' == s && reply == Err(Invalid)
      else if !Holds(s, k, worker, token, now) then s' == s && reply == Err(LeaseConflict)
      else
        var j := s.jobs[k];
        Became(s, s', reply, k, Job(j.id, j.receipt, j.work, j.digest, status, j.dueAt, j.attempt, j.maxAttempts, j.token,
                                    None, None, reasons, ref, proof, j.createdAt, now))
  {
  }

  /** A retry waits for its time, and after the last attempt the job is a dead letter instead. */
  lemma RetryEffect(s: State, k: JobKey, worker: string, token: int, now: int, retryAt: int, reasons: seq<Reason>)
    ensures var (s', reply) := RetryJob(s, k, worker, token, now, retryAt, reasons);
      if retryAt <= now || !ValidReasons(reasons) then s' == s && reply == Err(Invalid)
      else if !Holds(s, k, worker, token, now) then s' == s && reply == Err(LeaseConflict)
      else
        var j := s.jobs[k];
        if j.attempt < j.maxAttempts then
          Became(s, s', reply, k, Job(j.id, j.receipt, j.work, j.digest, Retry, retryAt, j.attempt, j.maxAttempts, j.token,
                                      None, None, reasons, j.ref, j.proof, j.createdAt, now))
        else
          Became(s, s', reply, k, Job(j.id, j.receipt, j.work, j.digest, DeadLetter, j.dueAt, j.attempt, j.maxAttempts, j.token,
                                      None, None, reasons, j.ref, j.proof, j.createdAt, now))
  {
  }

  // ---- waiting --------------------------------------------------------------------------------

  datatype Call =
    | EnqueueCall(sub: Submission, now: int)
    | ClaimCall(site: string, worker: string, now: int, duration: int)
    | HeartbeatCall(key: JobKey, worker: string, token: int, now: int, duration: int)
    | CompleteCall(key: JobKey, worker: string, token: int, now: int, status: Status, reasons: seq<Reason>, ref: Option<Ref>, proof: Option<Proof>)
    | RetryCall(key: JobKey, worker: string, token: int, now: int, retryAt: int, reasons: seq<Reason>)

  ghost function Apply(id: IdDigest, s: State, c: Call): State {
    match c
    case EnqueueCall(sub, now) => Enqueue(id, s, sub, now).0
    case ClaimCall(site, w, now, d) => Claim(s, site, w, now, d).0
    case HeartbeatCall(k, w, token, now, d) => Heartbeat(s, k, w, token, now, d).0
    case CompleteCall(k, w, token, now, status, reasons, ref, proof) => Complete(s, k, w, token, now, status, reasons, ref, proof).0
    case RetryCall(k, w, token, now, retryAt, reasons) => RetryJob(s, k, w, token, now, retryAt, reasons).0
  }

  ghost function Run(id: IdDigest, s: State, calls: seq<Call>): State
    decreases |calls|
  {
    if calls == [] then s else Run(id, Apply(id, s, calls[0]), calls[1..])
  }

  predicate Valid(calls: seq<Call>) {
    forall i :: 0 <= i < |calls| && calls[i].EnqueueCall? ==> calls[i].sub.Valid()
  }

  /** No claim of the site reads a clock at or after this time. */
  predicate ClaimsBefore(calls: seq<Call>, site: string, until: int) {
    forall i :: 0 <= i < |calls| && calls[i].ClaimCall? && calls[i].site == site ==> calls[i].now < until
  }

  lemma ApplyKeepsInv(id: IdDigest, s: State, c: Call)
    requires Injective(id) && Inv(id, s) && (c.EnqueueCall? ==> c.sub.Valid())
    ensures Inv(id, Apply(id, s, c))
  {
    match c
    case EnqueueCall(sub, now) => EnqueueKeepsInv(id, s, sub, now);
    case ClaimCall(site, w, now, d) => ClaimKeepsInv(id, s, site, w, now, d);
    case HeartbeatCall(k, w, token, now, _) => LeaseCallsKeepInv(id, s, k, w, token, now);
    case CompleteCall(k, w, token, now, _, _, _, _) => LeaseCallsKeepInv(id, s, k, w, token, now);
    case RetryCall(k, w, token, now, _, _) => LeaseCallsKeepInv(id, s, k, w, token, now);
  }

  lemma EnqueueAddsOneJob(id: IdDigest, s: State, sub: Submission, now: int, k: JobKey)
    requires Injective(id) && Inv(id, s) && k in s.jobs
    ensures k in Enqueue(id, s, sub, now).0.jobs && Enqueue(id, s, sub, now).0.jobs[k] == s.jobs[k]
  {
    assert JobEntry(id, s, k);
  }

  lemma ApplyLeavesWaiting(id: IdDigest, s: State, c: Call, k: JobKey)
    requires Injective(id) && Inv(id, s) && k in s.jobs && s.jobs[k].status in {Queued, Retry}
    requires c.ClaimCall? && c.site == s.jobs[k].receipt.site ==> c.now < s.jobs[k].dueAt
    ensures k in Apply(id, s, c).jobs && Apply(id, s, c).jobs[k] == s.jobs[k]
  {
    match c
    case EnqueueCall(sub, now) => EnqueueAddsOneJob(id, s, sub, now, k);
    case ClaimCall(site, w, now, d) => ClaimEffect(s, site, w, now, d);
    case HeartbeatCall(j, w, token, now, d) => HeartbeatEffect(s, j, w, token, now, d);
    case CompleteCall(j, w, token, now, status, reasons, ref, proof) => CompleteEffect(s, j, w, token, now, status, reasons, ref, proof);
    case RetryCall(j, w, token, now, retryAt, reasons) => RetryEffect(s, j, w, token, now, retryAt, reasons);
  }

  /** Whatever is called, a waiting job stays exactly as it is until a claim of its site reads a clock
      that has reached its due time. */
  lemma {:induction false} WaitsUntilDue(id: IdDigest, s: State, calls: seq<Call>, k: JobKey)
    requires Injective(id) && Inv(id, s) && Valid(calls) && k in s.jobs && s.jobs[k].status in {Queued, Retry}
    requires ClaimsBefore(calls, s.jobs[k].receipt.site, s.jobs[k].dueAt)
    ensures k in Run(id, s, calls).jobs && Run(id, s, calls).jobs[k] == s.jobs[k]
    decreases |calls|
  {
    if calls != [] {
      ApplyLeavesWaiting(id, s, calls[0], k);
      ApplyKeepsInv(id, s, calls[0]);
      assert ClaimsBefore(calls[1..], s.jobs[k].receipt.site, s.jobs[k].dueAt);
      WaitsUntilDue(id, Apply(id, s, calls[0]), calls[1..], k);
    }
  }

  /** A job sent back before its last attempt is not claimed again before its retry time, in any
      continuation. */
  lemma RetriedJobWaits(id: IdDigest, s: State, k: JobKey, worker: string, token: int, now: int, retryAt: int, reasons: seq<Reason>, calls: seq<Call>)
    requires Injective(id) && Inv(id, s) && Valid(calls)
    requires retryAt > now && ValidReasons(reasons) && Holds(s, k, worker, token, now) && s.jobs[k].attempt < s.jobs[k].maxAttempts
    requires ClaimsBefore(calls, s.jobs[k].receipt.site, retryAt)
    ensures var jobs := Run(id, RetryJob(s, k, worker, token, now, retryAt, reasons).0, calls).jobs;
      && k in jobs && jobs[k].status == Retry && jobs[k].attempt == s.jobs[k].attempt && jobs[k].token == token
      && jobs[k].dueAt == retryAt && jobs[k].reasons == reasons
  {
    RetryEffect(s, k, worker, token, now, retryAt, reasons);
    LeaseCallsKeepInv(id, s, k, worker, token, now);
    WaitsUntilDue(id, RetryJob(s, k, worker, token, now, retryAt, reasons).0, calls, k);
  }
}
