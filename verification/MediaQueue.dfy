/** The media job queue: fenced leases, idempotent submission, reaping. The digest that turns a
    request into a job id is a parameter `id`, required to be injective. */
module MediaQueue {
  import opened Wrappers
  import opened Ordering

  datatype Status = Queued | Leased | Retry | Ready | Quarantined | DeadLetter

  datatype Error = Invalid | IdempotencyConflict | LeaseConflict

  /** Reason codes. `Coded` stands for codes that come from outside the worker. */
  datatype Reason =
    | LeaseExpiredMaxAttempts | MediaRuntimeError | PipelineRetry | PipelineStatusInvalid
    | ObserverBridgeUnavailable | TranscriptProofInvalid | RuntimeArtifactProofMissing
    | PreprocessorError | NormalizerError | SpeechProviderError
    | Coded(text: string)

  predicate CodeChar(c: char) { 'a' <= c <= 'z' || '0' <= c <= '9' }

  predicate WellFormed(r: Reason) {
    r.Coded? ==>
      && 1 <= |r.text| <= 80 && CodeChar(r.text[0])
      && forall i :: 0 <= i < |r.text| ==> CodeChar(r.text[i]) || r.text[i] in {'_', '.', '-'}
  }

  predicate ValidReasons(rs: seq<Reason>) {
    |rs| <= 32 && forall i :: 0 <= i < |rs| ==> WellFormed(rs[i])
  }

  /** `identity` is the part of an upload receipt that must not change on replay; `stamp` is the
      part that may. */
  datatype UploadReceipt = UploadReceipt(site: string, requestId: string, audio: bool, evidenceRef: string, identity: string, stamp: string)

  datatype WorkSpec = WorkSpec(durationMs: int, channels: int, sampleRate: int, languageHint: Option<string>)

  datatype Submission = Submission(receipt: UploadReceipt, work: WorkSpec, maxAttempts: int) {
    predicate Valid() {
      && 1 <= work.durationMs <= 7_200_000 && 1 <= work.channels <= 8 && 8_000 <= work.sampleRate <= 192_000
      && 1 <= maxAttempts <= 100
      && (work.languageHint.Some? ==> 2 <= |work.languageHint.value| <= 16)
    }

    /** The document the submission digest hashes. */
    function Digest(): (UploadReceipt, WorkSpec, int) { (receipt.(stamp := ""), work, maxAttempts) }
  }

  /** A published reference is the digest of what it names. */
  datatype Ref =
    | TranscriptRef(site: string, transcriptId: string, evidence: string, modelSha: string)
    | ManifestRef(site: string, evidenceRef: string, identity: string)

  datatype Proof = Proof(outputSha: string, executableSha: string, modelSha: string)

  datatype JobKey = JobKey(site: string, id: string)
  datatype RequestKey = RequestKey(site: string, request: string)

  datatype Job = Job(
    id: string, receipt: UploadReceipt, work: WorkSpec, digest: (UploadReceipt, WorkSpec, int), status: Status,
    dueAt: int, attempt: int, maxAttempts: int, token: int, owner: Option<string>,
    expires: Option<int>, reasons: seq<Reason>, ref: Option<Ref>, proof: Option<Proof>,
    createdAt: int, updatedAt: int)
  {
    function Key(): JobKey { JobKey(receipt.site, id) }
    function Request(): RequestKey { RequestKey(receipt.site, receipt.requestId) }
    predicate Expired(now: int) { status == Leased && expires.Some? && expires.value <= now }
    predicate Terminal() { status == Ready || status == Quarantined || status == DeadLetter }
  }

  datatype State = State(jobs: map<JobKey, Job>, requests: map<RequestKey, string>)

  const EMPTY: State := State(map[], map[])

  type IdDigest = (string, string) -> string

  ghost predicate Injective(id: IdDigest) {
    forall a, b, c, d {:trigger id(a, b), id(c, d)} :: id(a, b) == id(c, d) ==> a == c && b == d
  }

  // ---- operations ---------------------------------------------------------------------------

  function FreshJob(id: IdDigest, sub: Submission, now: int): Job {
    Job(id(sub.receipt.site, sub.receipt.requestId), sub.receipt, sub.work, sub.Digest(), Queued, now, 0,
        sub.maxAttempts, 0, None, None, [], None, None, now, now)
  }

  function Enqueue(id: IdDigest, s: State, sub: Submission, now: int): (State, Result<Job, Error>) {
    var rk := RequestKey(sub.receipt.site, sub.receipt.requestId);
    if rk in s.requests then
      var k := JobKey(sub.receipt.site, s.requests[rk]);
      if k !in s.jobs || s.jobs[k].digest != sub.Digest() then (s, Err(IdempotencyConflict)) else (s, Ok(s.jobs[k]))
    else
      var j := FreshJob(id, sub, now);
      (State(s.jobs[j.Key() := j], s.requests[rk := j.id]), Ok(j))
  }

  predicate Exhausted(j: Job, site: string, now: int) {
    j.receipt.site == site && j.Expired(now) && j.attempt >= j.maxAttempts
  }

  function Dead(j: Job, now: int): Job {
    j.(status := DeadLetter, owner := None, expires := None, reasons := [LeaseExpiredMaxAttempts], updatedAt := now)
  }

  function ReapJob(j: Job, site: string, now: int): Job {
    if Exhausted(j, site, now) then Dead(j, now) else j
  }

  function Reap(jobs: map<JobKey, Job>, site: string, now: int): map<JobKey, Job> {
    map k | k in jobs :: ReapJob(jobs[k], site, now)
  }

  predicate Claimable(j: Job, site: string, now: int) {
    && j.receipt.site == site && j.attempt < j.maxAttempts
    && (((j.status == Queued || j.status == Retry) && j.dueAt <= now) || j.Expired(now))
  }

  /** min by (due_at, created_at, job_id). */
  predicate Before(a: Job, b: Job) {
    if a.dueAt != b.dueAt then a.dueAt < b.dueAt
    else if a.createdAt != b.createdAt then a.createdAt < b.createdAt
    else StrLe(a.id, b.id)
  }

  lemma BeforeIsTotalOrder(a: Job, b: Job, c: Job)
    ensures Before(a, a)
    ensures Before(a, b) || Before(b, a)
    ensures Before(a, b) && Before(b, c) ==> Before(a, c)
    ensures Before(a, b) && Before(b, a) ==> a.id == b.id
  {
    StrLeReflexive(a.id);
    StrLeTotal(a.id, b.id);
    if StrLe(a.id, b.id) && StrLe(b.id, c.id) { StrLeTransitive(a.id, b.id, c.id); }
    if StrLe(a.id, b.id) && StrLe(b.id, a.id) { StrLeAntisymmetric(a.id, b.id); }
  }

  ghost predicate IsFirst(jobs: map<JobKey, Job>, ks: set<JobKey>, k: JobKey) {
    k in ks && k in jobs && forall c :: c in ks && c in jobs ==> Before(jobs[k], jobs[c])
  }

  lemma {:induction false} FirstExists(jobs: map<JobKey, Job>, ks: set<JobKey>)
    requires ks != {} && ks <= jobs.Keys
    ensures exists k :: IsFirst(jobs, ks, k)
    decreases |ks|
  {
    var x :| x in ks;
    var rest := ks - {x};
    BeforeIsTotalOrder(jobs[x], jobs[x], jobs[x]);
    if rest == {} {
      assert ks == {x};
      assert IsFirst(jobs, ks, x);
    } else {
      FirstExists(jobs, rest);
      var m :| IsFirst(jobs, rest, m);
      var best := if Before(jobs[x], jobs[m]) then x else m;
      forall c | c in ks ensures Before(jobs[best], jobs[c]) { BeforeIsTotalOrder(jobs[x], jobs[m], jobs[c]); }
      assert IsFirst(jobs, ks, best);
    }
  }

  ghost function First(jobs: map<JobKey, Job>, ks: set<JobKey>): (k: JobKey)
    requires ks != {} && ks <= jobs.Keys
    ensures IsFirst(jobs, ks, k)
  {
    FirstExists(jobs, ks);
    var k :| IsFirst(jobs, ks, k);
    k
  }

  function Candidates(jobs: map<JobKey, Job>, site: string, now: int): set<JobKey> {
    set k | k in jobs && Claimable(jobs[k], site, now)
  }

  function Claimed(j: Job, worker: string, now: int, duration: int): Job {
    j.(status := Leased, attempt := j.attempt + 1, token := j.token + 1, owner := Some(worker),
       expires := Some(now + duration), updatedAt := now)
  }

  predicate LeaseInput(site: string, worker: string, duration: int) {
    site != "" && worker != "" && duration > 0
  }

  ghost function Claim(s: State, site: string, worker: string, now: int, duration: int): (State, Result<Option<Job>, Error>) {
    if !LeaseInput(site, worker, duration) then (s, Err(Invalid))
    else
      var r := Reap(s.jobs, site, now);
      var ks := Candidates(r, site, now);
      if ks == {} then (s.(jobs := r), Ok(None))
      else
        var k := First(r, ks);
        var j := Claimed(r[k], worker, now, duration);
        (s.(jobs := r[k := j]), Ok(Some(j)))
  }

  predicate Live(j: Job, worker: string, token: int, now: int) {
    j.status == Leased && j.owner == Some(worker) && j.token == token && j.expires.Some? && j.expires.value > now
  }

  function LiveLease(s: State, k: JobKey, worker: string, token: int, now: int): Result<Job, Error> {
    if k in s.jobs && Live(s.jobs[k], worker, token, now) then Ok(s.jobs[k]) else Err(LeaseConflict)
  }

  function Heartbeat(s: State, k: JobKey, worker: string, token: int, now: int, duration: int): (State, Result<Job, Error>) {
    if !LeaseInput(k.site, worker, duration) then (s, Err(Invalid))
    else match LiveLease(s, k, worker, token, now)
      case Err(e) => (s, Err(e))
      case Ok(j) => var n := j.(expires := Some(now + duration), updatedAt := now); (s.(jobs := s.jobs[k := n]), Ok(n))
  }

  function Complete(s: State, k: JobKey, worker: string, token: int, now: int, status: Status, reasons: seq<Reason>,
                    ref: Option<Ref>, proof: Option<Proof>): (State, Result<Job, Error>) {
    if status !in {Ready, Quarantined, DeadLetter} || !ValidReasons(reasons) then (s, Err(Invalid))
    else match LiveLease(s, k, worker, token, now)
      case Err(e) => (s, Err(e))
      case Ok(j) =>
        var n := j.(status := status, owner := None, expires := None, reasons := reasons, ref := ref, proof := proof, updatedAt := now);
        (s.(jobs := s.jobs[k := n]), Ok(n))
  }

  function RetryJob(s: State, k: JobKey, worker: string, token: int, now: int, retryAt: int, reasons: seq<Reason>): (State, Result<Job, Error>) {
    if retryAt <= now || !ValidReasons(reasons) then (s, Err(Invalid))
    else match LiveLease(s, k, worker, token, now)
      case Err(e) => (s, Err(e))
      case Ok(j) =>
        var again := j.attempt < j.maxAttempts;
        var n := j.(status := if again then Retry else DeadLetter, dueAt := if again then retryAt else j.dueAt,
                    owner := None, expires := None, reasons := reasons, updatedAt := now);
        (s.(jobs := s.jobs[k := n]), Ok(n))
  }

  // ---- what every operation keeps -------------------------------------------------------------

  /** The fencing token is the attempt. */
  predicate JobOK(j: Job) {
    && 1 <= j.maxAttempts && 0 <= j.attempt <= j.maxAttempts
    && j.token == j.attempt
    && (j.status == Leased <==> j.owner.Some?) && (j.status == Leased <==> j.expires.Some?)
    && (j.status == Leased ==> j.attempt >= 1)
    && (j.status == Queued ==> j.attempt == 0)
    && (j.status == Retry ==> 1 <= j.attempt < j.maxAttempts)
  }

  predicate JobEntry(id: IdDigest, s: State, k: JobKey) {
    k in s.jobs ==>
      && s.jobs[k].Key() == k && JobOK(s.jobs[k])
      && s.jobs[k].id == id(s.jobs[k].receipt.site, s.jobs[k].receipt.requestId)
      && s.jobs[k].Request() in s.requests && s.requests[s.jobs[k].Request()] == k.id
  }

  predicate RequestEntry(id: IdDigest, s: State, r: RequestKey) {
    r in s.requests ==> JobKey(r.site, s.requests[r]) in s.jobs && s.jobs[JobKey(r.site, s.requests[r])].Request() == r
  }

  ghost predicate Inv(id: IdDigest, s: State) {
    && (forall k {:trigger JobEntry(id, s, k)} :: JobEntry(id, s, k))
    && (forall r {:trigger RequestEntry(id, s, r)} :: RequestEntry(id, s, r))
  }

  /** A job's identity never changes, its token never drops, and a terminal job is final. */
  predicate JobForward(s: State, s': State, k: JobKey) {
    k in s.jobs ==>
      && k in s'.jobs
      && var a, b := s.jobs[k], s'.jobs[k];
      && b.id == a.id && b.receipt == a.receipt && b.work == a.work && b.digest == a.digest && b.maxAttempts == a.maxAttempts
      && a.token <= b.token && a.attempt <= b.attempt
      && (a.Terminal() ==> b == a)
  }

  ghost predicate Forward(s: State, s': State) {
    forall k {:trigger JobForward(s, s', k)} :: JobForward(s, s', k)
  }

  /** Replacing one live job by its next version. */
  lemma ReplaceKeepsInv(id: IdDigest, s: State, k: JobKey, j: Job)
    requires Inv(id, s) && k in s.jobs && JobOK(j) && !s.jobs[k].Terminal()
    requires j.id == s.jobs[k].id && j.receipt == s.jobs[k].receipt && j.work == s.jobs[k].work
    requires j.digest == s.jobs[k].digest && j.maxAttempts == s.jobs[k].maxAttempts && s.jobs[k].attempt <= j.attempt
    ensures Inv(id, s.(jobs := s.jobs[k := j])) && Forward(s, s.(jobs := s.jobs[k := j]))
  {
    var s' := s.(jobs := s.jobs[k := j]);
    assert JobEntry(id, s, k);
    forall c ensures JobEntry(id, s', c) { assert JobEntry(id, s, c); }
    forall r ensures RequestEntry(id, s', r) { assert RequestEntry(id, s, r); }
    forall c ensures JobForward(s, s', c) {}
  }

  lemma ReapKeepsInv(id: IdDigest, s: State, site: string, now: int)
    requires Inv(id, s)
    ensures var s' := s.(jobs := Reap(s.jobs, site, now)); Inv(id, s') && Forward(s, s')
  {
    var s' := s.(jobs := Reap(s.jobs, site, now));
    forall c ensures JobEntry(id, s', c) { assert JobEntry(id, s, c); }
    forall r ensures RequestEntry(id, s', r) { assert RequestEntry(id, s, r); }
    forall c ensures JobForward(s, s', c) {}
  }

  lemma ForwardTransitive(s: State, s1: State, s2: State)
    requires Forward(s, s1) && Forward(s1, s2)
    ensures Forward(s, s2)
  {
    forall k ensures JobForward(s, s2, k) { assert JobForward(s, s1, k) && JobForward(s1, s2, k); }
  }

  lemma Unmoved(s: State)
    ensures Forward(s, s)
  {
    forall k ensures JobForward(s, s, k) {}
  }

  lemma EnqueueKeepsInv(id: IdDigest, s: State, sub: Submission, now: int)
    requires Injective(id) && Inv(id, s) && sub.Valid()
    ensures var s' := Enqueue(id, s, sub, now).0; Inv(id, s') && Forward(s, s')
  {
    var s' := Enqueue(id, s, sub, now).0;
    var j := FreshJob(id, sub, now);
    if s' == s {
      Unmoved(s);
    } else {
      assert JobEntry(id, s, j.Key());
      forall c ensures JobEntry(id, s', c) { assert JobEntry(id, s, c); }
      forall r ensures RequestEntry(id, s', r) { assert RequestEntry(id, s, r); }
      forall c ensures JobForward(s, s', c) {}
    }
  }

  lemma ClaimKeepsInv(id: IdDigest, s: State, site: string, worker: string, now: int, duration: int)
    requires Inv(id, s)
    ensures var (s', reply) := Claim(s, site, worker, now, duration);
      && Inv(id, s') && Forward(s, s')
      && (reply.Ok? && reply.value.Some? ==>
            var j := reply.value.value;
            j.Key() in s'.jobs && s'.jobs[j.Key()] == j && j.status == Leased && j.Key() in s.jobs && s.jobs[j.Key()].attempt + 1 == j.attempt)
  {
    Unmoved(s);
    if LeaseInput(site, worker, duration) {
      ReapKeepsInv(id, s, site, now);
      var s1 := s.(jobs := Reap(s.jobs, site, now));
      var ks := Candidates(s1.jobs, site, now);
      if ks != {} {
        var k := First(s1.jobs, ks);
        assert JobEntry(id, s, k) && JobEntry(id, s1, k);
        var j := Claimed(s1.jobs[k], worker, now, duration);
        ReplaceKeepsInv(id, s1, k, j);
        ForwardTransitive(s, s1, s1.(jobs := s1.jobs[k := j]));
      }
    }
  }

  lemma LeaseCallsKeepInv(id: IdDigest, s: State, k: JobKey, worker: string, token: int, now: int)
    requires Inv(id, s)
    ensures forall duration :: var s' := Heartbeat(s, k, worker, token, now, duration).0; Inv(id, s') && Forward(s, s')
    ensures forall status, reasons, ref, proof :: var s' := Complete(s, k, worker, token, now, status, reasons, ref, proof).0; Inv(id, s') && Forward(s, s')
    ensures forall retryAt, reasons :: var s' := RetryJob(s, k, worker, token, now, retryAt, reasons).0; Inv(id, s') && Forward(s, s')
  {
    Unmoved(s);
    if k in s.jobs && Live(s.jobs[k], worker, token, now) {
      assert JobEntry(id, s, k);
      forall duration ensures var s' := Heartbeat(s, k, worker, token, now, duration).0; Inv(id, s') && Forward(s, s') {
        var r := Heartbeat(s, k, worker, token, now, duration);
        if r.1.Ok? { ReplaceKeepsInv(id, s, k, r.1.value); }
      }
      forall status, reasons, ref, proof ensures var s' := Complete(s, k, worker, token, now, status, reasons, ref, proof).0; Inv(id, s') && Forward(s, s') {
        var r := Complete(s, k, worker, token, now, status, reasons, ref, proof);
        if r.1.Ok? { ReplaceKeepsInv(id, s, k, r.1.value); }
      }
      forall retryAt, reasons ensures var s' := RetryJob(s, k, worker, token, now, retryAt, reasons).0; Inv(id, s') && Forward(s, s') {
        var r := RetryJob(s, k, worker, token, now, retryAt, reasons);
        if r.1.Ok? { ReplaceKeepsInv(id, s, k, r.1.value); }
      }
    }
  }

  /** A stale token changes nothing: once the job was claimed again or ended, every call that
      carries an older token is refused, whoever sends it and whenever. */
  lemma StaleTokenIsRefused(id: IdDigest, s: State, k: JobKey, worker: string, token: int, now: int)
    requires Inv(id, s) && k in s.jobs && (token < s.jobs[k].token || s.jobs[k].Terminal())
    ensures forall duration :: Heartbeat(s, k, worker, token, now, duration).0 == s && Heartbeat(s, k, worker, token, now, duration).1.Err?
    ensures forall status, reasons, ref, proof :: Complete(s, k, worker, token, now, status, reasons, ref, proof).0 == s
    ensures forall retryAt, reasons :: RetryJob(s, k, worker, token, now, retryAt, reasons).0 == s
  {
    assert JobEntry(id, s, k);
  }
}
