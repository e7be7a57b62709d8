/** MediaWorker: what it does with a pipeline outcome, and what holds when any number of workers
    run against one queue, stale claims included. */
module MediaWorker {
  import opened Wrappers
  import opened MediaQueue
  import opened MediaPipeline

  datatype RunStatus = RunSucceeded | RunRetry | RunQuarantined | RunDeadLetter | RunLeaseLost

  datatype ProofAnswer = ProofRaises | ProofGiven(proof: Option<Proof>)

  /** What _record_outcome ends up asking the repository for. */
  datatype Decision =
    | DecideRetry(reasons: seq<Reason>)
    | DecideComplete(status: Status, reasons: seq<Reason>, ref: Option<Ref>, proof: Option<Proof>)
    | DecideRaise

  function RefOf(t: Transcript): Ref { TranscriptRef(t.site, t.id, t.evidenceRef, t.modelSha) }

  function Decide(claim: Job, o: PipelineOutcome, bridgeAccepts: bool, answer: ProofAnswer): Decision {
    match o.status
    case RetryOutcome => DecideRetry(if o.reasons == [] then [PipelineRetry] else o.reasons)
    case QuarantinedOutcome => DecideComplete(Quarantined, o.reasons, None, None)
    case DeadLetterOutcome => DecideComplete(DeadLetter, o.reasons, None, None)
    case ReadyOutcome =>
      if !claim.receipt.audio then
        if !bridgeAccepts then DecideRetry([ObserverBridgeUnavailable])
        else DecideComplete(Ready, [], Some(ManifestRef(claim.receipt.site, claim.receipt.evidenceRef, claim.receipt.identity)), None)
      else if o.transcript.None? || o.transcript.value.site != claim.receipt.site || o.transcript.value.evidenceRef != claim.receipt.evidenceRef then
        DecideComplete(Quarantined, [TranscriptProofInvalid], None, None)
      else if answer.ProofRaises? then DecideRaise
      else if answer.proof.None? || answer.proof.value.modelSha != o.transcript.value.modelSha then
        DecideComplete(Quarantined, [RuntimeArtifactProofMissing], None, None)
      else if !bridgeAccepts then DecideRetry([ObserverBridgeUnavailable])
      else DecideComplete(Ready, [], Some(RefOf(o.transcript.value)), answer.proof)
  }

  /** The reference the bridge published during this decision, if any. */
  function Published(claim: Job, o: PipelineOutcome, bridgeAccepts: bool, answer: ProofAnswer): Option<Ref> {
    var d := Decide(claim, o, bridgeAccepts, answer);
    if d.DecideComplete? && d.status == Ready then d.ref else None
  }

  /** _retry; None when the repository raised anything but a lost lease. */
  function RetryRun(s: State, claim: Job, worker: string, now: int, delay: int, reasons: seq<Reason>): (State, Option<RunStatus>) {
    var (s', r) := RetryJob(s, claim.Key(), worker, claim.token, now, now + delay, reasons);
    match r
    case Ok(j) => (s', Some(if j.status == DeadLetter then RunDeadLetter else RunRetry))
    case Err(e) => (s', if e == LeaseConflict then Some(RunLeaseLost) else None)
  }

  function StatusFor(status: Status): RunStatus {
    match status case Ready => RunSucceeded case Quarantined => RunQuarantined case _ => RunDeadLetter
  }

  /** _complete; None when the repository raised anything but a lost lease. */
  function CompleteRun(s: State, claim: Job, worker: string, now: int, d: Decision): (State, Option<RunStatus>)
    requires d.DecideComplete?
  {
    var (s', r) := Complete(s, claim.Key(), worker, claim.token, now, d.status, d.reasons, d.ref, d.proof);
    match r
    case Ok(_) => (s', Some(StatusFor(d.status)))
    case Err(e) => (s', if e == LeaseConflict then Some(RunLeaseLost) else None)
  }

  /** _record_outcome; None when it raises, in which case nothing was written. */
  function FirstRecord(s: State, claim: Job, worker: string, now: int, delay: int, d: Decision): (State, Option<RunStatus>) {
    match d
    case DecideRetry(reasons) => RetryRun(s, claim, worker, now, delay, reasons)
    case DecideComplete(_, _, _, _) => CompleteRun(s, claim, worker, now, d)
    case DecideRaise => (s, None)
  }

  /** The end of run_once: record the decision, and fall back to a retry when that raises. `now` and
      `later` are the two clock readings, `mid` is the queue when the retry is made. */
  function RecordAcross(s: State, mid: State, claim: Job, worker: string, now: int, later: int, delay: int, d: Decision): (State, Option<RunStatus>) {
    var first := FirstRecord(s, claim, worker, now, delay, d);
    if first.1.Some? then first else RetryRun(mid, claim, worker, later, delay, [MediaRuntimeError])
  }

  /** The same with nothing in between. */
  function Record(s: State, claim: Job, worker: string, now: int, later: int, delay: int, d: Decision): (State, Option<RunStatus>) {
    RecordAcross(s, FirstRecord(s, claim, worker, now, delay, d).0, claim, worker, now, later, delay, d)
  }

  predicate StatusMatches(job: Job, r: RunStatus) {
    match r
    case RunSucceeded => job.status == Ready
    case RunRetry => job.status == Retry
    case RunQuarantined => job.status == Quarantined
    case RunDeadLetter => job.status == DeadLetter
    case RunLeaseLost => true
  }

  /** A claim the queue handed out at some earlier time. */
  predicate Handed(s: State, claim: Job) {
    && claim.Key() in s.jobs
    && var j := s.jobs[claim.Key()];
    && claim.token == claim.attempt && 1 <= claim.attempt <= claim.maxAttempts && claim.token <= j.token
    && j.receipt == claim.receipt && j.id == claim.id && j.maxAttempts == claim.maxAttempts
  }

  lemma HandedStays(s: State, s': State, claim: Job)
    requires Handed(s, claim) && Forward(s, s')
    ensures Handed(s', claim)
  {
    assert JobForward(s, s', claim.Key());
  }

  /** The worker always reports a status, and what it reports is what the queue then holds, whatever
      came between recording the outcome and the retry that replaces it; a lost lease means nothing was
      written. */
  lemma ReportMatchesQueue(id: IdDigest, s: State, mid: State, claim: Job, worker: string, now: int, later: int, delay: int, d: Decision)
    requires Inv(id, s) && claim.Key() in s.jobs && delay > 0 && Forward(s, mid)
    requires d.DecideComplete? ==> d.status in {Ready, Quarantined, DeadLetter}
    ensures var (s', r) := RecordAcross(s, mid, claim, worker, now, later, delay, d);
      && r.Some? && claim.Key() in s'.jobs && StatusMatches(s'.jobs[claim.Key()], r.value)
      && (r.value == RunLeaseLost ==> s' == s || s' == mid)
  {
    assert JobForward(s, mid, claim.Key());
  }

  /** A retry the pipeline decides on for a claim is never turned into a dead letter by the queue,
      whatever happened since the claim: the live lease's attempt is the claim's token. */
  lemma PipelineRetryIsNeverDeadLettered(
    id: IdDigest, s: State, mid: State, claim: Job, worker: string, now: int, later: int, delay: int,
    i: Inspection, n: Normalization, p: Speech, bridgeAccepts: bool, answer: ProofAnswer)
    requires Inv(id, s) && Inv(id, mid) && Handed(s, claim) && Forward(s, mid) && delay > 0
    ensures var o := OutcomeOf(claim.receipt, claim.attempt, claim.maxAttempts, i, n, p);
      o.status == RetryOutcome ==>
        RecordAcross(s, mid, claim, worker, now, later, delay, Decide(claim, o, bridgeAccepts, answer)).1 in {Some(RunRetry), Some(RunLeaseLost)}
  {
    HandedStays(s, mid, claim);
    assert JobEntry(id, s, claim.Key()) && JobEntry(id, mid, claim.Key());
    RetriesHaveAttemptsLeft(claim.receipt, claim.attempt, claim.maxAttempts, i, n, p);
  }

  /** A stale token changes nothing: once the job was claimed again or ended, whatever a worker
      with an older claim decides is not written, neither at once nor in its fallback. */
  lemma StaleClaimWritesNothing(id: IdDigest, s: State, mid: State, claim: Job, worker: string, now: int, later: int, delay: int, d: Decision)
    requires Inv(id, s) && Inv(id, mid) && Handed(s, claim) && Forward(s, mid)
    requires s.jobs[claim.Key()].token > claim.token || s.jobs[claim.Key()].Terminal()
    ensures var s' := RecordAcross(s, mid, claim, worker, now, later, delay, d).0; s' == s || s' == mid
  {
    assert JobForward(s, mid, claim.Key()) && JobEntry(id, s, claim.Key()) && JobEntry(id, mid, claim.Key());
  }

  // ---- any number of workers ---------------------------------------------------------------------

  /** The queue, every claim ever handed out, and every reference ever published. */
  datatype World = World(queue: State, claims: set<Job>, published: set<Ref>)

  const START: World := World(EMPTY, {}, {})

  datatype Step =
    | EnqueueStep(sub: Submission, now: int)
    | ClaimStep(site: string, worker: string, now: int, duration: int)
    | HeartbeatStep(key: JobKey, worker: string, token: int, now: int, duration: int)
    | RetryStep(key: JobKey, worker: string, token: int, now: int, retryAt: int, reasons: seq<Reason>)
    /** Recording an outcome; the retry after one that raises is a step of its own. */
    | RecordStep(claim: Job, worker: string, now: int, delay: int, outcome: PipelineOutcome, bridgeAccepts: bool, answer: ProofAnswer)

  ghost function Next(id: IdDigest, w: World, step: Step): World {
    match step
    case EnqueueStep(sub, now) => w.(queue := Enqueue(id, w.queue, sub, now).0)
    case ClaimStep(site, worker, now, duration) =>
      var (q, r) := Claim(w.queue, site, worker, now, duration);
      w.(queue := q, claims := if r.Ok? && r.value.Some? then w.claims + {r.value.value} else w.claims)
    case HeartbeatStep(k, worker, token, now, duration) => w.(queue := Heartbeat(w.queue, k, worker, token, now, duration).0)
    case RetryStep(k, worker, token, now, retryAt, reasons) => w.(queue := RetryJob(w.queue, k, worker, token, now, retryAt, reasons).0)
    case RecordStep(claim, worker, now, delay, o, accepts, answer) =>
      if claim !in w.claims then w
      else
        var ref := Published(claim, o, accepts, answer);
        w.(queue := FirstRecord(w.queue, claim, worker, now, delay, Decide(claim, o, accepts, answer)).0,
           published := if ref.Some? then w.published + {ref.value} else w.published)
  }

  ghost function Run(id: IdDigest, w: World, steps: seq<Step>): World
    decreases |steps|
  {
    if steps == [] then w else Run(id, Next(id, w, steps[0]), steps[1..])
  }

  predicate Valid(steps: seq<Step>) {
    forall i :: 0 <= i < |steps| && steps[i].EnqueueStep? ==> steps[i].sub.Valid()
  }

  /** A ready job has a published reference; for audio it names this job's evidence and the very
      model whose proof is stored. */
  predicate ReadyOK(w: World, k: JobKey) {
    k in w.queue.jobs && w.queue.jobs[k].status == Ready ==>
      var j := w.queue.jobs[k];
      && j.ref.Some? && j.ref.value in w.published
      && (j.receipt.audio ==>
            && j.proof.Some? && j.ref.value.TranscriptRef?
            && j.ref.value.site == j.receipt.site && j.ref.value.evidence == j.receipt.evidenceRef
            && j.ref.value.modelSha == j.proof.value.modelSha)
  }

  predicate ClaimHanded(w: World, c: Job) { c in w.claims ==> Handed(w.queue, c) }

  ghost predicate WorldInv(id: IdDigest, w: World) {
    && Inv(id, w.queue)
    && (forall c {:trigger ClaimHanded(w, c)} :: ClaimHanded(w, c))
    && (forall k {:trigger ReadyOK(w, k)} :: ReadyOK(w, k))
  }

  lemma ForwardKeepsWorld(id: IdDigest, w: World, w': World)
    requires WorldInv(id, w) && Inv(id, w'.queue) && Forward(w.queue, w'.queue)
    requires w'.claims == w.claims && w.published <= w'.published
    requires forall k :: k in w'.queue.jobs && w'.queue.jobs[k].status == Ready && (k !in w.queue.jobs || w.queue.jobs[k].status != Ready) ==> ReadyOK(w', k)
    ensures WorldInv(id, w')
  {
    forall c ensures ClaimHanded(w', c) {
      assert ClaimHanded(w, c);
      if c in w.claims { assert JobForward(w.queue, w'.queue, c.Key()); }
    }
    forall k ensures ReadyOK(w', k) {
      assert ReadyOK(w, k) && JobForward(w.queue, w'.queue, k);
    }
  }

  lemma RecordForward(id: IdDigest, s: State, claim: Job, worker: string, now: int, delay: int, d: Decision)
    requires Inv(id, s)
    ensures var s' := FirstRecord(s, claim, worker, now, delay, d).0; Inv(id, s') && Forward(s, s')
  {
    Unmoved(s);
    LeaseCallsKeepInv(id, s, claim.Key(), worker, claim.token, now);
  }

  /** Only a Ready decision makes a job ready, and it stores exactly what was decided. */
  lemma RecordReady(s: State, claim: Job, worker: string, now: int, delay: int, d: Decision, k: JobKey)
    requires k in s.jobs && s.jobs[k].status != Ready
    requires var s' := FirstRecord(s, claim, worker, now, delay, d).0; k in s'.jobs && s'.jobs[k].status == Ready
    ensures k == claim.Key() && d.DecideComplete? && d.status == Ready
    ensures var j := FirstRecord(s, claim, worker, now, delay, d).0.jobs[k]; j.ref == d.ref && j.proof == d.proof && j.receipt == s.jobs[k].receipt
  {
  }

  lemma RecordKeepsWorld(id: IdDigest, w: World, step: Step)
    requires WorldInv(id, w) && step.RecordStep?
    ensures WorldInv(id, Next(id, w, step))
  {
    var c, w' := step.claim, Next(id, w, step);
    if c in w.claims {
      assert ClaimHanded(w, c);
      var d := Decide(c, step.outcome, step.bridgeAccepts, step.answer);
      RecordForward(id, w.queue, c, step.worker, step.now, step.delay, d);
      forall k | k in w'.queue.jobs && w'.queue.jobs[k].status == Ready && (k !in w.queue.jobs || w.queue.jobs[k].status != Ready)
        ensures ReadyOK(w', k)
      {
        RecordReady(w.queue, c, step.worker, step.now, step.delay, d, k);
      }
      ForwardKeepsWorld(id, w, w');
    }
  }

  lemma NextKeepsWorld(id: IdDigest, w: World, step: Step)
    requires Injective(id) && WorldInv(id, w) && (step.EnqueueStep? ==> step.sub.Valid())
    ensures WorldInv(id, Next(id, w, step))
  {
    var w' := Next(id, w, step);
    match step
    case EnqueueStep(sub, now) =>
      EnqueueKeepsInv(id, w.queue, sub, now);
      ForwardKeepsWorld(id, w, w');
    case ClaimStep(site, worker, now, duration) =>
      ClaimKeepsInv(id, w.queue, site, worker, now, duration);
      var r := Claim(w.queue, site, worker, now, duration).1;
      ForwardKeepsWorld(id, w, w'.(claims := w.claims));
      if r.Ok? && r.value.Some? { assert JobEntry(id, w'.queue, r.value.value.Key()); }
      forall c ensures ClaimHanded(w', c) { assert ClaimHanded(w'.(claims := w.claims), c); }
      forall k ensures ReadyOK(w', k) { assert ReadyOK(w'.(claims := w.claims), k); }
    case HeartbeatStep(k, worker, token, now, duration) =>
      LeaseCallsKeepInv(id, w.queue, k, worker, token, now);
      ForwardKeepsWorld(id, w, w');
    case RetryStep(k, worker, token, now, retryAt, reasons) =>
      LeaseCallsKeepInv(id, w.queue, k, worker, token, now);
      ForwardKeepsWorld(id, w, w');
    case RecordStep(_, _, _, _, _, _, _) => RecordKeepsWorld(id, w, step);
  }

  lemma {:induction false} RunKeepsWorld(id: IdDigest, w: World, steps: seq<Step>)
    requires Injective(id) && WorldInv(id, w) && Valid(steps)
    ensures WorldInv(id, Run(id, w, steps))
    decreases |steps|
  {
    if steps != [] {
      NextKeepsWorld(id, w, steps[0]);
      RunKeepsWorld(id, Next(id, w, steps[0]), steps[1..]);
    }
  }

  /** In every reachable world the fencing token is the attempt, and every ready audio job carries
      a published transcript reference for its own evidence and a proof of the same model. */
  lemma ReadyJobsAreProved(id: IdDigest, steps: seq<Step>, k: JobKey)
    requires Injective(id) && Valid(steps) && k in Run(id, START, steps).queue.jobs
    ensures var w := Run(id, START, steps);
      w.queue.jobs[k].token == w.queue.jobs[k].attempt <= w.queue.jobs[k].maxAttempts && ReadyOK(w, k)
  {
    assert WorldInv(id, START);
    RunKeepsWorld(id, START, steps);
    assert JobEntry(id, Run(id, START, steps).queue, k);
  }
}
