/** MediaWorker's own methods, acting on the repository object. Each is proved to do what the
    functions of module MediaWorker say, about which the theorems are stated. */
module MediaRunner {
  import opened Wrappers
  import opened MediaQueue
  import opened MediaPipeline
  import opened MediaWorker
  import opened MediaRepository

  class Runner {
    const repository: MediaJobRepository
    const worker: string
    const delay: int

    constructor (repo: MediaJobRepository, name: string, retryDelay: int)
      requires retryDelay > 0
      ensures repository == repo && worker == name && delay == retryDelay
    {
      repository, worker, delay := repo, name, retryDelay;
    }

    method Retry(claim: Job, now: int, reasons: seq<Reason>) returns (r: Option<RunStatus>)
      requires repository.Valid()
      modifies repository`jobs
      ensures repository.Valid()
      ensures (repository.Snapshot(), r) == RetryRun(old(repository.Snapshot()), claim, worker, now, delay, reasons)
    {
      var reply := repository.RetryLater(claim.Key(), worker, claim.token, now, now + delay, reasons);
      if reply.Ok? {
        return Some(if reply.value.status == DeadLetter then RunDeadLetter else RunRetry);
      }
      return if reply.error == LeaseConflict then Some(RunLeaseLost) else None;
    }

    method Complete(claim: Job, now: int, status: Status, report: RunStatus, reasons: seq<Reason>, ref: Option<Ref>, proof: Option<Proof>)
      returns (r: Option<RunStatus>)
      requires repository.Valid() && report == StatusFor(status)
      modifies repository`jobs
      ensures repository.Valid()
      ensures (repository.Snapshot(), r) == CompleteRun(old(repository.Snapshot()), claim, worker, now, DecideComplete(status, reasons, ref, proof))
    {
      var reply := repository.Complete(claim.Key(), worker, claim.token, now, status, reasons, ref, proof);
      if reply.Ok? {
        return Some(report);
      }
      return if reply.error == LeaseConflict then Some(RunLeaseLost) else None;
    }

    /** _record_outcome; None when something raised. `bridgeAccepts` is whether the bridge would
        accept what it is given, `answer` what the proof provider says; `sent` is what was published. */
    method RecordOutcome(claim: Job, o: PipelineOutcome, bridgeAccepts: bool, answer: ProofAnswer, now: int)
      returns (r: Option<RunStatus>, sent: Option<Ref>)
      requires repository.Valid()
      modifies repository`jobs
      ensures repository.Valid()
      ensures sent == Published(claim, o, bridgeAccepts, answer)
      ensures var d := Decide(claim, o, bridgeAccepts, answer);
        (repository.Snapshot(), r) == FirstRecord(old(repository.Snapshot()), claim, worker, now, delay, d)
    {
      sent := None;
      if o.status == RetryOutcome {
        r := Retry(claim, now, if o.reasons == [] then [PipelineRetry] else o.reasons);
        return;
      }
      if o.status == QuarantinedOutcome {
        r := Complete(claim, now, Quarantined, RunQuarantined, o.reasons, None, None);
        return;
      }
      if o.status == DeadLetterOutcome {
        r := Complete(claim, now, DeadLetter, RunDeadLetter, o.reasons, None, None);
        return;
      }
      if !claim.receipt.audio {
        if !bridgeAccepts {
          r := Retry(claim, now, [ObserverBridgeUnavailable]);
          return;
        }
        sent := Some(ManifestRef(claim.receipt.site, claim.receipt.evidenceRef, claim.receipt.identity));
        r := Complete(claim, now, Ready, RunSucceeded, [], sent, None);
        return;
      }
      var transcript := o.transcript;
      if transcript.None? || transcript.value.site != claim.receipt.site || transcript.value.evidenceRef != claim.receipt.evidenceRef {
        r := Complete(claim, now, Quarantined, RunQuarantined, [TranscriptProofInvalid], None, None);
        return;
      }
      if answer.ProofRaises? {
        return None, None;
      }
      if answer.proof.None? || answer.proof.value.modelSha != transcript.value.modelSha {
        r := Complete(claim, now, Quarantined, RunQuarantined, [RuntimeArtifactProofMissing], None, None);
        return;
      }
      if !bridgeAccepts {
        r := Retry(claim, now, [ObserverBridgeUnavailable]);
        return;
      }
      sent := Some(RefOf(transcript.value));
      r := Complete(claim, now, Ready, RunSucceeded, [], sent, answer.proof);
    }

    /** The end of run_once: whatever _record_outcome raises becomes a retry. */
    method Finish(claim: Job, o: PipelineOutcome, bridgeAccepts: bool, answer: ProofAnswer, now: int, later: int)
      returns (r: Option<RunStatus>, sent: Option<Ref>)
      requires repository.Valid()
      modifies repository`jobs
      ensures repository.Valid()
      ensures sent == Published(claim, o, bridgeAccepts, answer)
      ensures (repository.Snapshot(), r) ==
              Record(old(repository.Snapshot()), claim, worker, now, later, delay, Decide(claim, o, bridgeAccepts, answer))
    {
      r, sent := RecordOutcome(claim, o, bridgeAccepts, answer, now);
      if r.None? {
        r := Retry(claim, later, [MediaRuntimeError]);
      }
    }

    /** run_once. `i`, `n` and `p` are the stages' answers, `resolves` whether the path resolver
        returned, `beats` whether every heartbeat found the lease alive. */
    method RunOnce(site: string, claimedAt: int, duration: int, resolves: bool, beats: bool, i: Inspection, n: Normalization,
                   p: Speech, bridgeAccepts: bool, answer: ProofAnswer, now: int, later: int)
      returns (claim: Option<Job>, r: Option<RunStatus>)
      requires repository.Valid() && delay > 0
      modifies repository`jobs
      ensures repository.Valid()
      ensures var (s1, reply) := MediaQueue.Claim(old(repository.Snapshot()), site, worker, claimedAt, duration);
        && claim == (if reply.Ok? then reply.value else None)
        && (claim.None? ==> r.None? && repository.Snapshot() == s1)
        && (claim.Some? ==>
              var o := OutcomeOf(claim.value.receipt, claim.value.attempt, claim.value.maxAttempts, i, n, p);
              && (repository.Snapshot(), r) == (
                   if !resolves then RetryRun(s1, claim.value, worker, later, delay, [MediaRuntimeError])
                   else if !beats then (s1, Some(RunLeaseLost))
                   else Record(s1, claim.value, worker, now, later, delay, Decide(claim.value, o, bridgeAccepts, answer)))
              && (resolves && o.status == RetryOutcome ==> r in {Some(RunRetry), Some(RunLeaseLost)}))
      ensures claim.Some? ==> r.Some? && claim.value.Key() in repository.jobs && StatusMatches(repository.jobs[claim.value.Key()], r.value)
    {
      ClaimKeepsInv(repository.id, repository.Snapshot(), site, worker, claimedAt, duration);
      var reply := repository.Claim(site, worker, claimedAt, duration);
      if reply.Err? || reply.value.None? {
        return None, None;
      }
      var job := reply.value.value;
      claim := Some(job);
      ghost var s1 := repository.Snapshot();
      assert JobEntry(repository.id, s1, job.Key());
      if !resolves {
        r := Retry(job, later, [MediaRuntimeError]);
        return;
      }
      if !beats {
        return claim, Some(RunLeaseLost);
      }
      var outcome := MediaPipeline.Run(job.receipt, job.attempt, job.maxAttempts, i, n, p);
      ghost var mid := FirstRecord(s1, job, worker, now, delay, Decide(job, outcome.value, bridgeAccepts, answer)).0;
      RecordForward(repository.id, s1, job, worker, now, delay, Decide(job, outcome.value, bridgeAccepts, answer));
      PipelineRetryIsNeverDeadLettered(repository.id, s1, mid, job, worker, now, later, delay, i, n, p, bridgeAccepts, answer);
      ReportMatchesQueue(repository.id, s1, mid, job, worker, now, later, delay, Decide(job, outcome.value, bridgeAccepts, answer));
      var sent;
      r, sent := Finish(job, outcome.value, bridgeAccepts, answer, now, later);
    }
  }
}
