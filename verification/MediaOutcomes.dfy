/** What a claimed media job becomes, from the answers of the three stages, the bridge and the proof
    provider alone. */
module MediaOutcomes {
  import opened Wrappers
  import opened MediaQueue
  import opened MediaPipeline
  import opened MediaWorker
  import opened MediaEffects

  /** Tried again at `retryAt`, or a dead letter after the last attempt. */
  predicate Rescheduled(j: Job, claim: Job, reasons: seq<Reason>, retryAt: int) {
    && j.reasons == reasons
    && (if claim.attempt < claim.maxAttempts then j.status == Retry && j.dueAt == retryAt else j.status == DeadLetter)
  }

  predicate Rejected(j: Job, claim: Job, code: Reason, retryable: bool, retryAt: int) {
    if retryable then Rescheduled(j, claim, [code], retryAt) else j.status == Quarantined && j.reasons == [code]
  }

  /** Ready, with the reference the bridge accepted, or tried again when it is unavailable. */
  predicate Delivered(j: Job, claim: Job, ref: Ref, proof: Option<Proof>, accepts: bool, retryAt: int) {
    if accepts then j.status == Ready && j.reasons == [] && j.ref == Some(ref) && j.proof == proof
    else Rescheduled(j, claim, [ObserverBridgeUnavailable], retryAt)
  }

  /** The transcript is about this job's evidence. */
  predicate About(t: Transcript, claim: Job) { t.site == claim.receipt.site && t.evidenceRef == claim.receipt.evidenceRef }

  predicate TranscribedTo(j: Job, claim: Job, t: Transcript, accepts: bool, answer: ProofAnswer, retryAt: int) {
    if !About(t, claim) then j.status == Quarantined && j.reasons == [TranscriptProofInvalid]
    else if answer.ProofRaises? || answer.proof.None? || answer.proof.value.modelSha != t.modelSha then
      j.status == Quarantined && j.reasons == [RuntimeArtifactProofMissing]
    else Delivered(j, claim, TranscriptRef(t.site, t.id, t.evidenceRef, t.modelSha), answer.proof, accepts, retryAt)
  }

  predicate AudioTo(j: Job, claim: Job, n: Normalization, p: Speech, accepts: bool, answer: ProofAnswer, retryAt: int) {
    match n
    case NormalizationRaised => Rescheduled(j, claim, [NormalizerError], retryAt)
    case NormalizationRejected(code, retryable) => Rejected(j, claim, code, retryable, retryAt)
    case Normalized =>
      match p
      case SpeechRaised => Rescheduled(j, claim, [SpeechProviderError], retryAt)
      case SpeechRejected(code, retryable) => Rejected(j, claim, code, retryable, retryAt)
      case Transcribed(t) => TranscribedTo(j, claim, t, accepts, answer, retryAt)
  }

  predicate Becomes(j: Job, claim: Job, i: Inspection, n: Normalization, p: Speech, accepts: bool, answer: ProofAnswer, retryAt: int) {
    match i
    case InspectionRaised => Rescheduled(j, claim, [PreprocessorError], retryAt)
    case Inspected(status, reasons) =>
      match status
      case QuarantinedOutcome => j.status == Quarantined && j.reasons == reasons
      case DeadLetterOutcome => j.status == DeadLetter && j.reasons == reasons
      case RetryOutcome =>
        Rescheduled(j, claim, if reasons == [] && claim.attempt < claim.maxAttempts then [PipelineRetry] else reasons, retryAt)
      case ReadyOutcome =>
        if claim.receipt.audio then AudioTo(j, claim, n, p, accepts, answer, retryAt)
        else Delivered(j, claim, ManifestRef(claim.receipt.site, claim.receipt.evidenceRef, claim.receipt.identity), None, accepts, retryAt)
  }

  /** Recording raises when a stage's own reason codes are refused, or the proof provider raises. */
  predicate RecordingRaises(claim: Job, i: Inspection, n: Normalization, p: Speech, answer: ProofAnswer) {
    && i.Inspected?
    && if i.status != ReadyOutcome then !ValidReasons(i.reasons)
       else
         && claim.receipt.audio
         && match n
            case NormalizationRaised => false
            case NormalizationRejected(code, _) => !WellFormed(code)
            case Normalized =>
              (p.SpeechRejected? && !WellFormed(p.code)) || (p.Transcribed? && About(p.transcript, claim) && answer.ProofRaises?)
  }

  /** The decision on a claim, as `_record_outcome` gets it from the pipeline. */
  function Decided(claim: Job, i: Inspection, n: Normalization, p: Speech, accepts: bool, answer: ProofAnswer): Decision {
    Decide(claim, OutcomeOf(claim.receipt, claim.attempt, claim.maxAttempts, i, n, p), accepts, answer)
  }

  lemma OneReason(r: Reason)
    ensures ValidReasons([r]) <==> WellFormed(r)
  {
    if ValidReasons([r]) { assert WellFormed([r][0]); }
  }

  lemma AllReasonsKnown()
    ensures ValidReasons([]) && ValidReasons([PreprocessorError]) && ValidReasons([NormalizerError]) && ValidReasons([SpeechProviderError])
    ensures ValidReasons([ObserverBridgeUnavailable]) && ValidReasons([PipelineRetry]) && ValidReasons([MediaRuntimeError])
    ensures ValidReasons([TranscriptProofInvalid]) && ValidReasons([RuntimeArtifactProofMissing])
  {
  }

  /** The decision cannot be recorded. */
  predicate Unrecordable(d: Decision) {
    match d
    case DecideRetry(reasons) => !ValidReasons(reasons)
    case DecideComplete(_, reasons, _, _) => !ValidReasons(reasons)
    case DecideRaise => true
  }

  /** What recording a decision leaves of the job. */
  predicate Written(j: Job, claim: Job, d: Decision, retryAt: int) {
    match d
    case DecideRetry(reasons) => Rescheduled(j, claim, reasons, retryAt)
    case DecideComplete(status, reasons, ref, proof) => j.status == status && j.reasons == reasons && j.ref == ref && j.proof == proof
    case DecideRaise => false
  }

  lemma FirstRecordWrites(id: IdDigest, s: State, claim: Job, worker: string, now: int, delay: int, d: Decision)
    requires Inv(id, s) && Handed(s, claim) && Holds(s, claim.Key(), worker, claim.token, now) && delay > 0
    requires d.DecideComplete? ==> d.status in {Ready, Quarantined, DeadLetter}
    ensures var (s', r) := FirstRecord(s, claim, worker, now, delay, d);
      && (r.None? <==> Unrecordable(d))
      && (if r.None? then s' == s else claim.Key() in s'.jobs && Written(s'.jobs[claim.Key()], claim, d, now + delay))
  {
    assert JobEntry(id, s, claim.Key());
  }

  lemma FailureReasons(n: Normalization, p: Speech)
    ensures n.NormalizationRejected? ==> (ValidReasons([n.code]) <==> WellFormed(n.code))
    ensures p.SpeechRejected? ==> (ValidReasons([p.code]) <==> WellFormed(p.code))
  {
    if n.NormalizationRejected? { OneReason(n.code); }
    if p.SpeechRejected? { OneReason(p.code); }
  }

  lemma InspectedDecision(claim: Job, i: Inspection, n: Normalization, p: Speech, accepts: bool, answer: ProofAnswer)
    requires i.InspectionRaised? || i.status != ReadyOutcome || !claim.receipt.audio
    ensures var d := Decided(claim, i, n, p, accepts, answer);
      && (d.DecideComplete? ==> d.status in {Ready, Quarantined, DeadLetter})
      && (Unrecordable(d) <==> RecordingRaises(claim, i, n, p, answer))
      && forall j, retryAt :: Written(j, claim, d, retryAt) ==> Becomes(j, claim, i, n, p, accepts, answer, retryAt)
  {
    AllReasonsKnown();
  }

  lemma AudioDecision(claim: Job, i: Inspection, n: Normalization, p: Speech, accepts: bool, answer: ProofAnswer)
    requires i.Inspected? && i.status == ReadyOutcome && claim.receipt.audio
    ensures var d := Decided(claim, i, n, p, accepts, answer);
      && (d.DecideComplete? ==> d.status in {Ready, Quarantined, DeadLetter})
      && (Unrecordable(d) <==> RecordingRaises(claim, i, n, p, answer))
      && forall j, retryAt :: Written(j, claim, d, retryAt) ==> Becomes(j, claim, i, n, p, accepts, answer, retryAt)
  {
    AllReasonsKnown();
    FailureReasons(n, p);
  }

  /** The first recording of a live claim raises and writes nothing exactly when RecordingRaises says so,
      and otherwise the job becomes what the stages say. */
  lemma FirstRecordBecomes(id: IdDigest, s: State, claim: Job, worker: string, now: int, delay: int,
                           i: Inspection, n: Normalization, p: Speech, accepts: bool, answer: ProofAnswer)
    requires Inv(id, s) && Handed(s, claim) && Holds(s, claim.Key(), worker, claim.token, now) && delay > 0
    ensures var (s', r) := FirstRecord(s, claim, worker, now, delay, Decided(claim, i, n, p, accepts, answer));
      && (r.None? <==> RecordingRaises(claim, i, n, p, answer))
      && (if r.None? then s' == s
          else claim.Key() in s'.jobs && Becomes(s'.jobs[claim.Key()], claim, i, n, p, accepts, answer, now + delay))
  {
    if i.InspectionRaised? || i.status != ReadyOutcome || !claim.receipt.audio {
      InspectedDecision(claim, i, n, p, accepts, answer);
    } else {
      AudioDecision(claim, i, n, p, accepts, answer);
    }
    FirstRecordWrites(id, s, claim, worker, now, delay, Decided(claim, i, n, p, accepts, answer));
  }

  /** What a live claim's job has become at the end of the run: what the stages say, or, when recording
      that raises, tried again because of a runtime error. */
  lemma JobBecomes(id: IdDigest, s: State, claim: Job, worker: string, now: int, later: int, delay: int,
                   i: Inspection, n: Normalization, p: Speech, accepts: bool, answer: ProofAnswer)
    requires Inv(id, s) && Handed(s, claim) && delay > 0
    requires Holds(s, claim.Key(), worker, claim.token, now) && Holds(s, claim.Key(), worker, claim.token, later)
    ensures var s' := Record(s, claim, worker, now, later, delay, Decided(claim, i, n, p, accepts, answer)).0;
      && claim.Key() in s'.jobs
      && if RecordingRaises(claim, i, n, p, answer) then Rescheduled(s'.jobs[claim.Key()], claim, [MediaRuntimeError], later + delay)
         else Becomes(s'.jobs[claim.Key()], claim, i, n, p, accepts, answer, now + delay)
  {
    assert JobEntry(id, s, claim.Key());
    FirstRecordBecomes(id, s, claim, worker, now, delay, i, n, p, accepts, answer);
    RetryEffect(s, claim.Key(), worker, claim.token, later, later + delay, [MediaRuntimeError]);
  }

  /** In particular a job becomes ready exactly when every stage it needs passed, the bridge accepted, and
      an audio transcript is about its evidence and proved to come from the model that made it. */
  lemma ReadyIff(id: IdDigest, s: State, claim: Job, worker: string, now: int, later: int, delay: int,
                 i: Inspection, n: Normalization, p: Speech, accepts: bool, answer: ProofAnswer)
    requires Inv(id, s) && Handed(s, claim) && delay > 0
    requires Holds(s, claim.Key(), worker, claim.token, now) && Holds(s, claim.Key(), worker, claim.token, later)
    ensures var s' := Record(s, claim, worker, now, later, delay, Decided(claim, i, n, p, accepts, answer)).0;
      && claim.Key() in s'.jobs
      && (s'.jobs[claim.Key()].status == Ready <==>
            && i.Inspected? && i.status == ReadyOutcome && accepts
            && (claim.receipt.audio ==>
                  && n.Normalized? && p.Transcribed? && About(p.transcript, claim)
                  && answer.ProofGiven? && answer.proof.Some? && answer.proof.value.modelSha == p.transcript.modelSha))
  {
    JobBecomes(id, s, claim, worker, now, later, delay, i, n, p, accepts, answer);
  }
}
