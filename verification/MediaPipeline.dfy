/** MediaPipeline.run: three effectful stages whose answers are parameters, and the decision
    each failure leads to. */
module MediaPipeline {
  import opened Wrappers
  import opened MediaQueue

  datatype PipelineStatus = ReadyOutcome | QuarantinedOutcome | RetryOutcome | DeadLetterOutcome

  datatype Stage = Inspect | Normalize | Transcribe

  /** A stage's idempotency key is the digest of request and stage. */
  datatype StageKey = StageKey(site: string, request: string, identity: string, stage: Stage)

  datatype Inspection = Inspected(status: PipelineStatus, reasons: seq<Reason>) | InspectionRaised
  datatype Normalization = Normalized | NormalizationRejected(code: Reason, retryable: bool) | NormalizationRaised
  datatype Transcript = Transcript(site: string, id: string, evidenceRef: string, modelSha: string)
  datatype Speech = Transcribed(transcript: Transcript) | SpeechRejected(code: Reason, retryable: bool) | SpeechRaised

  datatype PipelineOutcome = PipelineOutcome(
    status: PipelineStatus, reasons: seq<Reason>, keys: seq<StageKey>, transcript: Option<Transcript>)

  function Key(r: UploadReceipt, stage: Stage): StageKey { StageKey(r.site, r.requestId, r.identity, stage) }

  // ---- the three decision functions, as written -------------------------------------------------

  function TerminalStatus(status: PipelineStatus, attempt: int, maxAttempts: int): PipelineStatus {
    if status == RetryOutcome && attempt >= maxAttempts then DeadLetterOutcome else status
  }

  function ExceptionStatus(retryable: bool, attempt: int, maxAttempts: int): PipelineStatus {
    if !retryable then QuarantinedOutcome else if attempt >= maxAttempts then DeadLetterOutcome else RetryOutcome
  }

  function RetryOrDeadLetter(attempt: int, maxAttempts: int): PipelineStatus {
    if attempt >= maxAttempts then DeadLetterOutcome else RetryOutcome
  }

  // ---- what they must add up to ----------------------------------------------------------------

  predicate Passes(audio: bool, i: Inspection, n: Normalization, p: Speech) {
    i.Inspected? && i.status == ReadyOutcome && (audio ==> n.Normalized? && p.Transcribed?)
  }

  /** The first stage that does not pass could pass on another attempt. */
  predicate Transient(audio: bool, i: Inspection, n: Normalization, p: Speech) {
    || i.InspectionRaised?
    || i.status == RetryOutcome
    || (i.status == ReadyOutcome && audio &&
        (n.NormalizationRaised? || (n.NormalizationRejected? && n.retryable) ||
         (n.Normalized? && (p.SpeechRaised? || (p.SpeechRejected? && p.retryable)))))
  }

  /** How many stages are entered. */
  function Entered(audio: bool, i: Inspection, n: Normalization): (k: nat)
    ensures 1 <= k <= 3
  {
    if i.InspectionRaised? || i.status != ReadyOutcome || !audio then 1 else if !n.Normalized? then 2 else 3
  }

  const STAGES: seq<Stage> := [Inspect, Normalize, Transcribe]

  /** What `run` must return, from the stages' answers alone: the first stage that does not pass
      decides. */
  function OutcomeOf(receipt: UploadReceipt, attempt: int, maxAttempts: int, i: Inspection, n: Normalization, p: Speech): PipelineOutcome {
    var audio := receipt.audio;
    var status :=
      if Passes(audio, i, n, p) then ReadyOutcome
      else if Transient(audio, i, n, p) then if attempt < maxAttempts then RetryOutcome else DeadLetterOutcome
      else if i.Inspected? && i.status == DeadLetterOutcome then DeadLetterOutcome
      else QuarantinedOutcome;
    PipelineOutcome(status, ReasonsOf(audio, i, n, p), seq(Entered(audio, i, n), s requires 0 <= s < 3 => Key(receipt, STAGES[s])),
                    if audio && Passes(audio, i, n, p) then Some(p.transcript) else None)
  }

  /** The reasons of the first stage that does not pass. */
  function ReasonsOf(audio: bool, i: Inspection, n: Normalization, p: Speech): seq<Reason> {
    if i.InspectionRaised? then [PreprocessorError]
    else if i.status != ReadyOutcome then i.reasons
    else if !audio then []
    else if n.NormalizationRaised? then [NormalizerError]
    else if n.NormalizationRejected? then [n.code]
    else if p.SpeechRaised? then [SpeechProviderError]
    else if p.SpeechRejected? then [p.code]
    else []
  }

  /** A retry is only decided on with an attempt left, a dead letter only by the last attempt or by
      the inspection itself. */
  lemma RetriesHaveAttemptsLeft(receipt: UploadReceipt, attempt: int, maxAttempts: int, i: Inspection, n: Normalization, p: Speech)
    ensures var o := OutcomeOf(receipt, attempt, maxAttempts, i, n, p);
      && (o.status == RetryOutcome ==> attempt < maxAttempts)
      && (o.status == DeadLetterOutcome ==> attempt >= maxAttempts || (i.Inspected? && i.status == DeadLetterOutcome))
  {
  }

  method Run(receipt: UploadReceipt, attempt: int, maxAttempts: int, i: Inspection, n: Normalization, p: Speech)
    returns (r: Result<PipelineOutcome, Error>)
    ensures r.Err? <==> !(1 <= attempt <= maxAttempts)
    ensures r.Ok? ==> r.value == OutcomeOf(receipt, attempt, maxAttempts, i, n, p)
    ensures r.Ok? ==>
      && (r.value.status == ReadyOutcome <==> Passes(receipt.audio, i, n, p))
      && (r.value.status == RetryOutcome <==> Transient(receipt.audio, i, n, p) && attempt < maxAttempts)
      && (r.value.status == DeadLetterOutcome <==>
            (Transient(receipt.audio, i, n, p) && attempt == maxAttempts) || (i.Inspected? && i.status == DeadLetterOutcome))
      && r.value.transcript == (if receipt.audio && Passes(true, i, n, p) then Some(p.transcript) else None)
      && |r.value.keys| == Entered(receipt.audio, i, n)
      && forall s :: 0 <= s < |r.value.keys| ==> r.value.keys[s] == Key(receipt, STAGES[s])
  {
    if !(1 <= attempt <= maxAttempts) {
      return Err(Invalid);
    }
    var keys := [Key(receipt, Inspect)];
    if i.InspectionRaised? {
      return Ok(PipelineOutcome(RetryOrDeadLetter(attempt, maxAttempts), [PreprocessorError], keys, None));
    }
    if i.status != ReadyOutcome {
      return Ok(PipelineOutcome(TerminalStatus(i.status, attempt, maxAttempts), i.reasons, keys, None));
    }
    if !receipt.audio {
      return Ok(PipelineOutcome(ReadyOutcome, [], keys, None));
    }
    keys := keys + [Key(receipt, Normalize)];
    match n {
      case NormalizationRejected(code, retryable) =>
        return Ok(PipelineOutcome(ExceptionStatus(retryable, attempt, maxAttempts), [code], keys, None));
      case NormalizationRaised =>
        return Ok(PipelineOutcome(RetryOrDeadLetter(attempt, maxAttempts), [NormalizerError], keys, None));
      case Normalized =>
    }
    keys := keys + [Key(receipt, Transcribe)];
    match p {
      case SpeechRejected(code, retryable) =>
        return Ok(PipelineOutcome(ExceptionStatus(retryable, attempt, maxAttempts), [code], keys, None));
      case SpeechRaised =>
        return Ok(PipelineOutcome(RetryOrDeadLetter(attempt, maxAttempts), [SpeechProviderError], keys, None));
      case Transcribed(t) =>
        return Ok(PipelineOutcome(ReadyOutcome, [], keys, Some(t)));
    }
  }
}
