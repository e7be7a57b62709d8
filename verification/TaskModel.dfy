/** Entities of the agent task queue. Datetimes are microseconds since an epoch; a SHA-256
    digest is the document it hashes, so equal digests mean equal documents. */
module TaskModel {
  import opened Wrappers
  import opened Ordering

  datatype TaskStatus = Queued | Leased | Running | Recheck | Succeeded | Failed | DeadLetter | Cancelled

  datatype FailureClassification =
    | BudgetExhausted | PolicyDenied | ToolFailure | InvalidOutput | Dependency | Internal

  datatype Error = ValidationError | IdempotencyConflict | LeaseConflict | TaskNotFound

  datatype TaskKey = TaskKey(site: string, task: string)
  datatype IdemKey = IdemKey(site: string, key: string)
  datatype AttemptKey = AttemptKey(site: string, task: string, attempt: int)
  datatype InvocationKey = InvocationKey(site: string, invocation: string)

  /** Literal values of the source's string-typed fields. */
  datatype ActionType = AiDraftPropose | WorkItemPropose | ReviewCasePropose | WorkItemTransitionPropose | OtherAction(name: string)
  datatype ProposalStatus = Proposed | OtherStatus(name: string)
  datatype Origin = AI | OtherOrigin(name: string)
  datatype ReviewStatus = AIDraft | Pending | OtherReview(name: string)
  datatype OutboxStatus = PendingRow | RunningRow | SucceededRow | RetryRow | DeadLetterRow
  datatype DeadLetterReason = LeaseExpiredMaxAttempts | MaxAttemptsExhausted

  /** What parsing a stored payload yields; the codec itself is module PayloadCodec. */
  datatype StoredPayload = Parses(refs: string) | DoesNotParse(raw: string)

  /** The idempotency document of a submission. It leaves the task id out. */
  datatype SubmissionDigest = SubmissionDigest(
    site: string, purpose: string, key: string, agentType: string, subjectType: string,
    subjectRef: string, dueAt: int, priority: int, maxAttempts: int, causation: string,
    correlation: string, parent: Option<string>, payload: StoredPayload)

  datatype Submission = Submission(taskId: string, content: SubmissionDigest) {
    /** What the submission's constructor enforces. */
    predicate Valid() {
      && taskId != "" && content.site != "" && content.purpose != "" && content.key != ""
      && content.agentType != "" && content.subjectType != "" && content.subjectRef != ""
      && content.causation != "" && content.correlation != ""
      && 0 <= content.priority <= 100
      && 1 <= content.maxAttempts <= 100
      && content.parent != Some(taskId)
    }
  }

  /** Task metadata. `content` holds the fields no transition changes. */
  datatype Task = Task(
    taskId: string, content: SubmissionDigest, status: TaskStatus, dueAt: int, attempt: int,
    outputs: seq<string>, failure: Option<FailureClassification>, leaseOwner: Option<string>,
    leaseExpiresAt: Option<int>, createdAt: int, updatedAt: int)
  {
    function Key(): TaskKey { TaskKey(content.site, taskId) }
    function Idem(): IdemKey { IdemKey(content.site, content.key) }
    predicate Holding() { status == Leased || status == Running }
    predicate Terminal() { status == Succeeded || status == DeadLetter }
    predicate Expired(now: int) { Holding() && leaseExpiresAt.Some? && leaseExpiresAt.value <= now }
  }

  datatype EventType = Created | LeasedEvent | RunningEvent | RecheckScheduled | SucceededEvent | DeadLettered
  datatype ActorType = System | Worker

  datatype Event = Event(
    taskId: string, site: string, sequence: nat, kind: EventType, occurredAt: int,
    actorType: ActorType, actorRef: Option<string>, causation: string, correlation: string)

  datatype DeadLetterRecord = DeadLetterRecord(
    taskId: string, site: string, attempts: int, classification: FailureClassification,
    reason: DeadLetterReason, at: int, causation: string, correlation: string)

  datatype Invocation = Invocation(
    id: string, site: string, requestId: string, key: string, evidenceRefs: seq<string>,
    externalSends: int, toolCalls: int, requestedModel: string, observedModel: Option<string>, metadata: string)
  {
    function Key(): InvocationKey { InvocationKey(site, id) }
    function Idem(): InvocationKey { InvocationKey(site, key) }
  }

  datatype Doctype = WorkItem | ReviewCase | InformalObservation | OtherDoctype(name: string)

  /** The payload of a proposal document. A text that is missing is None. */
  datatype DraftPayload =
    | NoPayload
    | TransitionPayload(target: Doctype, targetRef: string, fromStatus: ReviewStatus, toStatus: ReviewStatus)
    | TextPayload(title: Option<string>, summary: Option<string>, officialMetric: Option<bool>)

  /** The document's policy_version member, which nothing checks when the proposal is stored. */
  datatype PolicyVersion = NoPolicy | PolicyText(text: string) | PolicyNotText

  /** The proposal document an agent returns. `shaped` is false when a member has the wrong
      JSON type, `safe` is false when the content scan finds forbidden content. */
  datatype ProposalDocument = ProposalDocument(
    site: string, targetRef: string, status: ProposalStatus, actionType: ActionType, proposalId: string,
    payload: DraftPayload, payloadDigest: DraftPayload, policy: PolicyVersion, evidenceRefs: seq<string>,
    factRefs: seq<(string, int)>, createdAt: int, targetRevision: int, shaped: bool, safe: bool)

  datatype ExecutionResult = ExecutionResult(document: ProposalDocument, invocations: seq<Invocation>)

  /** The bundle document hashed into the bundle digest. */
  datatype BundleDigest = BundleDigest(
    taskId: string, attempt: int, document: ProposalDocument, invocations: seq<Invocation>)

  datatype Proposal = Proposal(
    proposalId: string, site: string, taskId: string, taskAttempt: int, actionType: ActionType,
    subjectType: string, subjectRef: string, subjectRevision: int, evidenceRefs: seq<string>,
    factRefs: seq<(string, int)>, invocationIds: seq<string>, bundle: BundleDigest, createdAt: int)
  {
    function Key(): AttemptKey { AttemptKey(site, taskId, taskAttempt) }
  }

  datatype OutboxRecord = OutboxRecord(
    proposalId: string, site: string, taskId: string, taskAttempt: int, status: OutboxStatus,
    origin: Origin, reviewStatus: ReviewStatus, createdAt: int, attempt: int, maxAttempts: int)

  predicate Distinct<T(==)>(xs: seq<T>) {
    forall i, j :: 0 <= i < j < |xs| ==> xs[i] != xs[j]
  }

  function InvocationIds(xs: seq<Invocation>): seq<string> {
    seq(|xs|, i requires 0 <= i < |xs| => xs[i].id)
  }

  /** Priority order of the queue: higher priority, then earlier due, created, task id. */
  predicate Before(a: Task, b: Task) {
    if a.content.priority != b.content.priority then a.content.priority > b.content.priority
    else if a.dueAt != b.dueAt then a.dueAt < b.dueAt
    else if a.createdAt != b.createdAt then a.createdAt < b.createdAt
    else StrLe(a.taskId, b.taskId)
  }

  lemma BeforeIsTotalOrder(a: Task, b: Task, c: Task)
    ensures Before(a, a)
    ensures Before(a, b) || Before(b, a)
    ensures Before(a, b) && Before(b, c) ==> Before(a, c)
    ensures Before(a, b) && Before(b, a) ==> a.taskId == b.taskId
  {
    StrLeReflexive(a.taskId);
    StrLeTotal(a.taskId, b.taskId);
    if StrLe(a.taskId, b.taskId) && StrLe(b.taskId, c.taskId) {
      StrLeTransitive(a.taskId, b.taskId, c.taskId);
    }
    if StrLe(a.taskId, b.taskId) && StrLe(b.taskId, a.taskId) {
      StrLeAntisymmetric(a.taskId, b.taskId);
    }
  }
}
