/** The repository's operations as functions on its whole state. The class in TaskRepository
    is proved against these; the whole-run theorems are about these. */
module TaskSpec {
  import opened Wrappers
  import opened TaskModel

  datatype State = State(
    tasks: map<TaskKey, Task>,
    payloads: map<TaskKey, StoredPayload>,
    timeline: map<TaskKey, seq<Event>>,
    idempotency: map<IdemKey, Task>,
    deadLetters: map<TaskKey, DeadLetterRecord>,
    proposals: map<AttemptKey, Proposal>,
    proposalIdempotency: map<AttemptKey, Proposal>,
    outbox: map<AttemptKey, OutboxRecord>,
    invocations: map<InvocationKey, Invocation>,
    invocationIdempotency: map<InvocationKey, Invocation>)

  const EMPTY: State := State(map[], map[], map[], map[], map[], map[], map[], map[], map[], map[])

  datatype Reply = TaskReply(task: Task) | ClaimReply(claimed: Task, refs: string) | NoTask | Rejected(error: Error)

  // ---- building blocks -------------------------------------------------------------------

  function EventsOf(s: State, k: TaskKey): seq<Event> {
    if k in s.timeline then s.timeline[k] else []
  }

  function Store(s: State, t: Task): State {
    s.(tasks := s.tasks[t.Key() := t], idempotency := s.idempotency[t.Idem() := t])
  }

  function MakeEvent(t: Task, sequence: nat, kind: EventType, now: int, actor: Option<string>): Event {
    Event(t.taskId, t.content.site, sequence, kind, now, if actor.Some? then Worker else System,
          actor, t.content.causation, t.content.correlation)
  }

  function Log(s: State, t: Task, kind: EventType, now: int, actor: Option<string>): State {
    var events := EventsOf(s, t.Key());
    s.(timeline := s.timeline[t.Key() := events + [MakeEvent(t, |events|, kind, now, actor)]])
  }

  function Release(t: Task, status: TaskStatus, now: int): Task {
    t.(status := status, leaseOwner := None, leaseExpiresAt := None, updatedAt := now)
  }

  function Dead(t: Task, now: int, c: FailureClassification): Task {
    Release(t, DeadLetter, now).(failure := Some(c))
  }

  function DeadRecord(t: Task, now: int, c: FailureClassification, reason: DeadLetterReason): DeadLetterRecord {
    DeadLetterRecord(t.taskId, t.content.site, t.attempt, c, reason, now,
                     t.content.causation, t.content.correlation)
  }

  function MoveToDeadLetter(s: State, t: Task, now: int, c: FailureClassification, reason: DeadLetterReason,
                            actor: Option<string>): State {
    var dead := Dead(t, now, c);
    var s1 := Store(s, dead);
    Log(s1.(deadLetters := s1.deadLetters[t.Key() := DeadRecord(t, now, c, reason)]),
        dead, DeadLettered, now, actor)
  }

  // ---- enqueue ---------------------------------------------------------------------------

  function FreshTask(sub: Submission, now: int): Task {
    Task(sub.taskId, sub.content, Queued, sub.content.dueAt, 0, [], None, None, None, now, now)
  }

  function Enqueue(s: State, sub: Submission, now: int): (State, Reply) {
    var ik := IdemKey(sub.content.site, sub.content.key);
    var k := TaskKey(sub.content.site, sub.taskId);
    if ik in s.idempotency then
      if s.idempotency[ik].content != sub.content then (s, Rejected(IdempotencyConflict))
      else (s, TaskReply(s.idempotency[ik]))
    else if sub.content.parent.Some? && TaskKey(sub.content.site, sub.content.parent.value) !in s.tasks then
      (s, Rejected(ValidationError))
    else if k in s.tasks then (s, Rejected(ValidationError))
    else
      var t := FreshTask(sub, now);
      var s1 := Store(s, t);
      (s1.(payloads := s1.payloads[k := sub.content.payload],
           timeline := s1.timeline[k := [MakeEvent(t, 0, Created, now, None)]]),
       TaskReply(t))
  }

  // ---- claim -----------------------------------------------------------------------------

  predicate Exhausted(t: Task, site: string, now: int) {
    t.content.site == site && t.Expired(now) && t.attempt >= t.content.maxAttempts
  }

  function ReapTask(t: Task, site: string, now: int): Task {
    if Exhausted(t, site, now) then Dead(t, now, Internal) else t
  }

  function ReapLog(log: seq<Event>, t: Task, site: string, now: int): seq<Event> {
    if Exhausted(t, site, now) then log + [MakeEvent(t, |log|, DeadLettered, now, None)] else log
  }

  function ReapTasks(tasks: map<TaskKey, Task>, site: string, now: int): map<TaskKey, Task> {
    map k | k in tasks :: ReapTask(tasks[k], site, now)
  }

  function ReapDead(s: State, site: string, now: int): map<TaskKey, DeadLetterRecord> {
    s.deadLetters + map k | k in s.tasks && Exhausted(s.tasks[k], site, now) ::
                      DeadRecord(s.tasks[k], now, Internal, LeaseExpiredMaxAttempts)
  }

  /** Every exhausted lease of the site dies at once; nothing else moves. */
  function Reap(s: State, site: string, now: int): State {
    s.(tasks := ReapTasks(s.tasks, site, now),
       idempotency := map i | i in s.idempotency :: ReapTask(s.idempotency[i], site, now),
       timeline := map k | k in s.timeline ::
         if k in s.tasks then ReapLog(s.timeline[k], s.tasks[k], site, now) else s.timeline[k],
       deadLetters := ReapDead(s, site, now))
  }

  predicate Eligible(t: Task, site: string, now: int) {
    && t.content.site == site
    && (((t.status == Queued || t.status == Recheck) && t.dueAt <= now) || t.Expired(now))
  }

  function Candidates(tasks: map<TaskKey, Task>, site: string, now: int): set<TaskKey> {
    set k | k in tasks && Eligible(tasks[k], site, now)
  }

  ghost predicate IsLeast(tasks: map<TaskKey, Task>, ks: set<TaskKey>, k: TaskKey) {
    k in ks && k in tasks && forall c :: c in ks && c in tasks ==> Before(tasks[k], tasks[c])
  }

  lemma {:induction false} LeastExists(tasks: map<TaskKey, Task>, ks: set<TaskKey>)
    requires ks != {} && ks <= tasks.Keys
    ensures exists k :: IsLeast(tasks, ks, k)
    decreases |ks|
  {
    var x :| x in ks;
    var rest := ks - {x};
    if rest == {} {
      BeforeIsTotalOrder(tasks[x], tasks[x], tasks[x]);
      assert ks == {x};
      assert IsLeast(tasks, ks, x);
    } else {
      LeastExists(tasks, rest);
      var m :| IsLeast(tasks, rest, m);
      var best := if Before(tasks[x], tasks[m]) then x else m;
      forall c | c in ks ensures Before(tasks[best], tasks[c]) {
        BeforeIsTotalOrder(tasks[x], tasks[m], tasks[c]);
        BeforeIsTotalOrder(tasks[x], tasks[x], tasks[x]);
      }
      assert IsLeast(tasks, ks, best);
    }
  }

  ghost function Least(tasks: map<TaskKey, Task>, ks: set<TaskKey>): (k: TaskKey)
    requires ks != {} && ks <= tasks.Keys
    ensures IsLeast(tasks, ks, k)
  {
    LeastExists(tasks, ks);
    var k :| IsLeast(tasks, ks, k);
    k
  }

  function Granted(t: Task, status: TaskStatus, worker: string, now: int, duration: int): Task {
    t.(status := status, attempt := t.attempt + 1, leaseOwner := Some(worker),
       leaseExpiresAt := Some(now + duration), updatedAt := now)
  }

  /** Lease one task: the new version, its index entry and one or two events. */
  function Grant(s: State, t: Task, status: TaskStatus, worker: string, now: int, duration: int): State {
    var g := Granted(t, status, worker, now, duration);
    var s1 := Log(Store(s, g), g, LeasedEvent, now, Some(worker));
    if status == Running then Log(s1, g, RunningEvent, now, Some(worker)) else s1
  }

  ghost function Claim(s: State, site: string, worker: string, now: int, duration: int): (State, Reply) {
    if worker == "" || duration <= 0 then (s, Rejected(ValidationError))
    else
      var r := Reap(s, site, now);
      var ks := Candidates(r.tasks, site, now);
      if ks == {} then (r, NoTask)
      else
        var t := r.tasks[Least(r.tasks, ks)];
        (Grant(r, t, Leased, worker, now, duration), TaskReply(Granted(t, Leased, worker, now, duration)))
  }

  ghost function ClaimForExecution(s: State, site: string, worker: string, now: int, duration: int): (State, Reply) {
    if worker == "" || duration <= 0 then (s, Rejected(ValidationError))
    else
      var r := Reap(s, site, now);
      var ks := Candidates(r.tasks, site, now);
      if ks == {} then (r, NoTask)
      else
        var k := Least(r.tasks, ks);
        if k !in r.payloads || r.payloads[k].DoesNotParse? then (r, Rejected(ValidationError))
        else (Grant(r, r.tasks[k], Running, worker, now, duration),
              ClaimReply(Granted(r.tasks[k], Running, worker, now, duration), r.payloads[k].refs))
  }

  // ---- lease-guarded transitions ---------------------------------------------------------

  predicate LiveLease(t: Task, worker: string, attempt: int, now: int) {
    && t.Holding() && t.leaseOwner == Some(worker)
    && t.leaseExpiresAt.Some? && t.leaseExpiresAt.value > now
    && t.attempt == attempt
  }

  function RequireLiveLease(s: State, k: TaskKey, worker: string, attempt: int, now: int): Result<Task, Error> {
    if k !in s.tasks then Err(TaskNotFound)
    else if !LiveLease(s.tasks[k], worker, attempt, now) then Err(LeaseConflict)
    else Ok(s.tasks[k])
  }

  function Start(s: State, k: TaskKey, worker: string, attempt: int, now: int): (State, Reply) {
    match RequireLiveLease(s, k, worker, attempt, now)
    case Err(e) => (s, Rejected(e))
    case Ok(t) =>
      if t.status != Leased then (s, Rejected(LeaseConflict))
      else
        var r := t.(status := Running, updatedAt := now);
        (Log(Store(s, r), r, RunningEvent, now, Some(worker)), TaskReply(r))
  }

  function Heartbeat(s: State, k: TaskKey, worker: string, attempt: int, now: int, duration: int): (State, Reply) {
    if duration <= 0 then (s, Rejected(ValidationError))
    else match RequireLiveLease(s, k, worker, attempt, now)
      case Err(e) => (s, Rejected(e))
      case Ok(t) =>
        var r := t.(leaseExpiresAt := Some(now + duration), updatedAt := now);
        (Store(s, r), TaskReply(r))
  }

  function Succeed(s: State, k: TaskKey, worker: string, attempt: int, now: int, outputs: seq<string>): (State, Reply) {
    if !Distinct(outputs) then (s, Rejected(ValidationError))
    else match RequireLiveLease(s, k, worker, attempt, now)
      case Err(e) => (s, Rejected(e))
      case Ok(t) =>
        var r := Release(t, Succeeded, now).(outputs := outputs);
        (Log(Store(s, r), r, SucceededEvent, now, Some(worker)), TaskReply(r))
  }

  function Fail(s: State, k: TaskKey, worker: string, attempt: int, now: int, retryAt: int,
                c: FailureClassification): (State, Reply) {
    if retryAt <= now then (s, Rejected(ValidationError))
    else match RequireLiveLease(s, k, worker, attempt, now)
      case Err(e) => (s, Rejected(e))
      case Ok(t) =>
        if t.attempt >= t.content.maxAttempts then
          (MoveToDeadLetter(s, t, now, c, MaxAttemptsExhausted, Some(worker)), TaskReply(Dead(t, now, c)))
        else
          var r := Release(t, Recheck, now).(dueAt := retryAt, failure := Some(c));
          (Log(Store(s, r), r, RecheckScheduled, now, Some(worker)), TaskReply(r))
  }

  // ---- completion ------------------------------------------------------------------------

  function FromExecution(t: Task, result: ExecutionResult): Result<Proposal, Error> {
    var d := result.document;
    if d.site != t.content.site || d.targetRef != t.content.subjectRef || d.status != Proposed then Err(ValidationError)
    else if !d.shaped || d.payload.NoPayload? || d.payload != d.payloadDigest then Err(ValidationError)
    else if d.actionType.OtherAction? || t.attempt < 1 || d.targetRevision < 0 then Err(ValidationError)
    else if d.evidenceRefs == [] || !Distinct(d.evidenceRefs) then Err(ValidationError)
    else if !Distinct(InvocationIds(result.invocations)) || !d.safe then Err(ValidationError)
    else Ok(Proposal(d.proposalId, t.content.site, t.taskId, t.attempt, d.actionType,
                     t.content.subjectType, t.content.subjectRef, d.targetRevision, d.evidenceRefs,
                     d.factRefs, InvocationIds(result.invocations),
                     BundleDigest(t.taskId, t.attempt, d, result.invocations), d.createdAt))
  }

  function FromProposal(p: Proposal, now: int): OutboxRecord {
    OutboxRecord(p.proposalId, p.site, p.taskId, p.taskAttempt, PendingRow, AI, AIDraft, now, 0, 5)
  }

  predicate Bound(t: Task, p: Proposal, r: Invocation) {
    && r.site == t.content.site && r.requestId == t.taskId && r.evidenceRefs == p.evidenceRefs
    && r.externalSends == 0 && r.toolCalls == 0
  }

  function AppendInvocation(s: State, t: Task, p: Proposal, r: Invocation): Result<State, Error> {
    if !Bound(t, p, r) then Err(ValidationError)
    else if r.Idem() in s.invocationIdempotency then
      if s.invocationIdempotency[r.Idem()] != r then Err(IdempotencyConflict) else Ok(s)
    else if r.Key() in s.invocations then Err(IdempotencyConflict)
    else Ok(s.(invocations := s.invocations[r.Key() := r],
               invocationIdempotency := s.invocationIdempotency[r.Idem() := r]))
  }

  function AppendInvocations(s: State, t: Task, p: Proposal, rs: seq<Invocation>): Result<State, Error>
    decreases |rs|
  {
    if rs == [] then Ok(s)
    else match AppendInvocations(s, t, p, rs[..|rs|-1])
      case Err(e) => Err(e)
      case Ok(s1) => AppendInvocation(s1, t, p, rs[|rs|-1])
  }

  predicate ProposalIdUsed(s: State, p: Proposal) {
    exists k :: k in s.proposals && s.proposals[k].site == p.site && s.proposals[k].proposalId == p.proposalId
  }

  function AppendProposal(s: State, p: Proposal): Result<State, Error> {
    if p.Key() in s.proposalIdempotency then
      if s.proposalIdempotency[p.Key()] != p then Err(IdempotencyConflict) else Ok(s)
    else if ProposalIdUsed(s, p) then Err(IdempotencyConflict)
    else Ok(s.(proposals := s.proposals[p.Key() := p],
               proposalIdempotency := s.proposalIdempotency[p.Key() := p]))
  }

  predicate Replayed(s: State, rs: seq<Invocation>) {
    forall i :: 0 <= i < |rs| ==> rs[i].Key() in s.invocations && s.invocations[rs[i].Key()] == rs[i]
  }

  predicate CompletedFence(s: State, t: Task, attempt: int, p: Proposal) {
    var k := AttemptKey(t.content.site, t.taskId, attempt);
    && t.status == Succeeded && t.attempt == attempt && t.outputs == [p.proposalId]
    && k in s.outbox && s.outbox[k].origin == AI && s.outbox[k].reviewStatus == AIDraft
  }

  function WriteBundle(s: State, t: Task, p: Proposal, worker: string, now: int, rs: seq<Invocation>): Result<State, Error> {
    match AppendInvocations(s, t, p, rs)
    case Err(e) => Err(e)
    case Ok(s1) =>
      match AppendProposal(s1, p)
      case Err(e) => Err(e)
      case Ok(s2) =>
        var s3 := s2.(outbox := s2.outbox[p.Key() := FromProposal(p, now)]);
        var r := Release(t, Succeeded, now).(outputs := [p.proposalId]);
        Ok(Log(Store(s3, r), r, SucceededEvent, now, Some(worker)))
  }

  function Complete(s: State, k: TaskKey, worker: string, attempt: int, now: int, result: ExecutionResult): (State, Reply) {
    if k !in s.tasks then (s, Rejected(TaskNotFound))
    else if s.tasks[k].attempt != attempt then (s, Rejected(LeaseConflict))
    else match FromExecution(s.tasks[k], result)
      case Err(e) => (s, Rejected(e))
      case Ok(p) =>
        var pk := AttemptKey(k.site, k.task, attempt);
        if pk in s.proposals then
          if s.proposals[pk].bundle != p.bundle then (s, Rejected(IdempotencyConflict))
          else if !Replayed(s, result.invocations) then (s, Rejected(IdempotencyConflict))
          else if !CompletedFence(s, s.tasks[k], attempt, p) then (s, Rejected(IdempotencyConflict))
          else (s, TaskReply(s.tasks[k]))
        else match RequireLiveLease(s, k, worker, attempt, now)
          case Err(e) => (s, Rejected(e))
          case Ok(t) =>
            if t.status != Running then (s, Rejected(LeaseConflict))
            else match WriteBundle(s, t, p, worker, now, result.invocations)
              case Err(e) => (s, Rejected(e))
              case Ok(s') => (s', TaskReply(Release(t, Succeeded, now).(outputs := [p.proposalId])))
  }
}
