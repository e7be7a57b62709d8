/** Whole runs of the task repository: any number of workers, any interleaving of calls, any
    clock readings. A run is a sequence of calls; nothing is assumed about `now`. */
module TaskRuns {
  import opened Wrappers
  import opened TaskModel
  import opened TaskSpec
  import opened TaskTimeline
  import opened TaskInvariant

  datatype Call =
    | EnqueueCall(sub: Submission, now: int)
    | ClaimCall(site: string, worker: string, now: int, duration: int)
    | ClaimForExecutionCall(site: string, worker: string, now: int, duration: int)
    | StartCall(key: TaskKey, worker: string, attempt: int, now: int)
    | HeartbeatCall(key: TaskKey, worker: string, attempt: int, now: int, duration: int)
    | SucceedCall(key: TaskKey, worker: string, attempt: int, now: int, outputs: seq<string>)
    | FailCall(key: TaskKey, worker: string, attempt: int, now: int, retryAt: int, classification: FailureClassification)
    | CompleteCall(key: TaskKey, worker: string, attempt: int, now: int, result: ExecutionResult)
  {
    /** The site a call names. */
    function Site(): string {
      match this
      case EnqueueCall(sub, _) => sub.content.site
      case ClaimCall(site, _, _, _) => site
      case ClaimForExecutionCall(site, _, _, _) => site
      case _ => key.site
    }

    /** The calls that carry a lease's attempt number. */
    predicate Guarded() {
      StartCall? || HeartbeatCall? || SucceedCall? || FailCall? || CompleteCall?
    }
  }

  ghost function Apply(s: State, c: Call): (State, Reply) {
    match c
    case EnqueueCall(sub, now) => Enqueue(s, sub, now)
    case ClaimCall(site, w, now, d) => Claim(s, site, w, now, d)
    case ClaimForExecutionCall(site, w, now, d) => ClaimForExecution(s, site, w, now, d)
    case StartCall(k, w, a, now) => Start(s, k, w, a, now)
    case HeartbeatCall(k, w, a, now, d) => Heartbeat(s, k, w, a, now, d)
    case SucceedCall(k, w, a, now, outputs) => Succeed(s, k, w, a, now, outputs)
    case FailCall(k, w, a, now, retryAt, cl) => Fail(s, k, w, a, now, retryAt, cl)
    case CompleteCall(k, w, a, now, result) => Complete(s, k, w, a, now, result)
  }

  /** Submissions are validated by their constructor before they reach the repository. */
  predicate Valid(calls: seq<Call>) {
    forall i :: 0 <= i < |calls| && calls[i].EnqueueCall? ==> calls[i].sub.Valid()
  }

  ghost function Run(s: State, calls: seq<Call>): State
    decreases |calls|
  {
    if calls == [] then s else Run(Apply(s, calls[0]).0, calls[1..])
  }

  lemma ApplyKeepsInv(s: State, c: Call)
    requires Inv(s) && (c.EnqueueCall? ==> c.sub.Valid())
    ensures Inv(Apply(s, c).0)
  {
    match c
    case EnqueueCall(sub, now) => EnqueueKeepsInv(s, sub, now);
    case ClaimCall(site, w, now, d) => ClaimKeepsInv(s, site, w, now, d);
    case ClaimForExecutionCall(site, w, now, d) => ClaimKeepsInv(s, site, w, now, d);
    case StartCall(k, w, a, now) => StartKeepsInv(s, k, w, a, now);
    case HeartbeatCall(k, w, a, now, d) => HeartbeatKeepsInv(s, k, w, a, now, d);
    case SucceedCall(k, w, a, now, outputs) => SucceedKeepsInv(s, k, w, a, now, outputs);
    case FailCall(k, w, a, now, retryAt, cl) => FailKeepsInv(s, k, w, a, now, retryAt, cl);
    case CompleteCall(k, w, a, now, result) => CompleteKeepsInv(s, k, w, a, now, result);
  }

  lemma {:induction false} RunKeepsInv(s: State, calls: seq<Call>)
    requires Inv(s) && Valid(calls)
    ensures Inv(Run(s, calls))
    decreases |calls|
  {
    if calls != [] {
      ApplyKeepsInv(s, calls[0]);
      RunKeepsInv(Apply(s, calls[0]).0, calls[1..]);
    }
  }

  /** In every reachable state the timeline is a faithful event log. */
  lemma TimelineIsFaithful(calls: seq<Call>, k: TaskKey)
    requires Valid(calls) && k in Run(EMPTY, calls).tasks
    ensures var s := Run(EMPTY, calls);
      && k in s.timeline
      && var t, log := s.tasks[k], s.timeline[k];
      && Fold(log) == View(t.status, t.attempt, t.leaseOwner)
      && LeaseCount(log) == t.attempt
      && |log| <= 1 + 3 * t.content.maxAttempts
      && (forall i :: 0 <= i < |log| ==> log[i].sequence == i)
      && (forall i :: 0 <= i < |log| && TerminalKind(log[i].kind) ==> i == |log| - 1)
  {
    EmptyIsInv();
    RunKeepsInv(EMPTY, calls);
    var s := Run(EMPTY, calls);
    assert TaskEntry(s, k) && LogEntry(s, k);
    var log := s.timeline[k];
    LegalLogIsBounded(log);
    forall i | 0 <= i < |log| && TerminalKind(log[i].kind) ensures i == |log| - 1 {
      TerminalEventIsLast(log, i);
    }
    forall i | 0 <= i < |log| ensures log[i].sequence == i { assert EventOf(log[i], i, s.tasks[k]); }
  }

  // ---- every step only moves forward ------------------------------------------------------

  /** The task is still there, has the same content, no smaller attempt and a longer log; a
      terminal task has not changed at all. */
  predicate TaskForward(s: State, s': State, k: TaskKey) {
    k in s.tasks ==>
      && k in s'.tasks && s'.tasks[k].taskId == s.tasks[k].taskId && s'.tasks[k].content == s.tasks[k].content
      && s.tasks[k].attempt <= s'.tasks[k].attempt
      && EventsOf(s, k) <= EventsOf(s', k)
      && (s.tasks[k].Terminal() ==> s'.tasks[k] == s.tasks[k] && EventsOf(s', k) == EventsOf(s, k))
  }

  predicate RecordsForward(s: State, s': State) {
    && (forall k :: k in s.proposals ==> k in s'.proposals && s'.proposals[k] == s.proposals[k])
    && (forall k :: k in s.outbox ==> k in s'.outbox && s'.outbox[k] == s.outbox[k])
    && (forall k :: k in s.invocations ==> k in s'.invocations && s'.invocations[k] == s.invocations[k])
  }

  ghost predicate Forward(s: State, s': State) {
    && (forall k {:trigger TaskForward(s, s', k)} :: TaskForward(s, s', k))
    && RecordsForward(s, s')
  }

  lemma ForwardTransitive(s: State, s1: State, s2: State)
    requires Forward(s, s1) && Forward(s1, s2)
    ensures Forward(s, s2)
  {
    forall k ensures TaskForward(s, s2, k) {
      assert TaskForward(s, s1, k) && TaskForward(s1, s2, k);
    }
  }

  lemma ReapIsForward(s: State, site: string, now: int)
    ensures Forward(s, Reap(s, site, now))
  {
    var r := Reap(s, site, now);
    forall k ensures TaskForward(s, r, k) {
      if k in s.tasks { assert r.tasks[k] == ReapTask(s.tasks[k], site, now); }
    }
  }

  lemma GrantIsForward(s: State, k: TaskKey, status: TaskStatus, worker: string, now: int, duration: int)
    requires k in s.tasks && s.tasks[k].Key() == k && !s.tasks[k].Terminal()
    ensures Forward(s, Grant(s, s.tasks[k], status, worker, now, duration))
  {
    var s' := Grant(s, s.tasks[k], status, worker, now, duration);
    forall j ensures TaskForward(s, s', j) {
    }
  }

  lemma ReapGrantIsForward(s: State, site: string, status: TaskStatus, worker: string, now: int, duration: int, k: TaskKey)
    requires TasksInv(s) && k in Candidates(Reap(s, site, now).tasks, site, now)
    ensures var r := Reap(s, site, now); Forward(s, Grant(r, r.tasks[k], status, worker, now, duration))
  {
    var r := Reap(s, site, now);
    ReapIsForward(s, site, now);
    CandidatesHaveAttemptsLeft(s, site, now, k);
    assert TaskEntry(s, k);
    GrantIsForward(r, k, status, worker, now, duration);
    ForwardTransitive(s, r, Grant(r, r.tasks[k], status, worker, now, duration));
  }

  lemma ClaimIsForward(s: State, site: string, worker: string, now: int, duration: int)
    requires Inv(s)
    ensures Forward(s, Claim(s, site, worker, now, duration).0)
    ensures Forward(s, ClaimForExecution(s, site, worker, now, duration).0)
  {
    ReapIsForward(s, site, now);
    Unmoved(s);
    var k := ClaimShape(s, site, worker, now, duration);
    if k.Some? { ReapGrantIsForward(s, site, Leased, worker, now, duration, k.value); }
    var j := ClaimForExecutionShape(s, site, worker, now, duration);
    if j.Some? { ReapGrantIsForward(s, site, Running, worker, now, duration, j.value); }
  }

  lemma Unmoved(s: State)
    ensures Forward(s, s)
  {
    forall k ensures TaskForward(s, s, k) {}
  }

  /** The task tables differ only at task `k`, whose content and attempt are the same. */
  ghost predicate TouchesOnly(s: State, s': State, k: TaskKey) {
    && k in s.tasks && k in s'.tasks && s.tasks[k].Key() == k
    && var t := s'.tasks[k];
    && t.taskId == s.tasks[k].taskId && t.content == s.tasks[k].content && t.attempt == s.tasks[k].attempt
    && !s.tasks[k].Terminal()
    && s'.tasks == s.tasks[k := t] && s'.idempotency == s.idempotency[t.Idem() := t]
    && s'.payloads == s.payloads
    && EventsOf(s, k) <= EventsOf(s', k)
    && (s'.timeline == s.timeline || s'.timeline == s.timeline[k := EventsOf(s', k)])
    && (s'.deadLetters == s.deadLetters || (k in s'.deadLetters && s'.deadLetters == s.deadLetters[k := s'.deadLetters[k]]))
  }

  lemma StoreLogTouches(s: State, base: State, k: TaskKey, t: Task, kind: EventType, now: int, actor: Option<string>)
    requires base == s.(proposals := base.proposals, proposalIdempotency := base.proposalIdempotency, outbox := base.outbox,
                        invocations := base.invocations, invocationIdempotency := base.invocationIdempotency)
    requires k in s.tasks && s.tasks[k].Key() == k && !s.tasks[k].Terminal()
    requires t.taskId == s.tasks[k].taskId && t.content == s.tasks[k].content && t.attempt == s.tasks[k].attempt
    ensures TouchesOnly(s, Log(Store(base, t), t, kind, now, actor), k)
  {
  }

  lemma StoreTouches(s: State, k: TaskKey, t: Task)
    requires k in s.tasks && s.tasks[k].Key() == k && !s.tasks[k].Terminal()
    requires t.taskId == s.tasks[k].taskId && t.content == s.tasks[k].content && t.attempt == s.tasks[k].attempt
    ensures TouchesOnly(s, Store(s, t), k)
  {
  }

  lemma DeadLetterTouches(s: State, k: TaskKey, now: int, c: FailureClassification, reason: DeadLetterReason, actor: Option<string>)
    requires k in s.tasks && s.tasks[k].Key() == k && !s.tasks[k].Terminal() && k in s.timeline
    ensures var s' := MoveToDeadLetter(s, s.tasks[k], now, c, reason, actor); TouchesOnly(s, s', k) && SameBundles(s, s')
  {
    MoveToDeadLetterIs(s, s.tasks[k], now, c, reason, actor);
  }

  lemma RecheckTouches(s: State, k: TaskKey, now: int, retryAt: int, c: FailureClassification, actor: Option<string>)
    requires k in s.tasks && s.tasks[k].Key() == k && !s.tasks[k].Terminal()
    ensures var t := Release(s.tasks[k], Recheck, now).(dueAt := retryAt, failure := Some(c));
      var s' := Log(Store(s, t), t, RecheckScheduled, now, actor);
      TouchesOnly(s, s', k) && SameBundles(s, s')
  {
    StoreLogTouches(s, s, k, Release(s.tasks[k], Recheck, now).(dueAt := retryAt, failure := Some(c)), RecheckScheduled, now, actor);
  }

  lemma FailShape(s: State, k: TaskKey, worker: string, attempt: int, now: int, retryAt: int, c: FailureClassification)
    requires k in s.tasks && k in s.timeline && s.tasks[k].Key() == k && Fail(s, k, worker, attempt, now, retryAt, c).0 != s
    ensures var s' := Fail(s, k, worker, attempt, now, retryAt, c).0; TouchesOnly(s, s', k) && SameBundles(s, s')
  {
    if s.tasks[k].attempt >= s.tasks[k].content.maxAttempts {
      DeadLetterTouches(s, k, now, c, MaxAttemptsExhausted, Some(worker));
    } else {
      RecheckTouches(s, k, now, retryAt, c, Some(worker));
    }
  }

  lemma StartShape(s: State, k: TaskKey, worker: string, attempt: int, now: int)
    requires k in s.tasks && s.tasks[k].Key() == k && Start(s, k, worker, attempt, now).0 != s
    ensures var s' := Start(s, k, worker, attempt, now).0; TouchesOnly(s, s', k) && SameBundles(s, s')
  {
    StoreLogTouches(s, s, k, s.tasks[k].(status := Running, updatedAt := now), RunningEvent, now, Some(worker));
  }

  lemma HeartbeatShape(s: State, k: TaskKey, worker: string, attempt: int, now: int, duration: int)
    requires k in s.tasks && s.tasks[k].Key() == k && Heartbeat(s, k, worker, attempt, now, duration).0 != s
    ensures var s' := Heartbeat(s, k, worker, attempt, now, duration).0; TouchesOnly(s, s', k) && SameBundles(s, s')
  {
    StoreTouches(s, k, s.tasks[k].(leaseExpiresAt := Some(now + duration), updatedAt := now));
  }

  lemma SucceedShape(s: State, k: TaskKey, worker: string, attempt: int, now: int, outputs: seq<string>)
    requires k in s.tasks && s.tasks[k].Key() == k && Succeed(s, k, worker, attempt, now, outputs).0 != s
    ensures var s' := Succeed(s, k, worker, attempt, now, outputs).0; TouchesOnly(s, s', k) && SameBundles(s, s')
  {
    StoreLogTouches(s, s, k, Release(s.tasks[k], Succeeded, now).(outputs := outputs), SucceededEvent, now, Some(worker));
  }

  /** A lease-guarded call is rejected and changes nothing, or touches its own task. */
  lemma GuardedShape(s: State, c: Call)
    requires TasksInv(s) && LogsInv(s) && c.Guarded() && !c.CompleteCall? && Apply(s, c).0 != s
    ensures TouchesOnly(s, Apply(s, c).0, c.key) && SameBundles(s, Apply(s, c).0)
  {
    assert TaskEntry(s, c.key) && LogEntry(s, c.key);
    match c
    case StartCall(k, w, a, now) => StartShape(s, k, w, a, now);
    case HeartbeatCall(k, w, a, now, d) => HeartbeatShape(s, k, w, a, now, d);
    case SucceedCall(k, w, a, now, outputs) => SucceedShape(s, k, w, a, now, outputs);
    case FailCall(k, w, a, now, retryAt, cl) => FailShape(s, k, w, a, now, retryAt, cl);
  }

  /** What an accepted completion writes. */
  ghost predicate Bundled(s: State, s': State, k: TaskKey, p: Proposal, now: int, rs: seq<Invocation>) {
    && TouchesOnly(s, s', k) && RecordsForward(s, s') && s'.deadLetters == s.deadLetters
    && s'.proposals == s.proposals[p.Key() := p]
    && s'.proposalIdempotency == s.proposalIdempotency[p.Key() := p]
    && s'.outbox == s.outbox[p.Key() := FromProposal(p, now)]
    && AppendInvocations(s, s.tasks[k], p, rs).Ok?
    && var s1 := AppendInvocations(s, s.tasks[k], p, rs).value;
    && s'.invocations == s1.invocations && s'.invocationIdempotency == s1.invocationIdempotency
  }

  /** The tables a completion writes before the task are not task tables. */
  lemma WriteBundleBase(s: State, s': State, t: Task, p: Proposal, worker: string, now: int, rs: seq<Invocation>)
    requires WriteBundle(s, t, p, worker, now, rs) == Ok(s') && InvocationsInv(s)
    ensures var base := s.(proposals := s'.proposals, proposalIdempotency := s'.proposalIdempotency, outbox := s'.outbox,
                           invocations := s'.invocations, invocationIdempotency := s'.invocationIdempotency);
      var done := Release(t, Succeeded, now).(outputs := [p.proposalId]);
      s' == Log(Store(base, done), done, SucceededEvent, now, Some(worker))
  {
    AppendInvocationsGrows(s, t, p, rs);
  }

  lemma WriteBundleTouches(s: State, s': State, k: TaskKey, p: Proposal, worker: string, now: int, rs: seq<Invocation>)
    requires k in s.tasks && s.tasks[k].Key() == k && !s.tasks[k].Terminal()
    requires WriteBundle(s, s.tasks[k], p, worker, now, rs) == Ok(s') && InvocationsInv(s)
    ensures TouchesOnly(s, s', k) && s'.deadLetters == s.deadLetters
  {
    WriteBundleBase(s, s', s.tasks[k], p, worker, now, rs);
    var base := s.(proposals := s'.proposals, proposalIdempotency := s'.proposalIdempotency, outbox := s'.outbox,
                   invocations := s'.invocations, invocationIdempotency := s'.invocationIdempotency);
    StoreLogTouches(s, base, k, Release(s.tasks[k], Succeeded, now).(outputs := [p.proposalId]), SucceededEvent, now, Some(worker));
  }

  lemma WriteBundleRecords(s: State, s': State, t: Task, p: Proposal, worker: string, now: int, rs: seq<Invocation>)
    requires InvocationsInv(s) && p.Key() !in s.proposals && s.outbox.Keys == s.proposals.Keys == s.proposalIdempotency.Keys
    requires WriteBundle(s, t, p, worker, now, rs) == Ok(s')
    ensures RecordsForward(s, s') && s'.proposals == s.proposals[p.Key() := p]
    ensures s'.proposalIdempotency == s.proposalIdempotency[p.Key() := p]
    ensures s'.outbox == s.outbox[p.Key() := FromProposal(p, now)]
    ensures AppendInvocations(s, t, p, rs).Ok?
    ensures var s1 := AppendInvocations(s, t, p, rs).value;
      s'.invocations == s1.invocations && s'.invocationIdempotency == s1.invocationIdempotency
  {
    AppendInvocationsGrows(s, t, p, rs);
  }

  lemma WriteBundleShape(s: State, s': State, k: TaskKey, p: Proposal, worker: string, now: int, rs: seq<Invocation>)
    requires TasksInv(s) && ProposalsInv(s) && InvocationsInv(s) && p.Key() !in s.proposals
    requires k in s.tasks && s.tasks[k].status == Running
    requires WriteBundle(s, s.tasks[k], p, worker, now, rs) == Ok(s')
    ensures Bundled(s, s', k, p, now, rs)
  {
    assert TaskEntry(s, k);
    WriteBundleRecords(s, s', s.tasks[k], p, worker, now, rs);
    WriteBundleTouches(s, s', k, p, worker, now, rs);
  }

  lemma CompleteShape(s: State, c: Call)
    requires Inv(s) && c.CompleteCall? && Apply(s, c).0 != s
    ensures c.key in s.tasks && FromExecution(s.tasks[c.key], c.result).Ok?
    ensures var p := FromExecution(s.tasks[c.key], c.result).value;
      && p.Key() == AttemptKey(c.key.site, c.key.task, c.attempt) && p.Key() !in s.proposals
      && Bundled(s, Apply(s, c).0, c.key, p, c.now, c.result.invocations)
  {
    assert TaskEntry(s, c.key);
    WriteBundleShape(s, Apply(s, c).0, c.key, FromExecution(s.tasks[c.key], c.result).value, c.worker, c.now, c.result.invocations);
  }

  lemma GuardedIsForward(s: State, c: Call)
    requires Inv(s) && c.Guarded()
    ensures Forward(s, Apply(s, c).0)
  {
    var s' := Apply(s, c).0;
    if s' == s {
      Unmoved(s);
    } else {
      if c.CompleteCall? { CompleteShape(s, c); } else { GuardedShape(s, c); }
      TouchIsForward(s, s', c.key);
    }
  }

  lemma TouchIsForward(s: State, s': State, k: TaskKey)
    requires TouchesOnly(s, s', k) && RecordsForward(s, s')
    ensures Forward(s, s')
  {
    forall j ensures TaskForward(s, s', j) {}
  }

  lemma AddIsForward(s: State, s': State, t: Task)
    requires t.Key() !in s.tasks && s'.tasks == s.tasks[t.Key() := t] && SameBundles(s, s')
    requires t.Key() in s'.timeline && s'.timeline == s.timeline[t.Key() := s'.timeline[t.Key()]]
    ensures Forward(s, s')
  {
    forall k ensures TaskForward(s, s', k) {}
  }

  lemma EnqueueIsForward(s: State, sub: Submission, now: int)
    ensures Forward(s, Enqueue(s, sub, now).0)
  {
    var s' := Enqueue(s, sub, now).0;
    if s' == s { Unmoved(s); } else { AddIsForward(s, s', FreshTask(sub, now)); }
  }

  lemma ApplyIsForward(s: State, c: Call)
    requires Inv(s)
    ensures Forward(s, Apply(s, c).0)
  {
    match c
    case EnqueueCall(sub, now) => EnqueueIsForward(s, sub, now);
    case ClaimCall(site, w, now, d) => ClaimIsForward(s, site, w, now, d);
    case ClaimForExecutionCall(site, w, now, d) => ClaimIsForward(s, site, w, now, d);
    case _ => GuardedIsForward(s, c);
  }

  lemma {:induction false} RunIsForward(s: State, calls: seq<Call>)
    requires Inv(s) && Valid(calls)
    ensures Forward(s, Run(s, calls))
    decreases |calls|
  {
    if calls == [] {
      Unmoved(s);
    } else {
      ApplyKeepsInv(s, calls[0]);
      ApplyIsForward(s, calls[0]);
      RunIsForward(Apply(s, calls[0]).0, calls[1..]);
      ForwardTransitive(s, Apply(s, calls[0]).0, Run(s, calls));
    }
  }
}
