/** What a completion stores: the proposal is the document, bound to its task, and its outbox row waits
    to be delivered. */
module TaskProposals {
  import opened Wrappers
  import opened TaskModel
  import opened TaskSpec
  import opened TaskInvariant
  import opened TaskRuns
  import opened TaskEffects

  /** The document may be stored for the task: it is about the task's subject, merely proposed, digested
      as it is, allowed, and carries distinct evidence. */
  predicate Acceptable(t: Task, d: ProposalDocument, rs: seq<Invocation>) {
    && d.site == t.content.site && d.targetRef == t.content.subjectRef && d.status == Proposed
    && d.shaped && d.safe && !d.payload.NoPayload? && d.payloadDigest == d.payload
    && d.actionType in {AiDraftPropose, WorkItemPropose, ReviewCasePropose, WorkItemTransitionPropose}
    && t.attempt >= 1 && d.targetRevision >= 0 && |d.evidenceRefs| > 0
    && (forall i, j :: 0 <= i < j < |d.evidenceRefs| ==> d.evidenceRefs[i] != d.evidenceRefs[j])
    && (forall i, j :: 0 <= i < j < |rs| ==> rs[i].id != rs[j].id)
  }

  /** The stored record: its own columns are the document's, its subject is the task's. */
  predicate Records(p: Proposal, t: Task, attempt: int, d: ProposalDocument, rs: seq<Invocation>) {
    && p.proposalId == d.proposalId && p.site == t.content.site && p.taskId == t.taskId && p.taskAttempt == attempt
    && p.actionType == d.actionType && p.subjectType == t.content.subjectType && p.subjectRef == t.content.subjectRef
    && p.subjectRevision == d.targetRevision && p.evidenceRefs == d.evidenceRefs && p.factRefs == d.factRefs
    && p.createdAt == d.createdAt
    && |p.invocationIds| == |rs| && (forall i :: 0 <= i < |rs| ==> p.invocationIds[i] == rs[i].id)
    && p.bundle == BundleDigest(t.taskId, attempt, d, rs)
  }

  /** The invocation is bound to the task and the document, and had no effects outside. */
  predicate Belongs(r: Invocation, t: Task, d: ProposalDocument) {
    && r.site == t.content.site && r.requestId == t.taskId && r.evidenceRefs == d.evidenceRefs
    && r.externalSends == 0 && r.toolCalls == 0
  }

  lemma IdsAre(rs: seq<Invocation>)
    ensures |InvocationIds(rs)| == |rs| && forall i :: 0 <= i < |rs| ==> InvocationIds(rs)[i] == rs[i].id
    ensures Distinct(InvocationIds(rs)) <==> forall i, j :: 0 <= i < j < |rs| ==> rs[i].id != rs[j].id
  {
    var ids := InvocationIds(rs);
    if Distinct(ids) {
      forall i, j | 0 <= i < j < |rs| ensures rs[i].id != rs[j].id { assert ids[i] != ids[j]; }
    }
  }

  /** A proposal is made exactly from an acceptable document, and records it. */
  lemma MadeIffAcceptable(t: Task, result: ExecutionResult)
    ensures FromExecution(t, result).Ok? <==> Acceptable(t, result.document, result.invocations)
    ensures FromExecution(t, result).Ok? ==>
      Records(FromExecution(t, result).value, t, t.attempt, result.document, result.invocations)
  {
    IdsAre(result.invocations);
  }

  lemma {:induction false} AppendedBelong(s: State, t: Task, p: Proposal, rs: seq<Invocation>)
    requires AppendInvocations(s, t, p, rs).Ok?
    ensures forall i :: 0 <= i < |rs| ==>
      && rs[i].site == t.content.site && rs[i].requestId == t.taskId && rs[i].evidenceRefs == p.evidenceRefs
      && rs[i].externalSends == 0 && rs[i].toolCalls == 0
    decreases |rs|
  {
    if rs != [] { AppendedBelong(s, t, p, rs[..|rs|-1]); }
  }

  // ---- one completion -------------------------------------------------------------------------

  /** Everything a completion that writes has written. */
  ghost predicate CompletionDid(s: State, s': State, k: TaskKey, worker: string, attempt: int, now: int, result: ExecutionResult) {
    var pk := AttemptKey(k.site, k.task, attempt);
    && Holds(s, k, worker, attempt, now) && s.tasks[k].status == Running
    && var t, d, rs := s.tasks[k], result.document, result.invocations;
    && Acceptable(t, d, rs) && (forall i :: 0 <= i < |rs| ==> Belongs(rs[i], t, d))
    && s'.tasks == s.tasks[k := Task(t.taskId, t.content, Succeeded, t.dueAt, t.attempt, [d.proposalId], t.failure, None, None, t.createdAt, now)]
    && Logged(s, s', k, [SucceededEvent], now, Some(worker)) && s'.timeline == s.timeline[k := s'.timeline[k]]
    && s'.deadLetters == s.deadLetters && s'.payloads == s.payloads
    && pk !in s.proposals && pk in s'.proposals && s'.proposals == s.proposals[pk := s'.proposals[pk]]
    && Records(s'.proposals[pk], t, attempt, d, rs)
    && s'.outbox == s.outbox[pk := OutboxRecord(d.proposalId, k.site, k.task, attempt, PendingRow, AI, AIDraft, now, 0, 5)]
    && (forall i :: i in s.invocations ==> i in s'.invocations && s'.invocations[i] == s.invocations[i])
    && (forall i :: 0 <= i < |rs| ==> InvocationKey(rs[i].site, rs[i].id) in s'.invocations && s'.invocations[InvocationKey(rs[i].site, rs[i].id)] == rs[i])
  }

  lemma WriteDid(s: State, s': State, k: TaskKey, worker: string, now: int, result: ExecutionResult)
    requires ProposalsInv(s) && InvocationsInv(s) && k in s.tasks && k in s.timeline && s.tasks[k].Key() == k
    requires s.tasks[k].status == Running && Holds(s, k, worker, s.tasks[k].attempt, now)
    requires FromExecution(s.tasks[k], result).Ok?
    requires var p := FromExecution(s.tasks[k], result).value;
      p.Key() !in s.proposals && WriteBundle(s, s.tasks[k], p, worker, now, result.invocations) == Ok(s')
    ensures CompletionDid(s, s', k, worker, s.tasks[k].attempt, now, result)
  {
    MadeIffAcceptable(s.tasks[k], result);
    RecordedDid(s, s', k, FromExecution(s.tasks[k], result).value, worker, now, result);
  }

  lemma RecordedDid(s: State, s': State, k: TaskKey, p: Proposal, worker: string, now: int, result: ExecutionResult)
    requires ProposalsInv(s) && InvocationsInv(s) && k in s.tasks && k in s.timeline && s.tasks[k].Key() == k
    requires s.tasks[k].status == Running && Holds(s, k, worker, s.tasks[k].attempt, now)
    requires Acceptable(s.tasks[k], result.document, result.invocations)
    requires Records(p, s.tasks[k], s.tasks[k].attempt, result.document, result.invocations)
    requires p.Key() !in s.proposals && WriteBundle(s, s.tasks[k], p, worker, now, result.invocations) == Ok(s')
    ensures CompletionDid(s, s', k, worker, s.tasks[k].attempt, now, result)
  {
    var t, rs := s.tasks[k], result.invocations;
    AppendedBelong(s, t, p, rs);
    WriteBundleIs(s, t, p, worker, now, rs);
    WriteBundleKeepsInvocations(s, s', t, p, worker, now, rs);
    WrittenLog(s, s', k, Release(t, Succeeded, now).(outputs := [p.proposalId]), now, worker);
  }

  lemma WrittenLog(s: State, s': State, k: TaskKey, done: Task, now: int, worker: string)
    requires k in s.tasks && k in s.timeline && s.tasks[k].Key() == k && done.Key() == k && done.content == s.tasks[k].content
    requires s'.timeline == s.timeline[k := s.timeline[k] + [MakeEvent(done, |s.timeline[k]|, SucceededEvent, now, Some(worker))]]
    ensures Logged(s, s', k, [SucceededEvent], now, Some(worker))
  {
    OneEvent(s, s', k, SucceededEvent, now, Some(worker));
  }

  /** A completion that changes anything has done all of this, a rejected one nothing, and one without
      an acceptable document is rejected. */
  lemma CompleteEffect(s: State, k: TaskKey, worker: string, attempt: int, now: int, result: ExecutionResult)
    requires Inv(s)
    ensures var (s', reply) := Complete(s, k, worker, attempt, now, result);
      && (s' != s ==> CompletionDid(s, s', k, worker, attempt, now, result) && reply == TaskReply(s'.tasks[k]))
      && (reply.Rejected? ==> s' == s)
      && (reply.TaskReply? ==> k in s.tasks && Acceptable(s.tasks[k], result.document, result.invocations))
  {
    var (s', reply) := Complete(s, k, worker, attempt, now, result);
    if k in s.tasks {
      assert TaskEntry(s, k) && LogEntry(s, k);
      MadeIffAcceptable(s.tasks[k], result);
      if s' != s { WriteDid(s, s', k, worker, now, result); }
    }
  }

  // ---- every stored proposal ------------------------------------------------------------------

  /** A stored proposal records its own document, bound to its task, and names its own invocations. */
  predicate WellMadeAt(s: State, k: AttemptKey) {
    k in s.proposals ==>
      var p, tk := s.proposals[k], TaskKey(k.site, k.task);
      && tk in s.tasks && Records(p, s.tasks[tk], k.attempt, p.bundle.document, p.bundle.invocations)
      && p.invocationIds == InvocationIds(p.bundle.invocations)
      && forall i :: 0 <= i < |p.bundle.invocations| ==> p.bundle.invocations[i].site == p.site
  }

  ghost predicate AllWellMade(s: State) {
    forall k {:trigger WellMadeAt(s, k)} :: WellMadeAt(s, k)
  }

  lemma KeptWell(s: State, s': State, k: AttemptKey)
    requires Forward(s, s') && WellMadeAt(s, k) && (k in s'.proposals ==> k in s.proposals && s'.proposals[k] == s.proposals[k])
    ensures WellMadeAt(s', k)
  {
    assert TaskForward(s, s', TaskKey(k.site, k.task));
  }

  lemma DidKeepsWell(s: State, s': State, c: Call)
    requires AllWellMade(s) && Forward(s, s') && c.CompleteCall? && c.key in s.tasks && s.tasks[c.key].Key() == c.key
    requires CompletionDid(s, s', c.key, c.worker, c.attempt, c.now, c.result)
    ensures AllWellMade(s')
  {
    forall k ensures WellMadeAt(s', k) {
      assert WellMadeAt(s, k);
      if k == AttemptKey(c.key.site, c.key.task, c.attempt) { WrittenWell(s, s', c); } else { KeptWell(s, s', k); }
    }
  }

  lemma {:induction false} CompleteMakesWell(s: State, c: Call)
    requires Inv(s) && AllWellMade(s) && c.CompleteCall?
    ensures AllWellMade(Apply(s, c).0)
  {
    if Apply(s, c).0 != s {
      CompleteEffect(s, c.key, c.worker, c.attempt, c.now, c.result);
      ApplyIsForward(s, c);
      assert TaskEntry(s, c.key);
      DidKeepsWell(s, Apply(s, c).0, c);
    }
  }

  lemma WrittenWell(s: State, s': State, c: Call)
    requires c.CompleteCall? && c.key in s.tasks && s.tasks[c.key].Key() == c.key
    requires CompletionDid(s, s', c.key, c.worker, c.attempt, c.now, c.result)
    ensures WellMadeAt(s', AttemptKey(c.key.site, c.key.task, c.attempt))
  {
    IdsAre(c.result.invocations);
    var p := s'.proposals[AttemptKey(c.key.site, c.key.task, c.attempt)];
    assert p.invocationIds == InvocationIds(c.result.invocations);
  }

  lemma {:induction false} ClaimKeepsProposals(s: State, c: Call)
    requires c.ClaimCall? || c.ClaimForExecutionCall?
    ensures Apply(s, c).0.proposals == s.proposals
  {
    ClaimsLeaveBundles(s, c.site, c.worker, c.now, c.duration);
  }

  lemma {:induction false} OthersKeepProposals(s: State, c: Call)
    requires Inv(s) && !c.CompleteCall?
    ensures Apply(s, c).0.proposals == s.proposals
  {
    if c.Guarded() {
      if Apply(s, c).0 != s { GuardedShape(s, c); }
    } else if !c.EnqueueCall? {
      ClaimKeepsProposals(s, c);
    }
  }

  lemma {:induction false} ApplyMakesWell(s: State, c: Call)
    requires Inv(s) && AllWellMade(s)
    ensures AllWellMade(Apply(s, c).0)
  {
    if c.CompleteCall? {
      CompleteMakesWell(s, c);
    } else {
      OthersKeepProposals(s, c);
      ApplyIsForward(s, c);
      forall k ensures WellMadeAt(Apply(s, c).0, k) {
        assert WellMadeAt(s, k);
        KeptWell(s, Apply(s, c).0, k);
      }
    }
  }

  lemma {:induction false} RunMakesWell(s: State, calls: seq<Call>)
    requires Inv(s) && AllWellMade(s) && Valid(calls)
    ensures AllWellMade(Run(s, calls))
    decreases |calls|
  {
    if calls != [] {
      ApplyMakesWell(s, calls[0]);
      ApplyKeepsInv(s, calls[0]);
      RunMakesWell(Apply(s, calls[0]).0, calls[1..]);
    }
  }

  /** In every reachable state each stored proposal records its document for its task, and its outbox
      row is the pending AI draft of that document. */
  lemma ProposalsRecordTheirDocuments(calls: seq<Call>, k: AttemptKey)
    requires Valid(calls) && k in Run(EMPTY, calls).proposals
    ensures var s := Run(EMPTY, calls);
      var p, tk := s.proposals[k], TaskKey(k.site, k.task);
      && tk in s.tasks && Records(p, s.tasks[tk], k.attempt, p.bundle.document, p.bundle.invocations)
      && k in s.outbox
      && s.outbox[k] == OutboxRecord(p.bundle.document.proposalId, k.site, k.task, k.attempt, PendingRow, AI, AIDraft, s.outbox[k].createdAt, 0, 5)
  {
    EmptyIsInv();
    RunKeepsInv(EMPTY, calls);
    RunMakesWell(EMPTY, calls);
    assert WellMadeAt(Run(EMPTY, calls), k) && ProposalEntry(Run(EMPTY, calls), k);
  }
}
