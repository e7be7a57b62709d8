/** A run that completes a task with two invocations of different models: the completion is accepted,
    and the outbox row it leaves can never be claimed. */
module TaskBundleExample {
  import opened Wrappers
  import opened TaskModel
  import opened TaskSpec
  import opened TaskInvariant
  import opened TaskRuns
  import opened TaskSqlExample
  import opened ProposalBundle
  import opened TaskBundles

  // ---- one task, claimed and completed ---------------------------------------------------------

  lemma ExecutesTheOnlyTask(s: State, k: TaskKey, worker: string, now: int, duration: int)
    requires s.tasks.Keys == {k} && s.tasks[k].Key() == k && s.tasks[k].status == Queued && s.tasks[k].dueAt <= now
    requires worker != "" && duration > 0 && k in s.payloads && s.payloads[k].Parses?
    ensures ClaimForExecution(s, k.site, worker, now, duration).0 == Grant(Reap(s, k.site, now), s.tasks[k], Running, worker, now, duration)
  {
    ReapLeavesQueued(s, k, k.site, now);
    ReapKeepsKeys(s, k.site, now);
    OnlyCandidate(Reap(s, k.site, now).tasks, k.site, now, k);
  }

  /** No proposals and no invocations yet. */
  predicate NoBundles(s: State) {
    s.proposals == map[] && s.proposalIdempotency == map[] && s.invocations == map[] && s.invocationIdempotency == map[]
  }

  lemma AfterExecutionClaim(s: State, k: TaskKey, worker: string, now: int, duration: int)
    requires s.tasks.Keys == {k} && s.tasks[k].Key() == k && s.tasks[k].status == Queued && s.tasks[k].dueAt <= now
    requires worker != "" && duration > 0 && k in s.payloads && s.payloads[k].Parses? && NoBundles(s)
    ensures var s' := ClaimForExecution(s, k.site, worker, now, duration).0;
      k in s'.tasks && s'.tasks[k] == Granted(s.tasks[k], Running, worker, now, duration) && NoBundles(s')
  {
    ExecutesTheOnlyTask(s, k, worker, now, duration);
    GrantIs(Reap(s, k.site, now), s.tasks[k], Running, worker, now, duration);
  }

  lemma TwoAppend(s: State, t: Task, p: Proposal, a: Invocation, b: Invocation)
    requires NoBundles(s) && Bound(t, p, a) && Bound(t, p, b) && a.id != b.id && a.key != b.key
    ensures AppendInvocations(s, t, p, [a, b]).Ok?
    ensures var s' := AppendInvocations(s, t, p, [a, b]).value; s'.proposals == map[] && s'.proposalIdempotency == map[]
  {
    assert [a, b][..1] == [a] && [a][..0] == [];
    assert AppendInvocations(s, t, p, [a]) == AppendInvocation(s, t, p, a);
  }

  /** Completion asks nothing of the models behind the invocations. */
  lemma CompletionIsAccepted(s: State, k: TaskKey, worker: string, now: int, d: ProposalDocument, a: Invocation, b: Invocation)
    requires k in s.tasks && s.tasks[k].Key() == k && s.tasks[k].status == Running && NoBundles(s)
    requires LiveLease(s.tasks[k], worker, s.tasks[k].attempt, now)
    requires FromExecution(s.tasks[k], ExecutionResult(d, [a, b])).Ok?
    requires var p := FromExecution(s.tasks[k], ExecutionResult(d, [a, b])).value; Bound(s.tasks[k], p, a) && Bound(s.tasks[k], p, b)
    requires a.id != b.id && a.key != b.key
    ensures var (s', reply) := Complete(s, k, worker, s.tasks[k].attempt, now, ExecutionResult(d, [a, b]));
      var pk := AttemptKey(k.site, k.task, s.tasks[k].attempt);
      && reply.TaskReply? && pk in s'.proposals && pk in s'.outbox
      && s'.proposals[pk].bundle.document == d && s'.proposals[pk].bundle.invocations == [a, b]
  {
    var p := FromExecution(s.tasks[k], ExecutionResult(d, [a, b])).value;
    TwoAppend(s, s.tasks[k], p, a, b);
  }

  // ---- the run ---------------------------------------------------------------------------------

  function Ran(id: string, model: string): Invocation {
    Invocation(id, "s", "x", id, ["e"], 0, 0, model, None, "")
  }

  const FIRST: Invocation := Ran("i", "m")
  const SECOND: Invocation := Ran("j", "n")

  const DOCUMENT: ProposalDocument := ProposalDocument(
    "s", "r", Proposed, WorkItemPropose, "p", TextPayload(Some("t"), None, None), TextPayload(Some("t"), None, None), NoPolicy,
    ["e"], [("f", 1)], 0, 0, true, true)

  const SUBMIT: Call := EnqueueCall(EXHAUSTED, 0)
  const TAKE: Call := ClaimForExecutionCall("s", "w", 0, 1)
  const FINISH: Call := CompleteCall(X, "w", 1, 0, ExecutionResult(DOCUMENT, [FIRST, SECOND]))

  const MIXED: seq<Call> := [SUBMIT, TAKE, FINISH]

  const MIXED_KEY: AttemptKey := AttemptKey("s", "x", 1)

  lemma Different()
    ensures FIRST.id != SECOND.id && FIRST.key != SECOND.key && IdentityOf(FIRST) != IdentityOf(SECOND)
  {
    assert "i"[0] != "j"[0] && "m"[0] != "n"[0];
  }

  lemma Taken(s: State)
    requires s == Apply(EMPTY, SUBMIT).0
    ensures var s' := Apply(s, TAKE).0;
      X in s'.tasks && s'.tasks[X] == Granted(FreshTask(EXHAUSTED, 0), Running, "w", 0, 1) && NoBundles(s')
  {
    assert s.tasks == map[X := FreshTask(EXHAUSTED, 0)];
    AfterExecutionClaim(s, X, "w", 0, 1);
  }

  lemma DocumentFits(t: Task)
    requires t == Granted(FreshTask(EXHAUSTED, 0), Running, "w", 0, 1)
    ensures FromExecution(t, ExecutionResult(DOCUMENT, [FIRST, SECOND])).Ok?
    ensures var p := FromExecution(t, ExecutionResult(DOCUMENT, [FIRST, SECOND])).value; Bound(t, p, FIRST) && Bound(t, p, SECOND)
  {
    Different();
    var ids := InvocationIds([FIRST, SECOND]);
    assert ids[0] == FIRST.id && ids[1] == SECOND.id;
  }

  lemma LiveFor(t: Task)
    requires t == Granted(FreshTask(EXHAUSTED, 0), Running, "w", 0, 1)
    ensures t.Key() == X && t.attempt == 1 && t.status == Running && LiveLease(t, "w", 1, 0)
  {
  }

  lemma CompletesMixed(s: State)
    requires X in s.tasks && s.tasks[X] == Granted(FreshTask(EXHAUSTED, 0), Running, "w", 0, 1) && NoBundles(s)
    ensures var s' := Apply(s, FINISH).0;
      && MIXED_KEY in s'.proposals && MIXED_KEY in s'.outbox
      && s'.proposals[MIXED_KEY].bundle.document == DOCUMENT && s'.proposals[MIXED_KEY].bundle.invocations == [FIRST, SECOND]
  {
    Different();
    LiveFor(s.tasks[X]);
    DocumentFits(s.tasks[X]);
    CompletionIsAccepted(s, X, "w", 0, DOCUMENT, FIRST, SECOND);
  }

  lemma MixedState() returns (s: State)
    ensures s == Run(EMPTY, MIXED) && MIXED_KEY in s.proposals && MIXED_KEY in s.outbox
    ensures s.proposals[MIXED_KEY].bundle.document == DOCUMENT && s.proposals[MIXED_KEY].bundle.invocations == [FIRST, SECOND]
  {
    var s1 := Apply(EMPTY, SUBMIT).0;
    var s2 := Apply(s1, TAKE).0;
    Taken(s1);
    CompletesMixed(s2);
    s := Apply(s2, FINISH).0;
    ThreeCalls(EMPTY, SUBMIT, TAKE, FINISH);
  }

  /** The completion is accepted and its outbox row is pending, but its bundle cannot be read. */
  lemma MixedModelsAreAcceptedButUnreadable()
    ensures var s := Run(EMPTY, MIXED);
      && MIXED_KEY in s.proposals && MIXED_KEY in s.outbox && s.outbox[MIXED_KEY].status == PendingRow
      && TaskKey("s", "x") in s.tasks && !Readable(BundleOf(s, MIXED_KEY))
  {
    var s := MixedState();
    Different();
    assert EXHAUSTED.Valid();
    EmptyIsInv();
    RunKeepsInv(EMPTY, MIXED);
    assert ProposalEntry(s, MIXED_KEY);
    ReadableIffDeliverable(MIXED, MIXED_KEY);
    assert [FIRST, SECOND][1] == SECOND;
  }

  lemma MixedRowIsPending()
    ensures var s := Run(EMPTY, MIXED);
      && MIXED_KEY in s.outbox && s.outbox[MIXED_KEY].site == "s" && s.outbox[MIXED_KEY].attempt == 0
      && s.outbox[MIXED_KEY].maxAttempts == 5
  {
    var s := MixedState();
    assert EXHAUSTED.Valid();
    EmptyIsInv();
    RunKeepsInv(EMPTY, MIXED);
    assert ProposalEntry(s, MIXED_KEY);
  }
}
