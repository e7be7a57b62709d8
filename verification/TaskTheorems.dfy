/** The guarantees of the task queue over whole runs: fencing, idempotent completion, bounded
    work, site isolation and well-founded parents. */
module TaskTheorems {
  import opened Wrappers
  import opened TaskModel
  import opened TaskSpec
  import opened TaskInvariant
  import opened TaskRuns

  // ---- fencing -----------------------------------------------------------------------------

  /** Attempt `a` of the task is over: a later attempt was claimed, or the task ended. */
  predicate Over(s: State, k: TaskKey, a: int) {
    k in s.tasks && (s.tasks[k].attempt > a || (s.tasks[k].attempt == a && s.tasks[k].Terminal()))
  }

  predicate Stale(c: Call, k: TaskKey, a: int) {
    c.Guarded() && c.key == k && c.attempt <= a
  }

  lemma StaleCallChangesNothing(s: State, c: Call, k: TaskKey, a: int)
    requires Inv(s) && Over(s, k, a) && Stale(c, k, a)
    ensures Apply(s, c).0 == s
  {
    assert TaskEntry(s, k);
  }

  lemma OverIsForever(s: State, s': State, k: TaskKey, a: int)
    requires Over(s, k, a) && Forward(s, s')
    ensures Over(s', k, a)
  {
    assert TaskForward(s, s', k);
  }

  /** The run without the calls that attempt `a` or an earlier one of task `k` still sends. */
  function DropStale(calls: seq<Call>, k: TaskKey, a: int): seq<Call> {
    if calls == [] then []
    else if Stale(calls[0], k, a) then DropStale(calls[1..], k, a)
    else [calls[0]] + DropStale(calls[1..], k, a)
  }

  /** Once an attempt is over, everything its workers still send can be deleted from the run
      without changing where the run ends. */
  lemma {:induction false} StaleCallsAreInvisible(s: State, calls: seq<Call>, k: TaskKey, a: int)
    requires Inv(s) && Valid(calls) && Over(s, k, a)
    ensures Run(s, calls) == Run(s, DropStale(calls, k, a))
    decreases |calls|
  {
    if calls != [] {
      var c, rest := calls[0], calls[1..];
      var s1 := Apply(s, c).0;
      ApplyKeepsInv(s, c);
      ApplyIsForward(s, c);
      OverIsForever(s, s1, k, a);
      StaleCallsAreInvisible(s1, rest, k, a);
      if Stale(c, k, a) {
        StaleCallChangesNothing(s, c, k, a);
      } else {
        var kept := DropStale(rest, k, a);
        assert DropStale(calls, k, a) == [c] + kept;
        assert ([c] + kept)[1..] == kept;
      }
    }
  }

  /** Across all attempts and workers a task has at most one proposal and one outbox row. */
  lemma AtMostOneProposal(calls: seq<Call>, i: AttemptKey, j: AttemptKey)
    requires Valid(calls)
    requires var s := Run(EMPTY, calls); i in s.outbox && j in s.outbox && i.site == j.site && i.task == j.task
    ensures i == j
  {
    EmptyIsInv();
    RunKeepsInv(EMPTY, calls);
    var s := Run(EMPTY, calls);
    assert ProposalEntry(s, i) && ProposalEntry(s, j);
  }

  /** In every reachable state the derived tables agree with the task table: a task is dead-lettered
      exactly when it is in the dead-letter table, then with all its attempts used and the same
      classification, and the idempotency index holds exactly the current version of each task. */
  lemma DerivedTablesAgree(calls: seq<Call>, k: TaskKey, i: IdemKey)
    requires Valid(calls)
    ensures var s := Run(EMPTY, calls);
      && (k in s.deadLetters <==> k in s.tasks && s.tasks[k].status == DeadLetter)
      && (k in s.deadLetters ==>
            && s.deadLetters[k].attempts == s.tasks[k].attempt == s.tasks[k].content.maxAttempts
            && s.tasks[k].failure == Some(s.deadLetters[k].classification))
      && (i in s.idempotency <==> exists t :: t in s.tasks && s.tasks[t].Idem() == i)
      && (k in s.tasks ==> s.tasks[k].Idem() in s.idempotency && s.idempotency[s.tasks[k].Idem()] == s.tasks[k])
      && (k in s.tasks && (s.tasks[k].status == Queued || s.tasks[k].status == Recheck) ==> s.tasks[k].attempt < s.tasks[k].content.maxAttempts)
  {
    EmptyIsInv();
    RunKeepsInv(EMPTY, calls);
    var s := Run(EMPTY, calls);
    if k in s.tasks { assert TaskEntry(s, k) && Indexed(s, k); }
    if i in s.idempotency { assert IndexEntry(s, i); }
    forall t | t in s.tasks && s.tasks[t].Idem() == i ensures i in s.idempotency { assert Indexed(s, t); }
  }

  // ---- completion --------------------------------------------------------------------------

  /** Everything an accepted completion writes for attempt `attempt` of task `k`. */
  predicate AllWritten(s: State, s': State, k: TaskKey, attempt: int, now: int, result: ExecutionResult, done: Task) {
    var pk := AttemptKey(k.site, k.task, attempt);
    && pk !in s.proposals && pk in s'.proposals && pk in s'.outbox
    && s'.proposals[pk].bundle == BundleDigest(k.task, attempt, result.document, result.invocations)
    && s'.outbox[pk] == FromProposal(s'.proposals[pk], now)
    && Replayed(s', result.invocations)
    && k in s'.tasks && s'.tasks[k] == done && done.status == Succeeded && done.attempt == attempt
    && done.outputs == [result.document.proposalId]
    && Indexed(s', k)
    && k in s.timeline && k in s'.timeline && |s'.timeline[k]| == |s.timeline[k]| + 1
    && s'.timeline[k][|s.timeline[k]|].kind == SucceededEvent
  }

  lemma WriteBundleWritesAll(s: State, s': State, k: TaskKey, worker: string, now: int, result: ExecutionResult)
    requires ProposalsInv(s) && InvocationsInv(s) && k in s.tasks && k in s.timeline && s.tasks[k].Key() == k
    requires FromExecution(s.tasks[k], result).Ok? && AttemptKey(k.site, k.task, s.tasks[k].attempt) !in s.proposals
    requires var p := FromExecution(s.tasks[k], result).value;
      WriteBundle(s, s.tasks[k], p, worker, now, result.invocations) == Ok(s')
    ensures AllWritten(s, s', k, s.tasks[k].attempt, now, result,
                       Release(s.tasks[k], Succeeded, now).(outputs := [result.document.proposalId]))
  {
    var p := FromExecution(s.tasks[k], result).value;
    WriteBundleIs(s, s.tasks[k], p, worker, now, result.invocations);
    assert s'.proposals[p.Key()] == p && s'.outbox[p.Key()] == FromProposal(p, now);
    WriteBundleKeepsInvocations(s, s', s.tasks[k], p, worker, now, result.invocations);
  }

  /** Completion moves the invocations, the proposal, the outbox row, the task, the index and
      the timeline together, or leaves the whole state as it was; a rejection is the latter. */
  lemma CompletionIsAllOrNothing(s: State, k: TaskKey, worker: string, attempt: int, now: int, result: ExecutionResult)
    requires Inv(s)
    ensures var (s', reply) := Complete(s, k, worker, attempt, now, result);
      || s' == s
      || (&& reply.TaskReply? && k in s.tasks && LiveLease(s.tasks[k], worker, attempt, now) && s.tasks[k].status == Running
          && AllWritten(s, s', k, attempt, now, result, reply.task))
    ensures var (s', reply) := Complete(s, k, worker, attempt, now, result); reply.Rejected? ==> s' == s
  {
    var s' := Complete(s, k, worker, attempt, now, result).0;
    if s' != s {
      assert TaskEntry(s, k) && LogEntry(s, k);
      WriteBundleWritesAll(s, s', k, worker, now, result);
    }
  }

  /** A proposal with the same bundle always finds its completed fence: the branch that reports
      a proposal without its completed task is unreachable. */
  lemma ReplayFindsItsFence(s: State, k: TaskKey, result: ExecutionResult)
    requires Inv(s) && k in s.tasks && FromExecution(s.tasks[k], result).Ok?
    requires var pk := AttemptKey(k.site, k.task, s.tasks[k].attempt);
      pk in s.proposals && s.proposals[pk].bundle == FromExecution(s.tasks[k], result).value.bundle
    ensures Replayed(s, result.invocations)
    ensures CompletedFence(s, s.tasks[k], s.tasks[k].attempt, FromExecution(s.tasks[k], result).value)
  {
    assert TaskEntry(s, k);
    assert ProposalEntry(s, AttemptKey(k.site, k.task, s.tasks[k].attempt));
  }

  lemma ReplayIn(s: State, k: TaskKey, t: Task, attempt: int, worker: string, now: int, result: ExecutionResult)
    requires Inv(s) && k in s.tasks && s.tasks[k] == t && t.attempt == attempt
    requires FromExecution(t, result).Ok?
    requires var pk := AttemptKey(k.site, k.task, attempt);
      pk in s.proposals && s.proposals[pk].bundle == FromExecution(t, result).value.bundle
    ensures Complete(s, k, worker, attempt, now, result) == (s, TaskReply(t))
  {
    ReplayFindsItsFence(s, k, result);
  }

  /** A completion that was accepted once is accepted forever: after any later run, resubmitting
      the same result for the same attempt, by any worker at any time, returns the same task and
      changes nothing. */
  lemma CompletionIsIdempotentForever(
    s: State, k: TaskKey, worker: string, attempt: int, now: int, result: ExecutionResult,
    later: seq<Call>, worker': string, now': int)
    requires Inv(s) && Valid(later)
    requires Complete(s, k, worker, attempt, now, result).1.TaskReply?
    ensures var (s1, reply) := Complete(s, k, worker, attempt, now, result);
      var s2 := Run(s1, later);
      Complete(s2, k, worker', attempt, now', result) == (s2, reply)
  {
    var (s1, reply) := Complete(s, k, worker, attempt, now, result);
    var s2 := Run(s1, later);
    var pk := AttemptKey(k.site, k.task, attempt);
    CompleteKeepsInv(s, k, worker, attempt, now, result);
    RunKeepsInv(s1, later);
    RunIsForward(s1, later);
    CompletionStored(s, k, worker, attempt, now, result);
    assert TaskForward(s1, s2, k);
    ReplayIn(s2, k, s1.tasks[k], attempt, worker', now', result);
  }

  lemma CompletionStored(s: State, k: TaskKey, worker: string, attempt: int, now: int, result: ExecutionResult)
    requires Inv(s) && Complete(s, k, worker, attempt, now, result).1.TaskReply?
    ensures var (s1, reply) := Complete(s, k, worker, attempt, now, result);
      var pk := AttemptKey(k.site, k.task, attempt);
      && k in s1.tasks && s1.tasks[k] == reply.task && reply.task.status == Succeeded && reply.task.attempt == attempt
      && FromExecution(s1.tasks[k], result).Ok?
      && pk in s1.proposals && s1.proposals[pk].bundle == FromExecution(s1.tasks[k], result).value.bundle
  {
    var s1 := Complete(s, k, worker, attempt, now, result).0;
    assert TaskEntry(s, k);
    if s1 != s {
      WriteBundleIs(s, s.tasks[k], FromExecution(s.tasks[k], result).value, worker, now, result.invocations);
    }
  }
}
