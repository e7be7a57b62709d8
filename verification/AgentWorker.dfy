/** AgentWorker.run_once as a client of the task queue. Between its calls any other calls may
    happen, its own heartbeats among them. */
module AgentWorker {
  import opened Wrappers
  import opened TaskModel
  import opened TaskSpec
  import opened TaskInvariant
  import opened TaskRuns
  import opened TaskTheorems

  /** An exception of the resolver, the executor or the repository other than a lost lease.
      `policy` tells whether its text mentions a policy. */
  datatype Raised =
    | BudgetExceeded | ContextMismatch | Validation | AgentExecution(policy: bool) | PlainValueError(policy: bool)

  function Classify(e: Raised): FailureClassification {
    match e
    case BudgetExceeded => BudgetExhausted
    case ContextMismatch => InvalidOutput
    case Validation => InvalidOutput
    case AgentExecution(policy) => if policy then PolicyDenied else InvalidOutput
    case PlainValueError(policy) => if policy then PolicyDenied else Internal
  }

  /** How resolving and executing under the heartbeat ended. `Escapes` is an exception that run_once
      does not catch. */
  datatype Execution = Executed(result: ExecutionResult) | Raises(e: Raised) | HeartbeatLost | Escapes

  datatype RunStatus = RunSucceeded | RunFailed | RunLeaseLost | RunEscaped

  /** Clock readings of the end of a run: for the completion, for the failure and for its retry. */
  datatype Clock = Clock(complete: int, fail: int, retryAt: int)

  function FailRun(s: State, t: Task, worker: string, clock: Clock, c: FailureClassification): (State, RunStatus) {
    var (s', reply) := Fail(s, t.Key(), worker, t.attempt, clock.fail, clock.retryAt, c);
    (s', if reply.TaskReply? then RunFailed else if reply == Rejected(LeaseConflict) then RunLeaseLost else RunEscaped)
  }

  /** run_once after the claim of `t`. `gap` are the calls that others make between a completion that
      was refused and the failure the worker then reports. */
  ghost function Finish(s: State, t: Task, worker: string, clock: Clock, x: Execution, gap: seq<Call>): (State, RunStatus) {
    match x
    case HeartbeatLost => (s, RunLeaseLost)
    case Escapes => (s, RunEscaped)
    case Raises(e) => FailRun(s, t, worker, clock, Classify(e))
    case Executed(result) =>
      var (s', reply) := Complete(s, t.Key(), worker, t.attempt, clock.complete, result);
      Conclude(s', reply, FailRun(Run(s', gap), t, worker, clock, Classify(Validation)))
  }

  /** What follows the reply to the completion; `failed` is what reporting a failure would come to. */
  function Conclude(s: State, reply: Reply, failed: (State, RunStatus)): (State, RunStatus) {
    if reply.TaskReply? then (s, RunSucceeded)
    else if reply == Rejected(LeaseConflict) then (s, RunLeaseLost)
    else failed
  }

  function FailureOf(x: Execution): FailureClassification {
    if x.Raises? then Classify(x.e) else InvalidOutput
  }

  /** What a failed run leaves: the claimed attempt, released, with its classification, waiting for
      the retry unless that was the last attempt. */
  predicate FailedAs(s: State, t: Task, clock: Clock, c: FailureClassification) {
    && t.Key() in s.tasks
    && var now := s.tasks[t.Key()];
    && now.attempt == t.attempt && now.failure == Some(c)
    && now.status == (if t.attempt < now.content.maxAttempts then Recheck else DeadLetter)
    && (now.status == Recheck ==> now.dueAt == clock.retryAt)
  }

  /** The attempt is stored as succeeded with the proposal of `result` and its outbox row. */
  predicate SucceededAs(s: State, t: Task, result: ExecutionResult) {
    var k := AttemptKey(t.content.site, t.taskId, t.attempt);
    && t.Key() in s.tasks && s.tasks[t.Key()].status == Succeeded && s.tasks[t.Key()].attempt == t.attempt
    && s.tasks[t.Key()].outputs == [result.document.proposalId]
    && k in s.outbox && k in s.proposals && s.proposals[k].bundle == BundleDigest(t.taskId, t.attempt, result.document, result.invocations)
  }

  lemma DeadLetterLeavesFailed(s: State, t: Task, worker: string, clock: Clock, c: FailureClassification)
    requires t.Key() in s.tasks && s.tasks[t.Key()].Key() == t.Key() && s.tasks[t.Key()].attempt == t.attempt
    requires t.attempt >= s.tasks[t.Key()].content.maxAttempts
    ensures FailedAs(MoveToDeadLetter(s, s.tasks[t.Key()], clock.fail, c, MaxAttemptsExhausted, Some(worker)), t, clock, c)
  {
    MoveToDeadLetterIs(s, s.tasks[t.Key()], clock.fail, c, MaxAttemptsExhausted, Some(worker));
  }

  lemma FailReportIsTrue(s: State, t: Task, worker: string, clock: Clock, c: FailureClassification)
    requires Inv(s)
    ensures var (s', report) := FailRun(s, t, worker, clock, c);
      if report == RunFailed then FailedAs(s', t, clock, c) else s' == s
  {
    if FailRun(s, t, worker, clock, c).1 == RunFailed {
      assert TaskEntry(s, t.Key());
      if s.tasks[t.Key()].attempt >= s.tasks[t.Key()].content.maxAttempts { DeadLetterLeavesFailed(s, t, worker, clock, c); }
    }
  }

  lemma CompleteReportIsTrue(s: State, t: Task, worker: string, now: int, result: ExecutionResult)
    requires Inv(s)
    ensures var (s', reply) := Complete(s, t.Key(), worker, t.attempt, now, result);
      (reply.TaskReply? ==> SucceededAs(s', t, result)) && (!reply.TaskReply? ==> s' == s)
  {
    var k := t.Key();
    var (s', reply) := Complete(s, k, worker, t.attempt, now, result);
    if reply.TaskReply? {
      assert TaskEntry(s, k);
      CompletionStored(s, k, worker, t.attempt, now, result);
      CompleteKeepsInv(s, k, worker, t.attempt, now, result);
      assert ProposalEntry(s', AttemptKey(k.site, k.task, t.attempt));
    }
  }

  /** What a report says about the queue the run leaves; with no report of success or failure, the
      end of the run wrote nothing to the queue as it was then. */
  predicate Truthful(s: State, mid: State, s': State, report: RunStatus, t: Task, clock: Clock, x: Execution) {
    match report
    case RunSucceeded => x.Executed? && SucceededAs(s', t, x.result)
    case RunFailed => FailedAs(s', t, clock, FailureOf(x))
    case _ => s' == s || (x.Executed? && s' == mid)
  }

  lemma RaisedReportIsTrue(s: State, t: Task, worker: string, clock: Clock, e: Raised)
    requires Inv(s)
    ensures var (s', report) := Finish(s, t, worker, clock, Raises(e), []); Truthful(s, s, s', report, t, clock, Raises(e))
  {
    FailReportIsTrue(s, t, worker, clock, Classify(e));
  }

  lemma NeverSucceeds(s: State, t: Task, worker: string, clock: Clock, c: FailureClassification)
    ensures FailRun(s, t, worker, clock, c).1 != RunSucceeded
  {
  }

  /** The outcome of reporting a failure to the queue `mid` is told truthfully. */
  predicate Told(mid: State, failed: (State, RunStatus), t: Task, clock: Clock) {
    failed.1 != RunSucceeded && if failed.1 == RunFailed then FailedAs(failed.0, t, clock, InvalidOutput) else failed.0 == mid
  }

  lemma FailedRunIsTold(mid: State, t: Task, worker: string, clock: Clock)
    requires Inv(mid)
    ensures Told(mid, FailRun(mid, t, worker, clock, InvalidOutput), t, clock)
  {
    FailReportIsTrue(mid, t, worker, clock, InvalidOutput);
    NeverSucceeds(mid, t, worker, clock, InvalidOutput);
  }

  lemma RejectionIsTrue(s: State, mid: State, reply: Reply, failed: (State, RunStatus), t: Task, clock: Clock, result: ExecutionResult)
    requires Told(mid, failed, t, clock) && !reply.TaskReply?
    ensures var r := Conclude(s, reply, failed); Truthful(s, mid, r.0, r.1, t, clock, Executed(result))
  {
  }

  lemma ExecutedReportIsTrue(s: State, t: Task, worker: string, clock: Clock, result: ExecutionResult, gap: seq<Call>)
    requires Inv(s) && Valid(gap)
    ensures var (s', report) := Finish(s, t, worker, clock, Executed(result), gap);
      Truthful(s, Run(s, gap), s', report, t, clock, Executed(result))
  {
    CompleteReportIsTrue(s, t, worker, clock.complete, result);
    var reply := Complete(s, t.Key(), worker, t.attempt, clock.complete, result).1;
    if !reply.TaskReply? {
      RunKeepsInv(s, gap);
      FailedRunIsTold(Run(s, gap), t, worker, clock);
      RejectionIsTrue(s, Run(s, gap), reply, FailRun(Run(s, gap), t, worker, clock, InvalidOutput), t, clock, result);
    }
  }

  /** Whatever happened since the claim, and whatever comes between a refused completion and the
      failure that follows, the report is true of the queue as the run leaves it, and a lost lease or an
      escaping exception means that the end of the run wrote nothing. */
  lemma ReportIsTrue(s: State, t: Task, worker: string, clock: Clock, x: Execution, gap: seq<Call>)
    requires Inv(s) && Valid(gap)
    ensures var (s', report) := Finish(s, t, worker, clock, x, gap); Truthful(s, Run(s, gap), s', report, t, clock, x)
  {
    match x
    case Raises(e) => RaisedReportIsTrue(s, t, worker, clock, e);
    case Executed(result) => ExecutedReportIsTrue(s, t, worker, clock, result, gap);
    case _ =>
  }

  /** The failure a failed run stores: an exceeded budget exhausts it, a policy mentioned in the text of an
      error that is not a validation denies it, any other execution error and every validation, a refused
      completion included, is invalid output, and what is left is internal. */
  lemma FailureIsClassified(s: State, t: Task, worker: string, clock: Clock, x: Execution, gap: seq<Call>)
    requires Inv(s) && Valid(gap) && Finish(s, t, worker, clock, x, gap).1 == RunFailed
    ensures var tasks := Finish(s, t, worker, clock, x, gap).0.tasks;
      && t.Key() in tasks && tasks[t.Key()].failure.Some?
      && var stored := tasks[t.Key()].failure.value;
      && (x == Raises(BudgetExceeded) ==> stored == BudgetExhausted)
      && (x == Raises(ContextMismatch) || x == Raises(Validation) || x.Executed? ==> stored == InvalidOutput)
      && (x == Raises(AgentExecution(true)) || x == Raises(PlainValueError(true)) ==> stored == PolicyDenied)
      && (x == Raises(AgentExecution(false)) ==> stored == InvalidOutput)
      && (x == Raises(PlainValueError(false)) ==> stored == Internal)
  {
    ReportIsTrue(s, t, worker, clock, x, gap);
  }

  /** Once the claimed attempt is over, the worker writes nothing, and can only report that it lost the
      lease, that an exception escaped, or the success that is already stored for exactly its result. */
  lemma LateWorkersCannotClaimCredit(s: State, t: Task, worker: string, clock: Clock, x: Execution, gap: seq<Call>)
    requires Inv(s) && Valid(gap) && Over(s, t.Key(), t.attempt)
    ensures var (s', report) := Finish(s, t, worker, clock, x, gap);
      && (s' == s || s' == Run(s, gap)) && report != RunFailed
      && (report == RunSucceeded ==> x.Executed? && s' == s && SucceededAs(s, t, x.result))
  {
    if x.Executed? {
      OverCannotComplete(s, t, worker, clock.complete, x.result);
      CompleteReportIsTrue(s, t, worker, clock.complete, x.result);
    }
    OverCannotFail(s, t, worker, clock, FailureOf(x));
    NeverSucceeds(s, t, worker, clock, FailureOf(x));
    LaterCannotFail(s, t, worker, clock, FailureOf(x), gap);
    NeverSucceeds(Run(s, gap), t, worker, clock, FailureOf(x));
  }

  lemma LaterCannotFail(s: State, t: Task, worker: string, clock: Clock, c: FailureClassification, gap: seq<Call>)
    requires Inv(s) && Valid(gap) && Over(s, t.Key(), t.attempt)
    ensures var (s', report) := FailRun(Run(s, gap), t, worker, clock, c); report != RunFailed && s' == Run(s, gap)
  {
    RunKeepsInv(s, gap);
    RunIsForward(s, gap);
    OverIsForever(s, Run(s, gap), t.Key(), t.attempt);
    OverCannotFail(Run(s, gap), t, worker, clock, c);
  }

  lemma OverCannotComplete(s: State, t: Task, worker: string, now: int, result: ExecutionResult)
    requires Inv(s) && Over(s, t.Key(), t.attempt)
    ensures Complete(s, t.Key(), worker, t.attempt, now, result).0 == s
  {
    StaleCallChangesNothing(s, CompleteCall(t.Key(), worker, t.attempt, now, result), t.Key(), t.attempt);
  }

  lemma OverCannotFail(s: State, t: Task, worker: string, clock: Clock, c: FailureClassification)
    requires Inv(s) && Over(s, t.Key(), t.attempt)
    ensures FailRun(s, t, worker, clock, c).1 != RunFailed && FailRun(s, t, worker, clock, c).0 == s
  {
    assert TaskEntry(s, t.Key());
  }

  lemma SuccessIsForever(s: State, s': State, t: Task, result: ExecutionResult)
    requires SucceededAs(s, t, result) && Forward(s, s')
    ensures SucceededAs(s', t, result)
  {
    assert TaskForward(s, s', t.Key());
  }

  lemma SuccessWasCompleted(s: State, t: Task, worker: string, clock: Clock, x: Execution, gap: seq<Call>)
    requires Finish(s, t, worker, clock, x, gap).1 == RunSucceeded
    ensures x.Executed?
    ensures var c := Complete(s, t.Key(), worker, t.attempt, clock.complete, x.result);
      c.1.TaskReply? && Finish(s, t, worker, clock, x, gap).0 == c.0
  {
  }

  lemma SuccessStands(s: State, t: Task, worker: string, clock: Clock, x: Execution, gap: seq<Call>, later: seq<Call>)
    requires Inv(s) && Valid(later) && Finish(s, t, worker, clock, x, gap).1 == RunSucceeded
    ensures x.Executed? && SucceededAs(Run(Finish(s, t, worker, clock, x, gap).0, later), t, x.result)
  {
    SuccessWasCompleted(s, t, worker, clock, x, gap);
    CompleteReportIsTrue(s, t, worker, clock.complete, x.result);
    CompleteKeepsInv(s, t.Key(), worker, t.attempt, clock.complete, x.result);
    var s' := Complete(s, t.Key(), worker, t.attempt, clock.complete, x.result).0;
    RunIsForward(s', later);
    SuccessIsForever(s', Run(s', later), t, x.result);
  }

  /** A whole run of the worker: claim, any calls of anyone in between, the end, and any calls
      afterwards. A reported success is stored for good. */
  lemma ReportedSuccessStands(s: State, site: string, worker: string, now: int, duration: int, between: seq<Call>,
                              clock: Clock, x: Execution, gap: seq<Call>, later: seq<Call>)
    requires Inv(s) && Valid(between) && Valid(later) && ClaimForExecution(s, site, worker, now, duration).1.ClaimReply?
    ensures var (s1, reply) := ClaimForExecution(s, site, worker, now, duration);
      var (s2, report) := Finish(Run(s1, between), reply.claimed, worker, clock, x, gap);
      report == RunSucceeded ==> x.Executed? && SucceededAs(Run(s2, later), reply.claimed, x.result)
  {
    var (s1, reply) := ClaimForExecution(s, site, worker, now, duration);
    ClaimKeepsInv(s, site, worker, now, duration);
    RunKeepsInv(s1, between);
    if Finish(Run(s1, between), reply.claimed, worker, clock, x, gap).1 == RunSucceeded {
      SuccessStands(Run(s1, between), reply.claimed, worker, clock, x, gap, later);
    }
  }
}
