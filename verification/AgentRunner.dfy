/** AgentWorker.run_once after its claim, acting on the repository object, proved to do what
    AgentWorker.Finish says. */
module AgentRunner {
  import opened TaskModel
  import Spec = TaskSpec
  import opened AgentWorker
  import opened TaskRepository

  class Runner {
    const repository: AgentTaskRepository
    const worker: string

    constructor (repo: AgentTaskRepository, name: string)
      ensures repository == repo && worker == name
    {
      repository, worker := repo, name;
    }

    /** The inner try of the exception handler. */
    method ReportFailure(t: Task, clock: Clock, c: FailureClassification) returns (report: RunStatus)
      requires repository.Valid()
      modifies repository
      ensures repository.Valid()
      ensures (repository.Snapshot(), report) == FailRun(old(repository.Snapshot()), t, worker, clock, c)
    {
      var reply := repository.Fail(t.Key(), worker, t.attempt, clock.fail, clock.retryAt, c);
      if reply.TaskReply? {
        return RunFailed;
      }
      return if reply == Spec.Rejected(LeaseConflict) then RunLeaseLost else RunEscaped;
    }

    /** The end of a run in one thread: nothing comes between its calls. */
    method FinishRun(t: Task, clock: Clock, x: Execution) returns (report: RunStatus)
      requires repository.Valid()
      modifies repository
      ensures repository.Valid()
      ensures (repository.Snapshot(), report) == Finish(old(repository.Snapshot()), t, worker, clock, x, [])
    {
      match x
      case HeartbeatLost => return RunLeaseLost;
      case Escapes => return RunEscaped;
      case Raises(e) => report := ReportFailure(t, clock, Classify(e));
      case Executed(result) =>
        var reply := repository.CompleteWithProposal(t.Key(), worker, t.attempt, clock.complete, result);
        if reply.TaskReply? {
          return RunSucceeded;
        }
        if reply == Spec.Rejected(LeaseConflict) {
          return RunLeaseLost;
        }
        report := ReportFailure(t, clock, Classify(Validation));
    }
  }
}
