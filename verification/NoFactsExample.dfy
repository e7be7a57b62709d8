/** A result without fact references: completed in memory, rolled back in PostgreSQL. */
module NoFactsExample {
  import opened Wrappers
  import opened TaskModel
  import opened TaskSpec
  import opened TaskRuns
  import opened TaskSqlExample
  import opened TaskBundleExample
  import opened TaskSqlCompletion

  const NO_FACTS: ExecutionResult := ExecutionResult(DOCUMENT.(factRefs := []), [])

  lemma DocumentStillFits(t: Task)
    requires t == Granted(FreshTask(EXHAUSTED, 0), Running, "w", 0, 1)
    ensures FromExecution(t, NO_FACTS).Ok?
  {
  }

  lemma AcceptedInMemory(s: State)
    requires X in s.tasks && s.tasks[X] == Granted(FreshTask(EXHAUSTED, 0), Running, "w", 0, 1) && NoBundles(s)
    ensures Complete(s, X, "w", 1, 0, NO_FACTS).1.TaskReply? && Complete(s, X, "w", 1, 0, NO_FACTS).0 != s
  {
    LiveFor(s.tasks[X]);
    DocumentStillFits(s.tasks[X]);
    var p := FromExecution(s.tasks[X], NO_FACTS).value;
    assert WriteBundle(s, s.tasks[X], p, "w", 0, []).Ok?;
    assert Complete(s, X, "w", 1, 0, NO_FACTS).0.tasks[X].status == Succeeded;
  }

  const TWO_CALLS: seq<Call> := [SUBMIT, TAKE]

  lemma TwoCalls() returns (s: State)
    ensures s == Run(EMPTY, TWO_CALLS) && Valid(TWO_CALLS)
    ensures X in s.tasks && s.tasks[X] == Granted(FreshTask(EXHAUSTED, 0), Running, "w", 0, 1) && NoBundles(s)
  {
    var s1 := Apply(EMPTY, SUBMIT).0;
    Taken(s1);
    s := Apply(s1, TAKE).0;
    assert TWO_CALLS[1..] == [TAKE] && [TAKE][1..] == [];
    assert Run(s1, [TAKE]) == Run(s, []);
    assert EXHAUSTED.Valid();
  }

  lemma CompletionsDisagree()
    ensures var s := Run(EMPTY, TWO_CALLS);
      && s.tasks.Keys == s.timeline.Keys
      && Complete(s, X, "w", 1, 0, NO_FACTS).1.TaskReply?
      && SqlComplete(RowsOf(s), X, "w", 1, 0, NO_FACTS) == (RowsOf(s), None)
  {
    var s := TwoCalls();
    AcceptedInMemory(s);
    CompletionsAgreeIff(TWO_CALLS, X, "w", 1, 0, NO_FACTS);
    Refused(s);
  }

  lemma Refused(s: State)
    requires X in s.tasks && s.tasks[X] == Granted(FreshTask(EXHAUSTED, 0), Running, "w", 0, 1)
    requires s.tasks.Keys == s.timeline.Keys
    ensures SqlComplete(RowsOf(s), X, "w", 1, 0, NO_FACTS) == (RowsOf(s), None)
  {
    LiveFor(s.tasks[X]);
    DocumentStillFits(s.tasks[X]);
    assert ProposalRefused(RowsOf(s), FromExecution(s.tasks[X], NO_FACTS).value);
  }
}
