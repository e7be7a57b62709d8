/** Bounded work: the attempts left over all tasks are a conserved budget that only claims
    spend and only fresh submissions raise. */
module TaskBudget {
  import opened TaskModel
  import opened TaskSpec
  import opened TaskInvariant
  import opened TaskRuns

  function Left(t: Task): int { t.content.maxAttempts - t.attempt }

  /** Attempts left, summed over the table. */
  ghost function Budget(tasks: map<TaskKey, Task>): int
    decreases |tasks|
  {
    if tasks == map[] then 0
    else var k :| k in tasks; Left(tasks[k]) + Budget(tasks - {k})
  }

  lemma {:induction false} BudgetSplit(tasks: map<TaskKey, Task>, k: TaskKey)
    requires k in tasks
    ensures Budget(tasks) == Left(tasks[k]) + Budget(tasks - {k})
    decreases |tasks|
  {
    var j :| j in tasks && Budget(tasks) == Left(tasks[j]) + Budget(tasks - {j});
    if j != k {
      BudgetSplit(tasks - {j}, k);
      BudgetSplit(tasks - {k}, j);
      assert tasks - {j} - {k} == tasks - {k} - {j};
    }
  }

  lemma BudgetStore(tasks: map<TaskKey, Task>, k: TaskKey, t: Task)
    ensures Budget(tasks[k := t]) == Left(t) + Budget(tasks) - (if k in tasks then Left(tasks[k]) else 0)
  {
    BudgetSplit(tasks[k := t], k);
    assert tasks[k := t] - {k} == tasks - {k};
    if k in tasks {
      BudgetSplit(tasks, k);
    } else {
      assert tasks - {k} == tasks;
    }
  }

  lemma {:induction false} BudgetSame(a: map<TaskKey, Task>, b: map<TaskKey, Task>)
    requires a.Keys == b.Keys && forall k :: k in a ==> Left(a[k]) == Left(b[k])
    ensures Budget(a) == Budget(b)
    decreases |a|
  {
    if a == map[] {
      assert b == map[];
    } else {
      var k :| k in a;
      BudgetSplit(a, k);
      BudgetSplit(b, k);
      BudgetSame(a - {k}, b - {k});
    }
  }

  lemma {:induction false} BudgetNonNegative(tasks: map<TaskKey, Task>)
    requires forall k :: k in tasks ==> Left(tasks[k]) >= 0
    ensures Budget(tasks) >= 0
    decreases |tasks|
  {
    if tasks != map[] {
      var k :| k in tasks;
      BudgetSplit(tasks, k);
      BudgetNonNegative(tasks - {k});
    }
  }

  /** One for a claim that was granted. */
  ghost function Spent(s: State, c: Call): nat {
    var reply := Apply(s, c).1;
    if (c.ClaimCall? && reply.TaskReply?) || (c.ClaimForExecutionCall? && reply.ClaimReply?) then 1 else 0
  }

  /** The attempts a fresh submission brings. */
  ghost function Added(s: State, c: Call): int {
    if c.EnqueueCall? && Apply(s, c).0 != s then c.sub.content.maxAttempts else 0
  }

  lemma ReapGrantBudget(s: State, site: string, status: TaskStatus, worker: string, now: int, duration: int, k: TaskKey)
    requires TasksInv(s) && k in Candidates(Reap(s, site, now).tasks, site, now)
    ensures var r := Reap(s, site, now);
      Budget(Grant(r, r.tasks[k], status, worker, now, duration).tasks) == Budget(s.tasks) - 1
  {
    var r := Reap(s, site, now);
    ReapBudget(s, site, now);
    CandidatesHaveAttemptsLeft(s, site, now, k);
    assert TaskEntry(s, k);
    BudgetStore(r.tasks, k, Granted(r.tasks[k], status, worker, now, duration));
  }

  lemma ReapBudget(s: State, site: string, now: int)
    ensures Budget(Reap(s, site, now).tasks) == Budget(s.tasks)
  {
    BudgetSame(Reap(s, site, now).tasks, s.tasks);
  }

  lemma ClaimBudget(s: State, c: Call)
    requires Inv(s) && (c.ClaimCall? || c.ClaimForExecutionCall?)
    ensures Budget(Apply(s, c).0.tasks) + Spent(s, c) == Budget(s.tasks)
  {
    ReapBudget(s, c.site, c.now);
    if c.ClaimCall? {
      var k := ClaimShape(s, c.site, c.worker, c.now, c.duration);
      if k.Some? { ReapGrantBudget(s, c.site, Leased, c.worker, c.now, c.duration, k.value); }
    } else {
      var k := ClaimForExecutionShape(s, c.site, c.worker, c.now, c.duration);
      if k.Some? { ReapGrantBudget(s, c.site, Running, c.worker, c.now, c.duration, k.value); }
    }
  }

  lemma GuardedBudget(s: State, c: Call)
    requires Inv(s) && c.Guarded()
    ensures Budget(Apply(s, c).0.tasks) == Budget(s.tasks)
  {
    var s' := Apply(s, c).0;
    if s' != s {
      if c.CompleteCall? { CompleteShape(s, c); } else { GuardedShape(s, c); }
      BudgetStore(s.tasks, c.key, s'.tasks[c.key]);
    }
  }

  lemma EnqueueBudget(s: State, c: Call)
    requires c.EnqueueCall?
    ensures Budget(Apply(s, c).0.tasks) == Budget(s.tasks) + Added(s, c)
  {
    var t := FreshTask(c.sub, c.now);
    if Apply(s, c).0 != s {
      BudgetStore(s.tasks, t.Key(), t);
    }
  }

  /** One call: what is left plus what was spent is what was left plus what was added. */
  lemma CallConservesBudget(s: State, c: Call)
    requires Inv(s)
    ensures Budget(Apply(s, c).0.tasks) + Spent(s, c) == Budget(s.tasks) + Added(s, c)
  {
    if c.EnqueueCall? { EnqueueBudget(s, c); }
    else if c.Guarded() { GuardedBudget(s, c); }
    else { ClaimBudget(s, c); }
  }

  ghost function TotalSpent(s: State, calls: seq<Call>): nat
    decreases |calls|
  {
    if calls == [] then 0 else Spent(s, calls[0]) + TotalSpent(Apply(s, calls[0]).0, calls[1..])
  }

  ghost function TotalAdded(s: State, calls: seq<Call>): int
    decreases |calls|
  {
    if calls == [] then 0 else Added(s, calls[0]) + TotalAdded(Apply(s, calls[0]).0, calls[1..])
  }

  /** Over any run the books balance, so a fixed task set admits at most as many claims as it
      has attempts left. */
  lemma {:induction false} RunConservesBudget(s: State, calls: seq<Call>)
    requires Inv(s) && Valid(calls)
    ensures Budget(Run(s, calls).tasks) + TotalSpent(s, calls) == Budget(s.tasks) + TotalAdded(s, calls)
    ensures TotalSpent(s, calls) <= Budget(s.tasks) + TotalAdded(s, calls)
    decreases |calls|
  {
    if calls != [] {
      CallConservesBudget(s, calls[0]);
      ApplyKeepsInv(s, calls[0]);
      RunConservesBudget(Apply(s, calls[0]).0, calls[1..]);
    } else {
      forall k | k in s.tasks ensures Left(s.tasks[k]) >= 0 { assert TaskEntry(s, k); }
      BudgetNonNegative(s.tasks);
    }
  }
}
