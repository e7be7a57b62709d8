/** A run after which the two claims for execution part ways: one task holds an exhausted lease, and
    the only other task has a payload that does not parse. */
module TaskSqlExample {
  import opened Wrappers
  import opened TaskModel
  import opened TaskSpec
  import opened TaskInvariant
  import opened TaskRuns
  import opened TaskSql

  // ---- one task --------------------------------------------------------------------------------

  lemma ReapLeavesQueued(s: State, k: TaskKey, site: string, now: int)
    requires k in s.tasks && s.tasks[k].status == Queued
    ensures k in Reap(s, site, now).tasks && Reap(s, site, now).tasks[k] == s.tasks[k]
  {
  }

  lemma ReapKeepsKeys(s: State, site: string, now: int)
    ensures Reap(s, site, now).tasks.Keys == s.tasks.Keys && Reap(s, site, now).idempotency.Keys == s.idempotency.Keys
  {
  }

  lemma OnlyCandidate(tasks: map<TaskKey, Task>, site: string, now: int, k: TaskKey)
    requires k in tasks && Eligible(tasks[k], site, now)
    requires forall c :: c in tasks && c != k ==> !Eligible(tasks[c], site, now)
    ensures Candidates(tasks, site, now) == {k} && Least(tasks, Candidates(tasks, site, now)) == k
  {
    var ks := Candidates(tasks, site, now);
    assert ks == {k};
    assert Least(tasks, ks) in ks;
  }

  /** Claiming from a store whose only task is queued and due leases that task. */
  lemma ClaimsTheOnlyTask(s: State, k: TaskKey, worker: string, now: int, duration: int)
    requires s.tasks.Keys == {k} && s.tasks[k].Key() == k && s.tasks[k].status == Queued && s.tasks[k].dueAt <= now
    requires worker != "" && duration > 0
    ensures k in Reap(s, k.site, now).tasks && Reap(s, k.site, now).tasks[k] == s.tasks[k]
    ensures Claim(s, k.site, worker, now, duration).0 == Grant(Reap(s, k.site, now), s.tasks[k], Leased, worker, now, duration)
  {
    ReapLeavesQueued(s, k, k.site, now);
    ReapKeepsKeys(s, k.site, now);
    OnlyCandidate(Reap(s, k.site, now).tasks, k.site, now, k);
  }

  lemma GrantedOnly(s: State, k: TaskKey, worker: string, now: int, duration: int)
    requires s.tasks.Keys == {k} && s.tasks[k].Key() == k && s.tasks[k].status == Queued && s.tasks[k].dueAt <= now
    requires worker != "" && duration > 0
    ensures var s' := Claim(s, k.site, worker, now, duration).0;
      && s'.tasks.Keys == {k} && s'.tasks[k] == Granted(s.tasks[k], Leased, worker, now, duration)
      && s'.idempotency.Keys == s.idempotency.Keys + {s.tasks[k].Idem()}
  {
    ClaimsTheOnlyTask(s, k, worker, now, duration);
    ReapKeepsKeys(s, k.site, now);
    GrantIs(Reap(s, k.site, now), s.tasks[k], Leased, worker, now, duration);
  }

  lemma ReapKillsExhausted(s: State, k: TaskKey, site: string, now: int)
    requires k in s.tasks && Exhausted(s.tasks[k], site, now)
    ensures k in Reap(s, site, now).tasks && !Eligible(Reap(s, site, now).tasks[k], site, now)
  {
    assert Reap(s, site, now).tasks[k] == Dead(s.tasks[k], now, Internal);
  }

  lemma ReapLeavesOne(s: State, x: TaskKey, y: TaskKey, now: int)
    requires s.tasks.Keys == {x, y} && x != y && Exhausted(s.tasks[x], y.site, now)
    requires s.tasks[y].Key() == y && s.tasks[y].status == Queued && s.tasks[y].dueAt <= now
    ensures var tasks := Reap(s, y.site, now).tasks;
      && y in tasks && Eligible(tasks[y], y.site, now)
      && forall c :: c in tasks && c != y ==> !Eligible(tasks[c], y.site, now)
  {
    ReapLeavesQueued(s, y, y.site, now);
    ReapKeepsKeys(s, y.site, now);
    ReapKillsExhausted(s, x, y.site, now);
  }

  /** When one of two tasks holds an exhausted lease and the other is due but unreadable, the
      unreadable one is next. */
  lemma NextIsUnreadable(s: State, x: TaskKey, y: TaskKey, now: int)
    requires s.tasks.Keys == {x, y} && x != y && Exhausted(s.tasks[x], y.site, now)
    requires s.tasks[y].Key() == y && s.tasks[y].status == Queued && s.tasks[y].dueAt <= now
    requires y in s.payloads && s.payloads[y].DoesNotParse?
    ensures SomeExhausted(s, y.site, now) && NextDoesNotParse(s, y.site, now)
  {
    ReapLeavesOne(s, x, y, now);
    OnlyCandidate(Reap(s, y.site, now).tasks, y.site, now, y);
  }

  // ---- the run ---------------------------------------------------------------------------------

  function Example(id: string, payload: StoredPayload): Submission {
    Submission(id, SubmissionDigest("s", "p", id, "a", "t", "r", 0, 50, 1, "c", "d", None, payload))
  }

  const EXHAUSTED: Submission := Example("x", Parses("refs"))
  const UNREADABLE: Submission := Example("y", DoesNotParse("junk"))

  const X: TaskKey := TaskKey("s", "x")
  const Y: TaskKey := TaskKey("s", "y")

  const CALLS: seq<Call> := [EnqueueCall(EXHAUSTED, 0), ClaimCall("s", "w", 0, 1), EnqueueCall(UNREADABLE, 1)]

  lemma FirstTwoCalls()
    ensures var s := Claim(Enqueue(EMPTY, EXHAUSTED, 0).0, "s", "w", 0, 1).0;
      && s.tasks.Keys == {X} && s.tasks[X] == Granted(FreshTask(EXHAUSTED, 0), Leased, "w", 0, 1)
      && IdemKey("s", "y") !in s.idempotency
  {
    var s1, t := Enqueue(EMPTY, EXHAUSTED, 0).0, FreshTask(EXHAUSTED, 0);
    assert s1.tasks == map[X := t] && s1.idempotency.Keys == {t.Idem()};
    GrantedOnly(s1, X, "w", 0, 1);
    assert "x"[0] != "y"[0];
  }

  lemma LastCall(s: State)
    requires s.tasks.Keys == {X} && IdemKey("s", "y") !in s.idempotency
    ensures var s' := Enqueue(s, UNREADABLE, 1).0;
      s'.tasks == s.tasks[Y := FreshTask(UNREADABLE, 1)] && Y in s'.payloads && s'.payloads[Y] == DoesNotParse("junk") && X != Y
  {
    assert "x"[0] != "y"[0];
  }

  lemma ThreeCalls(s: State, a: Call, b: Call, c: Call)
    ensures Run(s, [a, b, c]) == Apply(Apply(Apply(s, a).0, b).0, c).0
  {
    assert [a, b, c][1..] == [b, c] && [b, c][1..] == [c] && [c][1..] == [];
    assert Run(s, [a, b, c]) == Run(Apply(s, a).0, [b, c]);
    assert Run(Apply(s, a).0, [b, c]) == Run(Apply(Apply(s, a).0, b).0, [c]);
  }

  lemma TheState() returns (s: State)
    ensures s == Run(EMPTY, CALLS) && SomeExhausted(s, "s", 2) && NextDoesNotParse(s, "s", 2)
  {
    FirstTwoCalls();
    var s2 := Claim(Enqueue(EMPTY, EXHAUSTED, 0).0, "s", "w", 0, 1).0;
    LastCall(s2);
    s := Enqueue(s2, UNREADABLE, 1).0;
    ThreeCalls(EMPTY, CALLS[0], CALLS[1], CALLS[2]);
    NextIsUnreadable(s, X, Y, 2);
  }

  lemma TheStateIsInv()
    ensures Inv(Run(EMPTY, CALLS))
  {
    EmptyIsInv();
    assert EXHAUSTED.Valid() && UNREADABLE.Valid();
    RunKeepsInv(EMPTY, CALLS);
  }

  /** On this reachable state both claims reply with a validation error, but the in-memory
      repository has dead-lettered the exhausted task and the database has not. */
  lemma ClaimsForExecutionDisagree()
    ensures var s := Run(EMPTY, CALLS);
      && s.tasks.Keys == s.timeline.Keys == s.payloads.Keys
      && SqlClaimForExecution(Project(s), "s", "w", 2, 1).0 != Project(ClaimForExecution(s, "s", "w", 2, 1).0)
  {
    var s := TheState();
    TheStateIsInv();
    ClaimsForExecutionAgreeIff(s, "s", "w", 2, 1);
  }
}
