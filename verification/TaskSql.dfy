/** The PostgreSQL twin of the claim, one transaction per call, written from its SQL: the
    candidate filter has `attempt < max_attempts`, the next timeline sequence is MAX + 1, and a
    dead-letter insert does nothing on conflict. On every reachable state it is the in-memory
    claim. */
module TaskSql {
  import opened Wrappers
  import opened TaskModel
  import opened TaskSpec
  import opened TaskTimeline
  import opened TaskInvariant

  datatype Tables = Tables(
    tasks: map<TaskKey, Task>, timeline: map<TaskKey, seq<Event>>,
    deadLetters: map<TaskKey, DeadLetterRecord>, payloads: map<TaskKey, StoredPayload>)

  function Project(s: State): Tables { Tables(s.tasks, s.timeline, s.deadLetters, s.payloads) }

  /** COALESCE(MAX(sequence) + 1, 0) over the task's rows. */
  function NextSequence(log: seq<Event>): nat {
    if log == [] then 0
    else
      var before := NextSequence(log[..|log|-1]);
      if before > log[|log|-1].sequence + 1 then before else log[|log|-1].sequence + 1
  }

  function Append(log: seq<Event>, t: Task, kind: EventType, now: int, actor: Option<string>): seq<Event> {
    log + [MakeEvent(t, NextSequence(log), kind, now, actor)]
  }

  function SqlReap(d: Tables, site: string, now: int): Tables {
    d.(tasks := map k | k in d.tasks :: ReapTask(d.tasks[k], site, now),
       deadLetters := (map k | k in d.tasks && Exhausted(d.tasks[k], site, now) ::
                         DeadRecord(d.tasks[k], now, Internal, LeaseExpiredMaxAttempts)) + d.deadLetters,
       timeline := map k | k in d.timeline ::
         if k in d.tasks && Exhausted(d.tasks[k], site, now)
         then Append(d.timeline[k], d.tasks[k], DeadLettered, now, None) else d.timeline[k])
  }

  function SqlCandidates(tasks: map<TaskKey, Task>, site: string, now: int): set<TaskKey> {
    set k | k in tasks && tasks[k].attempt < tasks[k].content.maxAttempts && Eligible(tasks[k], site, now)
  }

  function SqlGrant(d: Tables, k: TaskKey, status: TaskStatus, worker: string, now: int, duration: int): Tables
    requires k in d.tasks && k in d.timeline
  {
    var t := Granted(d.tasks[k], status, worker, now, duration);
    var leased := Append(d.timeline[k], t, LeasedEvent, now, Some(worker));
    d.(tasks := d.tasks[k := t],
       timeline := d.timeline[k := if status == Running then Append(leased, t, RunningEvent, now, Some(worker)) else leased])
  }

  ghost function SqlClaim(d: Tables, site: string, worker: string, now: int, duration: int): (Tables, Reply)
    requires d.tasks.Keys == d.timeline.Keys
  {
    if site == "" || worker == "" || duration <= 0 then (d, Rejected(ValidationError))
    else
      var r := SqlReap(d, site, now);
      var ks := SqlCandidates(r.tasks, site, now);
      if ks == {} then (r, NoTask)
      else
        var k := Least(r.tasks, ks);
        (SqlGrant(r, k, Leased, worker, now, duration), TaskReply(Granted(r.tasks[k], Leased, worker, now, duration)))
  }

  /** A payload that does not parse raises inside the transaction, which then rolls back. */
  ghost function SqlClaimForExecution(d: Tables, site: string, worker: string, now: int, duration: int): (Tables, Reply)
    requires d.tasks.Keys == d.timeline.Keys == d.payloads.Keys
  {
    if site == "" || worker == "" || duration <= 0 then (d, Rejected(ValidationError))
    else
      var r := SqlReap(d, site, now);
      var ks := SqlCandidates(r.tasks, site, now);
      if ks == {} then (r, NoTask)
      else
        var k := Least(r.tasks, ks);
        if r.payloads[k].DoesNotParse? then (d, Rejected(ValidationError))
        else (SqlGrant(r, k, Running, worker, now, duration),
              ClaimReply(Granted(r.tasks[k], Running, worker, now, duration), r.payloads[k].refs))
  }

  lemma {:induction false} NextSequenceIsLength(log: seq<Event>, t: Task)
    requires forall i :: 0 <= i < |log| ==> EventOf(log[i], i, t)
    ensures NextSequence(log) == |log|
  {
    if log != [] {
      assert EventOf(log[|log|-1], |log|-1, t);
      NextSequenceIsLength(log[..|log|-1], t);
    }
  }

  lemma ReapedTimelinesAgree(s: State, site: string, now: int)
    requires LogsInv(s)
    ensures SqlReap(Project(s), site, now).timeline == Reap(s, site, now).timeline
  {
    var r, q := Reap(s, site, now), SqlReap(Project(s), site, now);
    forall k | k in s.timeline ensures r.timeline[k] == q.timeline[k] {
      assert LogEntry(s, k);
      NextSequenceIsLength(s.timeline[k], s.tasks[k]);
    }
  }

  lemma ReapedDeadLettersAgree(s: State, site: string, now: int)
    requires TasksInv(s)
    ensures SqlReap(Project(s), site, now).deadLetters == Reap(s, site, now).deadLetters
  {
    forall k | k in s.tasks && Exhausted(s.tasks[k], site, now) ensures k !in s.deadLetters {
      assert TaskEntry(s, k);
    }
  }

  lemma ReapsAgree(s: State, site: string, now: int)
    requires Inv(s)
    ensures SqlReap(Project(s), site, now) == Project(Reap(s, site, now))
  {
    ReapedTimelinesAgree(s, site, now);
    ReapedDeadLettersAgree(s, site, now);
  }

  lemma CandidatesAgree(s: State, site: string, now: int)
    requires Inv(s)
    ensures var tasks := Reap(s, site, now).tasks; SqlCandidates(tasks, site, now) == Candidates(tasks, site, now)
  {
    forall k | k in Candidates(Reap(s, site, now).tasks, site, now)
      ensures k in SqlCandidates(Reap(s, site, now).tasks, site, now)
    {
      CandidatesHaveAttemptsLeft(s, site, now, k);
    }
  }

  lemma GrantsAgree(s: State, k: TaskKey, status: TaskStatus, worker: string, now: int, duration: int)
    requires Inv(s) && k in s.tasks && k in s.timeline
    ensures SqlGrant(Project(s), k, status, worker, now, duration) == Project(Grant(s, s.tasks[k], status, worker, now, duration))
  {
    assert TaskEntry(s, k) && LogEntry(s, k);
    var log := s.timeline[k];
    NextSequenceIsLength(log, s.tasks[k]);
    var t := Granted(s.tasks[k], status, worker, now, duration);
    var leased := log + [MakeEvent(t, |log|, LeasedEvent, now, Some(worker))];
    forall i | 0 <= i < |leased| ensures EventOf(leased[i], i, t) {
      if i < |log| { assert EventOf(log[i], i, s.tasks[k]); }
    }
    NextSequenceIsLength(leased, t);
  }

  lemma ClaimsAgreeOnSite(s: State, site: string, worker: string, now: int, duration: int)
    requires Inv(s) && site != ""
    ensures s.tasks.Keys == s.timeline.Keys
    ensures var (s', reply) := Claim(s, site, worker, now, duration);
      SqlClaim(Project(s), site, worker, now, duration) == (Project(s'), reply)
  {
    var r := Reap(s, site, now);
    ReapsAgree(s, site, now);
    ReapKeepsInv(s, site, now);
    CandidatesAgree(s, site, now);
    var ks := Candidates(r.tasks, site, now);
    if ks != {} {
      GrantsAgree(r, Least(r.tasks, ks), Leased, worker, now, duration);
    }
  }

  /** The arguments both claims refuse. */
  predicate BadLease(worker: string, duration: int) { worker == "" || duration <= 0 }

  /** On every reachable state the in-memory claim, which has no attempt filter, makes exactly the
      transition the SQL claim makes and replies alike, except for an empty site, which only SQL
      refuses. */
  lemma ClaimsAgree(s: State, site: string, worker: string, now: int, duration: int)
    requires Inv(s)
    ensures s.tasks.Keys == s.timeline.Keys
    ensures var (s', reply) := Claim(s, site, worker, now, duration);
      SqlClaim(Project(s), site, worker, now, duration) == (Project(s'), reply) <==> site != "" || BadLease(worker, duration)
  {
    if site != "" {
      ClaimsAgreeOnSite(s, site, worker, now, duration);
    } else if !BadLease(worker, duration) {
      ClaimAnswers(s, site, worker, now, duration);
    }
  }

  lemma ClaimAnswers(s: State, site: string, worker: string, now: int, duration: int)
    requires !BadLease(worker, duration)
    ensures !Claim(s, site, worker, now, duration).1.Rejected?
  {
  }

  /** Both report no task exactly when no task of the site is eligible with an attempt left. */
  lemma NoTaskIffNoneEligible(s: State, site: string, worker: string, now: int, duration: int)
    requires Inv(s) && worker != "" && duration > 0
    ensures Claim(s, site, worker, now, duration).1 == NoTask <==>
      forall k :: k in s.tasks ==> !(Eligible(s.tasks[k], site, now) && s.tasks[k].attempt < s.tasks[k].content.maxAttempts)
  {
    var r := Reap(s, site, now);
    var ks := Candidates(r.tasks, site, now);
    if ks != {} {
      var k :| k in ks;
      CandidatesHaveAttemptsLeft(s, site, now, k);
    }
    forall k | k in s.tasks && Eligible(s.tasks[k], site, now) && s.tasks[k].attempt < s.tasks[k].content.maxAttempts
      ensures k in ks
    {
      assert r.tasks[k] == ReapTask(s.tasks[k], site, now);
    }
  }

  /** The next task to run has a payload that does not parse. */
  ghost predicate NextDoesNotParse(s: State, site: string, now: int) {
    var r := Reap(s, site, now);
    var ks := Candidates(r.tasks, site, now);
    ks != {} && var k := Least(r.tasks, ks); k in r.payloads && r.payloads[k].DoesNotParse?
  }

  ghost predicate SomeExhausted(s: State, site: string, now: int) {
    exists k :: k in s.tasks && Exhausted(s.tasks[k], site, now)
  }

  /** The next task to run has a payload that parses. */
  ghost predicate NextParses(s: State, site: string, now: int) {
    var r := Reap(s, site, now);
    var ks := Candidates(r.tasks, site, now);
    ks != {} && var k := Least(r.tasks, ks); k in r.payloads && r.payloads[k].Parses?
  }

  lemma ExecutionClaimsAgreeOnSite(s: State, site: string, worker: string, now: int, duration: int)
    requires Inv(s) && site != "" && !BadLease(worker, duration)
    ensures s.tasks.Keys == s.timeline.Keys == s.payloads.Keys
    ensures var (s', reply) := ClaimForExecution(s, site, worker, now, duration);
      var (d, reply') := SqlClaimForExecution(Project(s), site, worker, now, duration);
      && reply == reply'
      && (d == Project(s') <==> !NextDoesNotParse(s, site, now) || !SomeExhausted(s, site, now))
  {
    var r := Reap(s, site, now);
    ReapsAgree(s, site, now);
    ReapKeepsInv(s, site, now);
    CandidatesAgree(s, site, now);
    var ks := Candidates(r.tasks, site, now);
    if NextDoesNotParse(s, site, now) {
      ReapIsIdentityIff(s, site, now);
    } else if ks != {} {
      GrantsAgree(r, Least(r.tasks, ks), Running, worker, now, duration);
    }
  }

  lemma GrantMoves(s: State, site: string, status: TaskStatus, worker: string, now: int, duration: int, k: TaskKey)
    requires TasksInv(s) && k in Candidates(Reap(s, site, now).tasks, site, now)
    ensures var r := Reap(s, site, now); Grant(r, r.tasks[k], status, worker, now, duration).tasks != s.tasks
  {
    var r := Reap(s, site, now);
    CandidatesHaveAttemptsLeft(s, site, now, k);
    assert TaskEntry(s, k);
    GrantIs(r, r.tasks[k], status, worker, now, duration);
    assert Grant(r, r.tasks[k], status, worker, now, duration).tasks[k].attempt == s.tasks[k].attempt + 1;
  }

  /** What the in-memory claim does for any site and valid arguments; SQL refuses the empty site. */
  lemma ClaimGoesOn(s: State, site: string, worker: string, now: int, duration: int)
    requires Inv(s) && !BadLease(worker, duration)
    ensures var (s', reply) := ClaimForExecution(s, site, worker, now, duration);
      && (reply == Rejected(ValidationError) <==> NextDoesNotParse(s, site, now))
      && (Project(s') == Project(s) <==> !SomeExhausted(s, site, now) && !NextParses(s, site, now))
  {
    var r := Reap(s, site, now);
    var ks := Candidates(r.tasks, site, now);
    ReapIsIdentityIff(s, site, now);
    if ks != {} {
      var k := Least(r.tasks, ks);
      assert LogEntry(s, k);
      GrantMoves(s, site, Running, worker, now, duration, k);
    }
  }

  /** The claims for execution reply alike unless the site is empty, which only SQL refuses. For a
      non-empty site their tables agree exactly when the next payload parses or there is nothing to
      reap: a payload that does not parse makes SQL roll the reap back while the in-memory repository
      keeps it. */
  lemma ClaimsForExecutionAgreeIff(s: State, site: string, worker: string, now: int, duration: int)
    requires Inv(s)
    ensures s.tasks.Keys == s.timeline.Keys == s.payloads.Keys
    ensures var (s', reply) := ClaimForExecution(s, site, worker, now, duration);
      var (d, reply') := SqlClaimForExecution(Project(s), site, worker, now, duration);
      && (reply == reply' <==> site != "" || BadLease(worker, duration) || NextDoesNotParse(s, site, now))
      && (d == Project(s') <==>
            if BadLease(worker, duration) then true
            else if site == "" then !SomeExhausted(s, site, now) && !NextParses(s, site, now)
            else !SomeExhausted(s, site, now) || !NextDoesNotParse(s, site, now))
  {
    if !BadLease(worker, duration) {
      if site != "" {
        ExecutionClaimsAgreeOnSite(s, site, worker, now, duration);
      } else {
        ClaimGoesOn(s, site, worker, now, duration);
      }
    }
  }

  lemma ReapOfNone(s: State, site: string, now: int)
    requires !SomeExhausted(s, site, now)
    ensures Project(Reap(s, site, now)) == Project(s)
  {
    var r := Reap(s, site, now);
    assert r.tasks == s.tasks;
    assert r.timeline == s.timeline;
    assert r.deadLetters == s.deadLetters;
  }

  lemma ReapIsIdentityIff(s: State, site: string, now: int)
    ensures Project(Reap(s, site, now)) == Project(s) <==> !SomeExhausted(s, site, now)
  {
    if SomeExhausted(s, site, now) {
      var k :| k in s.tasks && Exhausted(s.tasks[k], site, now);
      assert Reap(s, site, now).tasks[k].status == DeadLetter != s.tasks[k].status;
    } else {
      ReapOfNone(s, site, now);
    }
  }
}
