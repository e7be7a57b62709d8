/** What every operation of the task repository keeps. Each table's invariant is one predicate
    per entry, quantified with that predicate as its trigger. */
module TaskInvariant {
  import opened Wrappers
  import opened TaskModel
  import opened TaskSpec
  import opened TaskTimeline

  /** One stored task on its own. */
  predicate TaskOK(t: Task) {
    && 1 <= t.content.maxAttempts <= 100
    && 0 <= t.attempt <= t.content.maxAttempts
    && (t.Holding() <==> t.leaseOwner.Some?) && (t.Holding() <==> t.leaseExpiresAt.Some?)
    && (t.Holding() ==> t.attempt >= 1)
    && (t.status == Queued ==> t.attempt == 0)
    && (t.status == Recheck ==> 1 <= t.attempt < t.content.maxAttempts)
    && (t.status == Succeeded ==> t.attempt >= 1)
    && (t.status == DeadLetter ==> t.attempt == t.content.maxAttempts && t.failure.Some?)
    && t.status != Failed && t.status != Cancelled
  }

  predicate DeadMatches(t: Task, d: DeadLetterRecord) {
    && d.taskId == t.taskId && d.site == t.content.site
    && d.attempts == t.attempt == t.content.maxAttempts
    && t.failure == Some(d.classification)
    && d.causation == t.content.causation && d.correlation == t.content.correlation
  }

  /** A stored task is well formed, and in the dead-letter table exactly when it is
      dead-lettered. */
  predicate TaskEntry(s: State, k: TaskKey) {
    && k in s.tasks && s.tasks[k].Key() == k && TaskOK(s.tasks[k])
    && (k in s.deadLetters <==> s.tasks[k].status == DeadLetter)
    && (k in s.deadLetters ==> DeadMatches(s.tasks[k], s.deadLetters[k]))
  }

  ghost predicate TasksInv(s: State) {
    && s.deadLetters.Keys <= s.tasks.Keys
    && forall k {:trigger TaskEntry(s, k)} :: k in s.tasks ==> TaskEntry(s, k)
  }

  /** A stored task has a payload and a timeline that tells its story faithfully. */
  predicate LogEntry(s: State, k: TaskKey) {
    k in s.tasks && k in s.timeline && k in s.payloads && Faithful(s.timeline[k], s.tasks[k])
  }

  ghost predicate LogsInv(s: State) {
    && s.timeline.Keys == s.tasks.Keys && s.payloads.Keys == s.tasks.Keys
    && forall k {:trigger LogEntry(s, k)} :: k in s.tasks ==> LogEntry(s, k)
  }

  /** The index holds the task's current version under its idempotency key. */
  predicate Indexed(s: State, k: TaskKey) {
    k in s.tasks && s.tasks[k].Idem() in s.idempotency && s.idempotency[s.tasks[k].Idem()] == s.tasks[k]
  }

  predicate IndexEntry(s: State, i: IdemKey) {
    && i in s.idempotency && s.idempotency[i].Idem() == i
    && s.idempotency[i].Key() in s.tasks && s.tasks[s.idempotency[i].Key()] == s.idempotency[i]
  }

  /** The idempotency index holds the current version of exactly the stored tasks. */
  ghost predicate IndexInv(s: State) {
    && (forall k {:trigger Indexed(s, k)} :: k in s.tasks ==> Indexed(s, k))
    && (forall i {:trigger IndexEntry(s, i)} :: i in s.idempotency ==> IndexEntry(s, i))
  }

  /** A proposal never exists without its completed task, its outbox row and its invocations. */
  predicate ProposalEntry(s: State, k: AttemptKey) {
    && k in s.proposals && k in s.outbox && k in s.proposalIdempotency
    && var p := s.proposals[k];
    && p.Key() == k && s.proposalIdempotency[k] == p
    && TaskKey(k.site, k.task) in s.tasks
    && CompletedFence(s, s.tasks[TaskKey(k.site, k.task)], k.attempt, p)
    && s.outbox[k] == FromProposal(p, s.outbox[k].createdAt)
    && p.bundle.document.proposalId == p.proposalId
    && Replayed(s, p.bundle.invocations)
  }

  /** Proposal ids are not shared within a site. */
  predicate IdsDiffer(s: State, j: AttemptKey, k: AttemptKey) {
    j in s.proposals && k in s.proposals && j != k && j.site == k.site ==>
      s.proposals[j].proposalId != s.proposals[k].proposalId
  }

  ghost predicate ProposalsInv(s: State) {
    && s.outbox.Keys == s.proposals.Keys && s.proposalIdempotency.Keys == s.proposals.Keys
    && (forall k {:trigger ProposalEntry(s, k)} :: k in s.proposals ==> ProposalEntry(s, k))
    && (forall j, k {:trigger IdsDiffer(s, j, k)} :: IdsDiffer(s, j, k))
  }

  predicate InvocationEntry(s: State, k: InvocationKey) {
    && k in s.invocations && s.invocations[k].Key() == k
    && s.invocations[k].Idem() in s.invocationIdempotency
    && s.invocationIdempotency[s.invocations[k].Idem()] == s.invocations[k]
  }

  predicate InvocationIdemEntry(s: State, k: InvocationKey) {
    && k in s.invocationIdempotency && s.invocationIdempotency[k].Idem() == k
    && s.invocationIdempotency[k].Key() in s.invocations
    && s.invocations[s.invocationIdempotency[k].Key()] == s.invocationIdempotency[k]
  }

  /** The two invocation indexes mirror each other. */
  ghost predicate InvocationsInv(s: State) {
    && (forall k {:trigger InvocationEntry(s, k)} :: k in s.invocations ==> InvocationEntry(s, k))
    && (forall k {:trigger InvocationIdemEntry(s, k)} :: k in s.invocationIdempotency ==> InvocationIdemEntry(s, k))
  }

  function ParentKey(t: Task): TaskKey
    requires t.content.parent.Some?
  {
    TaskKey(t.content.site, t.content.parent.value)
  }

  /** The task's parent, if any, is a stored task of the same site with a smaller rank. */
  predicate ParentBelow(tasks: map<TaskKey, Task>, rank: map<TaskKey, nat>, k: TaskKey) {
    k in tasks && k in rank && (tasks[k].content.parent.Some? ==>
      ParentKey(tasks[k]) in tasks && ParentKey(tasks[k]) in rank && rank[ParentKey(tasks[k])] < rank[k])
  }

  ghost predicate Ranked(tasks: map<TaskKey, Task>, rank: map<TaskKey, nat>) {
    && rank.Keys == tasks.Keys
    && forall k {:trigger ParentBelow(tasks, rank, k)} :: k in tasks ==> ParentBelow(tasks, rank, k)
  }

  /** Parent links stay in the site and are well-founded. */
  ghost predicate ParentsInv(s: State) {
    exists rank: map<TaskKey, nat> :: Ranked(s.tasks, rank)
  }

  ghost predicate Inv(s: State) {
    TasksInv(s) && LogsInv(s) && IndexInv(s) && ProposalsInv(s) && InvocationsInv(s) && ParentsInv(s)
  }

  lemma EmptyIsInv()
    ensures Inv(EMPTY)
  {
    assert Ranked(EMPTY.tasks, map[]);
  }

  // ---- one shared step: replace a task and extend its log ---------------------------------

  /** `s'` differs from `s` in the task tables by a new version `t` of one stored task. */
  ghost predicate Replaces(s: State, s': State, t: Task, log: seq<Event>) {
    var k := t.Key();
    && k in s.tasks && s.tasks[k].content == t.content
    && s'.tasks == s.tasks[k := t]
    && s'.idempotency == s.idempotency[t.Idem() := t]
    && s'.timeline == s.timeline[k := log]
    && s'.payloads == s.payloads
    && TaskOK(t) && Faithful(log, t)
    && s.tasks[k].status != DeadLetter
    && (t.status != DeadLetter ==> s'.deadLetters == s.deadLetters)
    && (t.status == DeadLetter ==>
          && k in s'.deadLetters && DeadMatches(t, s'.deadLetters[k])
          && s'.deadLetters == s.deadLetters[k := s'.deadLetters[k]])
  }

  lemma ReplaceKeepsTasks(s: State, s': State, t: Task, log: seq<Event>)
    requires TasksInv(s) && Replaces(s, s', t, log)
    ensures TasksInv(s')
  {
    forall k | k in s'.tasks ensures TaskEntry(s', k) {
      assert TaskEntry(s, k);
    }
  }

  lemma ReplaceKeepsLogs(s: State, s': State, t: Task, log: seq<Event>)
    requires LogsInv(s) && Replaces(s, s', t, log)
    ensures LogsInv(s')
  {
    forall k | k in s'.tasks ensures LogEntry(s', k) {
      assert LogEntry(s, k);
    }
  }

  lemma ReplaceKeepsIndex(s: State, s': State, t: Task, log: seq<Event>)
    requires TasksInv(s) && IndexInv(s) && Replaces(s, s', t, log)
    ensures IndexInv(s')
  {
    assert Indexed(s, t.Key()) && TaskEntry(s, t.Key());
    forall k | k in s'.tasks ensures Indexed(s', k) {
      assert Indexed(s, k) && TaskEntry(s, k);
    }
    forall i | i in s'.idempotency ensures IndexEntry(s', i) {
      assert IndexEntry(s, i);
    }
  }

  lemma ReplaceKeepsParents(s: State, s': State, t: Task, log: seq<Event>)
    requires ParentsInv(s) && Replaces(s, s', t, log)
    ensures ParentsInv(s')
  {
    var rank: map<TaskKey, nat> :| Ranked(s.tasks, rank);
    forall k | k in s'.tasks ensures ParentBelow(s'.tasks, rank, k) {
      assert ParentBelow(s.tasks, rank, k);
    }
    assert Ranked(s'.tasks, rank);
  }

  ghost predicate SameBundles(s: State, s': State) {
    && s'.proposals == s.proposals && s'.proposalIdempotency == s.proposalIdempotency
    && s'.outbox == s.outbox
    && s'.invocations == s.invocations && s'.invocationIdempotency == s.invocationIdempotency
  }

  /** Proposals refer only to succeeded tasks, so changing other tasks disturbs none. */
  lemma SameBundlesKeepProposals(s: State, s': State)
    requires ProposalsInv(s) && InvocationsInv(s) && SameBundles(s, s')
    requires forall k :: k in s.tasks && s.tasks[k].status == Succeeded ==> k in s'.tasks && s'.tasks[k] == s.tasks[k]
    ensures ProposalsInv(s') && InvocationsInv(s')
  {
    forall k | k in s'.proposals ensures ProposalEntry(s', k) {
      assert ProposalEntry(s, k);
    }
    forall j, k ensures IdsDiffer(s', j, k) { assert IdsDiffer(s, j, k); }
    SameInvocationsKeepInv(s, s');
  }

  lemma ReplaceKeepsInv(s: State, s': State, t: Task, log: seq<Event>)
    requires Inv(s) && Replaces(s, s', t, log) && SameBundles(s, s')
    requires s.tasks[t.Key()].status != Succeeded
    ensures Inv(s')
  {
    ReplaceKeepsTasks(s, s', t, log);
    ReplaceKeepsLogs(s, s', t, log);
    ReplaceKeepsIndex(s, s', t, log);
    ReplaceKeepsParents(s, s', t, log);
    SameBundlesKeepProposals(s, s');
  }

  // ---- preservation, operation by operation -----------------------------------------------

  lemma {:induction false} RankBound(rank: map<TaskKey, nat>) returns (top: nat)
    ensures forall k :: k in rank ==> rank[k] < top
    decreases |rank|
  {
    if rank == map[] {
      top := 0;
    } else {
      var x :| x in rank;
      var rest := rank - {x};
      var r := RankBound(rest);
      top := if r > rank[x] then r else rank[x] + 1;
      forall k | k in rank ensures rank[k] < top {
        if k != x { assert k in rest; }
      }
    }
  }

  lemma EnqueueKeepsParents(s: State, t: Task)
    requires ParentsInv(s) && t.Key() !in s.tasks
    requires t.content.parent.Some? ==> ParentKey(t) in s.tasks
    ensures ParentsInv(Store(s, t))
  {
    var rank: map<TaskKey, nat> :| Ranked(s.tasks, rank);
    var top := RankBound(rank);
    var rank' := rank[t.Key() := top];
    var tasks' := s.tasks[t.Key() := t];
    forall k | k in tasks' ensures ParentBelow(tasks', rank', k) {
      if k != t.Key() { assert ParentBelow(s.tasks, rank, k); }
    }
    assert Ranked(tasks', rank');
  }

  /** `s'` stores the fresh task `t` with its first event. */
  ghost predicate Adds(s: State, s': State, t: Task, now: int) {
    && t.Key() !in s.tasks && t.Idem() !in s.idempotency
    && TaskOK(t) && t.status == Queued && t.leaseOwner == None
    && s'.tasks == s.tasks[t.Key() := t] && s'.idempotency == s.idempotency[t.Idem() := t]
    && s'.payloads.Keys == s.payloads.Keys + {t.Key()} && s'.deadLetters == s.deadLetters
    && s'.timeline == s.timeline[t.Key() := [MakeEvent(t, 0, Created, now, None)]]
  }

  lemma AddKeepsTasks(s: State, s': State, t: Task, now: int)
    requires TasksInv(s) && IndexInv(s) && Adds(s, s', t, now)
    ensures TasksInv(s') && IndexInv(s')
  {
    forall k | k in s'.tasks ensures TaskEntry(s', k) {
      if k != t.Key() { assert TaskEntry(s, k); }
    }
    forall k | k in s'.tasks ensures Indexed(s', k) {
      if k != t.Key() { assert Indexed(s, k); }
    }
    forall i | i in s'.idempotency ensures IndexEntry(s', i) {
      if i != t.Idem() { assert IndexEntry(s, i); }
    }
  }

  lemma AddKeepsLogs(s: State, s': State, t: Task, now: int)
    requires LogsInv(s) && Adds(s, s', t, now)
    ensures LogsInv(s')
  {
    var log := [MakeEvent(t, 0, Created, now, None)];
    assert log[..0] == [];
    assert Faithful(log, t);
    forall k | k in s'.tasks ensures LogEntry(s', k) {
      if k != t.Key() { assert LogEntry(s, k); }
    }
  }

  /** What an accepted submission changes. */
  lemma EnqueueAdds(s: State, sub: Submission, now: int)
    requires sub.Valid() && Enqueue(s, sub, now).0 != s
    ensures var s', t := Enqueue(s, sub, now).0, FreshTask(sub, now);
      && Adds(s, s', t, now) && SameBundles(s, s')
      && s'.tasks == Store(s, t).tasks && (t.content.parent.Some? ==> ParentKey(t) in s.tasks)
  {
  }

  lemma AddKeepsInv(s: State, s': State, t: Task, now: int)
    requires Inv(s) && Adds(s, s', t, now) && SameBundles(s, s') && ParentsInv(s')
    ensures Inv(s')
  {
    AddKeepsTasks(s, s', t, now);
    AddKeepsLogs(s, s', t, now);
    SameBundlesKeepProposals(s, s');
  }

  lemma EnqueueKeepsInv(s: State, sub: Submission, now: int)
    requires Inv(s) && sub.Valid()
    ensures Inv(Enqueue(s, sub, now).0)
  {
    var s', t := Enqueue(s, sub, now).0, FreshTask(sub, now);
    if s' != s {
      EnqueueAdds(s, sub, now);
      EnqueueKeepsParents(s, t);
      AddKeepsInv(s, s', t, now);
    }
  }

  lemma ReapKeepsTasks(s: State, site: string, now: int)
    requires TasksInv(s)
    ensures TasksInv(Reap(s, site, now))
  {
    var r := Reap(s, site, now);
    forall k | k in r.tasks ensures TaskEntry(r, k) {
      assert TaskEntry(s, k);
    }
  }

  lemma ReapKeepsLogs(s: State, site: string, now: int)
    requires TasksInv(s) && LogsInv(s)
    ensures LogsInv(Reap(s, site, now))
  {
    var r := Reap(s, site, now);
    forall k | k in r.tasks ensures LogEntry(r, k) {
      assert LogEntry(s, k);
      var t := s.tasks[k];
      if Exhausted(t, site, now) {
        FaithfulSnoc(s.timeline[k], t, r.tasks[k], MakeEvent(t, |s.timeline[k]|, DeadLettered, now, None));
      }
    }
  }

  lemma ReapKeepsIndex(s: State, site: string, now: int)
    requires IndexInv(s)
    ensures IndexInv(Reap(s, site, now))
  {
    var r := Reap(s, site, now);
    forall k | k in r.tasks ensures Indexed(r, k) { assert Indexed(s, k); }
    forall i | i in r.idempotency ensures IndexEntry(r, i) { assert IndexEntry(s, i); }
  }

  lemma ReapKeepsParents(s: State, site: string, now: int)
    requires ParentsInv(s)
    ensures ParentsInv(Reap(s, site, now))
  {
    var tasks := Reap(s, site, now).tasks;
    var rank: map<TaskKey, nat> :| Ranked(s.tasks, rank);
    forall k | k in tasks ensures ParentBelow(tasks, rank, k) { assert ParentBelow(s.tasks, rank, k); }
    assert Ranked(tasks, rank);
  }

  lemma ReapKeepsInv(s: State, site: string, now: int)
    requires Inv(s)
    ensures Inv(Reap(s, site, now))
  {
    var r := Reap(s, site, now);
    ReapKeepsTasks(s, site, now);
    ReapKeepsLogs(s, site, now);
    ReapKeepsIndex(s, site, now);
    ReapKeepsParents(s, site, now);
    SameBundlesKeepProposals(s, r);
  }

  /** After a reap every candidate still has an attempt left. */
  lemma CandidatesHaveAttemptsLeft(s: State, site: string, now: int, k: TaskKey)
    requires TasksInv(s)
    requires k in Candidates(Reap(s, site, now).tasks, site, now)
    ensures k in s.tasks && Reap(s, site, now).tasks[k] == s.tasks[k]
    ensures Eligible(s.tasks[k], site, now) && s.tasks[k].attempt < s.tasks[k].content.maxAttempts
  {
    assert Reap(s, site, now).tasks[k] == ReapTask(s.tasks[k], site, now);
    assert TaskEntry(s, k);
  }

  function GrantedLog(log: seq<Event>, g: Task, now: int, worker: string): seq<Event> {
    var leased := log + [MakeEvent(g, |log|, LeasedEvent, now, Some(worker))];
    if g.status == Running then leased + [MakeEvent(g, |log| + 1, RunningEvent, now, Some(worker))] else leased
  }

  /** Granting a claim: the new version and its one or two new events. */
  lemma GrantIsFaithful(log: seq<Event>, t: Task, status: TaskStatus, worker: string, now: int, duration: int)
    requires Faithful(log, t) && TaskOK(t) && t.attempt < t.content.maxAttempts
    requires t.status in {Queued, Recheck, Leased, Running} && status in {Leased, Running}
    ensures var g := Granted(t, status, worker, now, duration); TaskOK(g) && Faithful(GrantedLog(log, g, now, worker), g)
  {
    var g := Granted(t, status, worker, now, duration);
    var lease := MakeEvent(g, |log|, LeasedEvent, now, Some(worker));
    FaithfulSnoc(log, t, g.(status := Leased), lease);
    if status == Running {
      FaithfulSnoc(log + [lease], g.(status := Leased), g, MakeEvent(g, |log| + 1, RunningEvent, now, Some(worker)));
    }
  }

  /** What a grant changes. */
  lemma GrantIs(s: State, t: Task, status: TaskStatus, worker: string, now: int, duration: int)
    ensures var s', g := Grant(s, t, status, worker, now, duration), Granted(t, status, worker, now, duration);
      s' == s.(tasks := s.tasks[t.Key() := g], idempotency := s.idempotency[t.Idem() := g],
               timeline := s.timeline[t.Key() := GrantedLog(EventsOf(s, t.Key()), g, now, worker)])
  {
    var s', g := Grant(s, t, status, worker, now, duration), Granted(t, status, worker, now, duration);
    assert s'.timeline == s.timeline[t.Key() := GrantedLog(EventsOf(s, t.Key()), g, now, worker)];
  }

  lemma GrantKeepsInv(s: State, k: TaskKey, status: TaskStatus, worker: string, now: int, duration: int)
    requires Inv(s) && k in s.tasks && s.tasks[k].attempt < s.tasks[k].content.maxAttempts
    requires s.tasks[k].status in {Queued, Recheck, Leased, Running} && status in {Leased, Running}
    ensures Inv(Grant(s, s.tasks[k], status, worker, now, duration))
  {
    assert TaskEntry(s, k) && LogEntry(s, k);
    var g := Granted(s.tasks[k], status, worker, now, duration);
    GrantIsFaithful(s.timeline[k], s.tasks[k], status, worker, now, duration);
    GrantIs(s, s.tasks[k], status, worker, now, duration);
    ReplaceKeepsInv(s, Grant(s, s.tasks[k], status, worker, now, duration), g, GrantedLog(s.timeline[k], g, now, worker));
  }

  /** A claim does nothing, only reaps, or reaps and grants one candidate. */
  lemma ClaimShape(s: State, site: string, worker: string, now: int, duration: int) returns (k: Option<TaskKey>)
    ensures var (s', reply) := Claim(s, site, worker, now, duration);
      var r := Reap(s, site, now);
      match k
      case None => (s' == s && reply == Rejected(ValidationError)) || (s' == r && reply == NoTask)
      case Some(c) => c in Candidates(r.tasks, site, now) && s' == Grant(r, r.tasks[c], Leased, worker, now, duration)
                      && reply == TaskReply(Granted(r.tasks[c], Leased, worker, now, duration))
  {
    var r := Reap(s, site, now);
    var ks := Candidates(r.tasks, site, now);
    k := if worker == "" || duration <= 0 || ks == {} then None else Some(Least(r.tasks, ks));
  }

  lemma ClaimForExecutionShape(s: State, site: string, worker: string, now: int, duration: int) returns (k: Option<TaskKey>)
    ensures var (s', reply) := ClaimForExecution(s, site, worker, now, duration);
      var r := Reap(s, site, now);
      match k
      case None => (s' == s && reply == Rejected(ValidationError)) ||
                   (s' == r && (reply == NoTask || reply == Rejected(ValidationError)))
      case Some(c) => c in Candidates(r.tasks, site, now) && s' == Grant(r, r.tasks[c], Running, worker, now, duration)
                      && reply.ClaimReply? && reply.claimed == Granted(r.tasks[c], Running, worker, now, duration)
  {
    var r := Reap(s, site, now);
    var ks := Candidates(r.tasks, site, now);
    k := None;
    if worker != "" && duration > 0 && ks != {} {
      var c := Least(r.tasks, ks);
      if c in r.payloads && r.payloads[c].Parses? { k := Some(c); }
    }
  }

  lemma ReapGrantKeepsInv(s: State, site: string, status: TaskStatus, worker: string, now: int, duration: int, k: TaskKey)
    requires Inv(s) && k in Candidates(Reap(s, site, now).tasks, site, now) && status in {Leased, Running}
    ensures var r := Reap(s, site, now); Inv(Grant(r, r.tasks[k], status, worker, now, duration))
  {
    ReapKeepsInv(s, site, now);
    CandidatesHaveAttemptsLeft(s, site, now, k);
    GrantKeepsInv(Reap(s, site, now), k, status, worker, now, duration);
  }

  lemma LeaseClaimKeepsInv(s: State, site: string, worker: string, now: int, duration: int)
    requires Inv(s)
    ensures Inv(Claim(s, site, worker, now, duration).0)
  {
    ReapKeepsInv(s, site, now);
    var k := ClaimShape(s, site, worker, now, duration);
    if k.Some? { ReapGrantKeepsInv(s, site, Leased, worker, now, duration, k.value); }
  }

  lemma ExecutionClaimKeepsInv(s: State, site: string, worker: string, now: int, duration: int)
    requires Inv(s)
    ensures Inv(ClaimForExecution(s, site, worker, now, duration).0)
  {
    ReapKeepsInv(s, site, now);
    var k := ClaimForExecutionShape(s, site, worker, now, duration);
    if k.Some? { ReapGrantKeepsInv(s, site, Running, worker, now, duration, k.value); }
  }

  lemma ClaimKeepsInv(s: State, site: string, worker: string, now: int, duration: int)
    requires Inv(s)
    ensures Inv(Claim(s, site, worker, now, duration).0)
    ensures Inv(ClaimForExecution(s, site, worker, now, duration).0)
  {
    LeaseClaimKeepsInv(s, site, worker, now, duration);
    ExecutionClaimKeepsInv(s, site, worker, now, duration);
  }

  /** `t` is what the held task `t0` becomes when event `kind` ends or advances its attempt. */
  predicate Advances(t0: Task, t: Task, kind: EventType) {
    && t0.Holding() && t.taskId == t0.taskId && t.content == t0.content && TaskOK(t)
    && Allowed(t0.status, kind) && !kind.LeasedEvent?
    && t.attempt == t0.attempt
    && match kind
       case RunningEvent => t.status == Running && t.leaseOwner == t0.leaseOwner
       case RecheckScheduled => t.status == Recheck
       case SucceededEvent => t.status == Succeeded
       case _ => t.status == DeadLetter
  }

  lemma AdvanceIsFaithful(log: seq<Event>, t0: Task, t: Task, kind: EventType, now: int, worker: string)
    requires Faithful(log, t0) && Advances(t0, t, kind)
    ensures Faithful(log + [MakeEvent(t, |log|, kind, now, Some(worker))], t)
  {
    FaithfulSnoc(log, t0, t, MakeEvent(t, |log|, kind, now, Some(worker)));
  }

  lemma AdvanceKeepsInv(s: State, k: TaskKey, t: Task, kind: EventType, now: int, worker: string)
    requires Inv(s) && k in s.tasks && Advances(s.tasks[k], t, kind) && t.status != DeadLetter
    ensures Inv(Log(Store(s, t), t, kind, now, Some(worker)))
  {
    assert TaskEntry(s, k) && LogEntry(s, k);
    AdvanceIsFaithful(s.timeline[k], s.tasks[k], t, kind, now, worker);
    ReplaceKeepsInv(s, Log(Store(s, t), t, kind, now, Some(worker)), t,
                    s.timeline[k] + [MakeEvent(t, |s.timeline[k]|, kind, now, Some(worker))]);
  }

  lemma MoveToDeadLetterIs(s: State, t: Task, now: int, c: FailureClassification, reason: DeadLetterReason, actor: Option<string>)
    ensures var s', dead := MoveToDeadLetter(s, t, now, c, reason, actor), Dead(t, now, c);
      && SameBundles(s, s') && s'.payloads == s.payloads
      && s'.tasks == s.tasks[t.Key() := dead] && s'.idempotency == s.idempotency[t.Idem() := dead]
      && s'.deadLetters == s.deadLetters[t.Key() := DeadRecord(t, now, c, reason)]
      && s'.timeline == s.timeline[t.Key() := EventsOf(s, t.Key()) + [MakeEvent(dead, |EventsOf(s, t.Key())|, DeadLettered, now, actor)]]
  {
  }

  lemma MoveToDeadLetterKeepsInv(s: State, k: TaskKey, now: int, c: FailureClassification, reason: DeadLetterReason, worker: string)
    requires Inv(s) && k in s.tasks && s.tasks[k].Holding() && s.tasks[k].attempt >= s.tasks[k].content.maxAttempts
    ensures Inv(MoveToDeadLetter(s, s.tasks[k], now, c, reason, Some(worker)))
  {
    assert TaskEntry(s, k) && LogEntry(s, k);
    var t, s' := Dead(s.tasks[k], now, c), MoveToDeadLetter(s, s.tasks[k], now, c, reason, Some(worker));
    var log := s.timeline[k] + [MakeEvent(t, |s.timeline[k]|, DeadLettered, now, Some(worker))];
    AdvanceIsFaithful(s.timeline[k], s.tasks[k], t, DeadLettered, now, worker);
    MoveToDeadLetterIs(s, s.tasks[k], now, c, reason, Some(worker));
    assert DeadMatches(t, s'.deadLetters[k]);
    ReplaceKeepsInv(s, s', t, log);
  }

  lemma StartKeepsInv(s: State, k: TaskKey, worker: string, attempt: int, now: int)
    requires Inv(s)
    ensures Inv(Start(s, k, worker, attempt, now).0)
  {
    if Start(s, k, worker, attempt, now).0 != s {
      assert TaskEntry(s, k);
      AdvanceKeepsInv(s, k, s.tasks[k].(status := Running, updatedAt := now), RunningEvent, now, worker);
    }
  }

  lemma HeartbeatKeepsInv(s: State, k: TaskKey, worker: string, attempt: int, now: int, duration: int)
    requires Inv(s)
    ensures Inv(Heartbeat(s, k, worker, attempt, now, duration).0)
  {
    if duration > 0 && k in s.tasks && LiveLease(s.tasks[k], worker, attempt, now) {
      assert TaskEntry(s, k) && LogEntry(s, k);
      var t := s.tasks[k].(leaseExpiresAt := Some(now + duration), updatedAt := now);
      var log := s.timeline[k];
      forall i | 0 <= i < |log| ensures EventOf(log[i], i, t) { assert EventOf(log[i], i, s.tasks[k]); }
      ReplaceKeepsInv(s, Heartbeat(s, k, worker, attempt, now, duration).0, t, log);
    }
  }

  lemma SucceedKeepsInv(s: State, k: TaskKey, worker: string, attempt: int, now: int, outputs: seq<string>)
    requires Inv(s)
    ensures Inv(Succeed(s, k, worker, attempt, now, outputs).0)
  {
    if Succeed(s, k, worker, attempt, now, outputs).0 != s {
      assert TaskEntry(s, k);
      AdvanceKeepsInv(s, k, Release(s.tasks[k], Succeeded, now).(outputs := outputs), SucceededEvent, now, worker);
    }
  }

  lemma FailKeepsInv(s: State, k: TaskKey, worker: string, attempt: int, now: int, retryAt: int, c: FailureClassification)
    requires Inv(s)
    ensures Inv(Fail(s, k, worker, attempt, now, retryAt, c).0)
  {
    if Fail(s, k, worker, attempt, now, retryAt, c).0 != s {
      assert TaskEntry(s, k);
      var t := s.tasks[k];
      if t.attempt >= t.content.maxAttempts {
        MoveToDeadLetterKeepsInv(s, k, now, c, MaxAttemptsExhausted, worker);
      } else {
        AdvanceKeepsInv(s, k, Release(t, Recheck, now).(dueAt := retryAt, failure := Some(c)), RecheckScheduled, now, worker);
      }
    }
  }

  // ---- completion -------------------------------------------------------------------------

  /** Only the two invocation indexes differ, and every record of `s` is still there. */
  ghost predicate InvocationsGrew(s: State, s': State) {
    && s' == s.(invocations := s'.invocations, invocationIdempotency := s'.invocationIdempotency)
    && forall k :: k in s.invocations ==> k in s'.invocations && s'.invocations[k] == s.invocations[k]
  }

  lemma AppendInvocationGrows(s: State, t: Task, p: Proposal, r: Invocation)
    requires InvocationsInv(s) && AppendInvocation(s, t, p, r).Ok?
    ensures var s' := AppendInvocation(s, t, p, r).value;
      InvocationsInv(s') && InvocationsGrew(s, s') && r.Key() in s'.invocations && s'.invocations[r.Key()] == r
  {
    var s' := AppendInvocation(s, t, p, r).value;
    if r.Idem() in s.invocationIdempotency {
      assert InvocationIdemEntry(s, r.Idem());
    } else {
      forall k | k in s'.invocations ensures InvocationEntry(s', k) {
        if k != r.Key() { assert InvocationEntry(s, k); }
      }
      forall k | k in s'.invocationIdempotency ensures InvocationIdemEntry(s', k) {
        if k != r.Idem() { assert InvocationIdemEntry(s, k); }
      }
    }
  }

  lemma {:induction false} AppendInvocationsGrows(s: State, t: Task, p: Proposal, rs: seq<Invocation>)
    requires InvocationsInv(s) && AppendInvocations(s, t, p, rs).Ok?
    ensures var s' := AppendInvocations(s, t, p, rs).value;
      InvocationsInv(s') && InvocationsGrew(s, s') && Replayed(s', rs)
    decreases |rs|
  {
    if rs != [] {
      var shorter := rs[..|rs|-1];
      AppendInvocationsGrows(s, t, p, shorter);
      var s1 := AppendInvocations(s, t, p, shorter).value;
      AppendInvocationGrows(s1, t, p, rs[|rs|-1]);
      var s' := AppendInvocations(s, t, p, rs).value;
      forall i | 0 <= i < |rs| ensures rs[i].Key() in s'.invocations && s'.invocations[rs[i].Key()] == rs[i] {
        if i < |rs| - 1 { assert shorter[i] == rs[i]; }
      }
    }
  }

  /** What a successful bundle write is: grown invocations, one new proposal and outbox row,
      the completed task and its last event. */
  lemma WriteBundleIs(s: State, t: Task, p: Proposal, worker: string, now: int, rs: seq<Invocation>)
    requires ProposalsInv(s) && InvocationsInv(s) && p.Key() !in s.proposals
    requires WriteBundle(s, t, p, worker, now, rs).Ok?
    ensures var s' := WriteBundle(s, t, p, worker, now, rs).value;
      var s1 := s.(invocations := s'.invocations, invocationIdempotency := s'.invocationIdempotency);
      var done := Release(t, Succeeded, now).(outputs := [p.proposalId]);
      && InvocationsInv(s1) && InvocationsGrew(s, s1) && Replayed(s1, rs)
      && !ProposalIdUsed(s, p)
      && s' == Log(Store(s1.(proposals := s.proposals[p.Key() := p],
                             proposalIdempotency := s.proposalIdempotency[p.Key() := p],
                             outbox := s.outbox[p.Key() := FromProposal(p, now)]), done),
                   done, SucceededEvent, now, Some(worker))
  {
    AppendInvocationsGrows(s, t, p, rs);
  }

  /** `s'` adds proposal `p` with its outbox row, its invocations and its completed task. */
  ghost predicate AddsProposal(s: State, s': State, p: Proposal, now: int) {
    var k := TaskKey(p.site, p.taskId);
    && p.Key() !in s.proposals && !ProposalIdUsed(s, p)
    && s'.proposals == s.proposals[p.Key() := p]
    && s'.proposalIdempotency == s.proposalIdempotency[p.Key() := p]
    && s'.outbox == s.outbox[p.Key() := FromProposal(p, now)]
    && (forall i :: i in s.invocations ==> i in s'.invocations && s'.invocations[i] == s.invocations[i])
    && Replayed(s', p.bundle.invocations) && p.bundle.document.proposalId == p.proposalId
    && k in s.tasks && s.tasks[k].status != Succeeded
    && k in s'.tasks && s'.tasks == s.tasks[k := s'.tasks[k]] && s'.tasks[k].Key() == k
    && s'.tasks[k].status == Succeeded && s'.tasks[k].attempt == p.taskAttempt
    && s'.tasks[k].outputs == [p.proposalId]
  }

  lemma AddKeepsEntry(s: State, s': State, p: Proposal, now: int, k: AttemptKey)
    requires AddsProposal(s, s', p, now) && k in s'.proposals
    requires k in s.proposals ==> ProposalEntry(s, k) && TaskEntry(s, TaskKey(k.site, k.task))
    ensures ProposalEntry(s', k)
  {
    if k in s.proposals {
      var rs := s.proposals[k].bundle.invocations;
      assert Replayed(s, rs) && Replayed(s', rs);
    }
  }

  lemma AddKeepsEntries(s: State, s': State, p: Proposal, now: int)
    requires TasksInv(s) && ProposalsInv(s) && AddsProposal(s, s', p, now)
    ensures forall k {:trigger ProposalEntry(s', k)} :: k in s'.proposals ==> ProposalEntry(s', k)
  {
    forall k | k in s'.proposals ensures ProposalEntry(s', k) {
      if k in s.proposals { assert ProposalEntry(s, k) && TaskEntry(s, TaskKey(k.site, k.task)); }
      AddKeepsEntry(s, s', p, now, k);
    }
  }

  lemma AddKeepsIds(s: State, s': State, p: Proposal, now: int)
    requires ProposalsInv(s) && AddsProposal(s, s', p, now)
    ensures forall j, k {:trigger IdsDiffer(s', j, k)} :: IdsDiffer(s', j, k)
  {
    forall j, k ensures IdsDiffer(s', j, k) {
      assert IdsDiffer(s, j, k);
      if j in s.proposals { assert ProposalEntry(s, j); }
      if k in s.proposals { assert ProposalEntry(s, k); }
    }
  }

  lemma AddKeepsProposals(s: State, s': State, p: Proposal, now: int)
    requires TasksInv(s) && ProposalsInv(s) && AddsProposal(s, s', p, now)
    ensures ProposalsInv(s')
  {
    AddKeepsEntries(s, s', p, now);
    AddKeepsIds(s, s', p, now);
  }

  /** A successful bundle write replaces the task and adds the proposal. */
  lemma WriteBundleReplaces(s: State, s': State, k: TaskKey, p: Proposal, worker: string, now: int, rs: seq<Invocation>)
    returns (t: Task, log: seq<Event>)
    requires TasksInv(s) && LogsInv(s) && ProposalsInv(s) && InvocationsInv(s)
    requires k in s.tasks && s.tasks[k].status == Running
    requires p.Key() == AttemptKey(k.site, k.task, s.tasks[k].attempt) && p.Key() !in s.proposals
    requires WriteBundle(s, s.tasks[k], p, worker, now, rs) == Ok(s')
    ensures Replaces(s, s', t, log) && t.Key() == k
    ensures t.status == Succeeded && t.attempt == s.tasks[k].attempt && t.outputs == [p.proposalId]
  {
    assert TaskEntry(s, k) && LogEntry(s, k);
    WriteBundleIs(s, s.tasks[k], p, worker, now, rs);
    t := Release(s.tasks[k], Succeeded, now).(outputs := [p.proposalId]);
    AdvanceIsFaithful(s.timeline[k], s.tasks[k], t, SucceededEvent, now, worker);
    log := s.timeline[k] + [MakeEvent(t, |s.timeline[k]|, SucceededEvent, now, Some(worker))];
  }

  lemma WriteBundleKeepsInvocations(s: State, s': State, t: Task, p: Proposal, worker: string, now: int, rs: seq<Invocation>)
    requires ProposalsInv(s) && InvocationsInv(s) && p.Key() !in s.proposals
    requires WriteBundle(s, t, p, worker, now, rs) == Ok(s')
    ensures InvocationsInv(s') && Replayed(s', rs)
  {
    WriteBundleIs(s, t, p, worker, now, rs);
    SameInvocationsKeepInv(s.(invocations := s'.invocations, invocationIdempotency := s'.invocationIdempotency), s');
  }

  lemma WriteBundleKeepsInv(s: State, s': State, k: TaskKey, p: Proposal, worker: string, now: int, rs: seq<Invocation>)
    requires Inv(s) && k in s.tasks && s.tasks[k].status == Running
    requires p.Key() == AttemptKey(k.site, k.task, s.tasks[k].attempt) && p.Key() !in s.proposals
    requires p.bundle.invocations == rs && p.bundle.document.proposalId == p.proposalId
    requires WriteBundle(s, s.tasks[k], p, worker, now, rs) == Ok(s')
    ensures Inv(s')
  {
    var t, log := WriteBundleReplaces(s, s', k, p, worker, now, rs);
    ReplaceKeepsTasks(s, s', t, log);
    ReplaceKeepsLogs(s, s', t, log);
    ReplaceKeepsIndex(s, s', t, log);
    ReplaceKeepsParents(s, s', t, log);
    WriteBundleKeepsInvocations(s, s', s.tasks[k], p, worker, now, rs);
    WriteBundleIs(s, s.tasks[k], p, worker, now, rs);
    AddKeepsProposals(s, s', p, now);
  }

  lemma SameInvocationsKeepInv(s: State, s': State)
    requires InvocationsInv(s)
    requires s'.invocations == s.invocations && s'.invocationIdempotency == s.invocationIdempotency
    ensures InvocationsInv(s')
  {
    forall k | k in s'.invocations ensures InvocationEntry(s', k) { assert InvocationEntry(s, k); }
    forall k | k in s'.invocationIdempotency ensures InvocationIdemEntry(s', k) { assert InvocationIdemEntry(s, k); }
  }

  lemma CompleteKeepsInv(s: State, k: TaskKey, worker: string, attempt: int, now: int, result: ExecutionResult)
    requires Inv(s)
    ensures Inv(Complete(s, k, worker, attempt, now, result).0)
  {
    var s' := Complete(s, k, worker, attempt, now, result).0;
    if s' != s {
      assert TaskEntry(s, k);
      WriteBundleKeepsInv(s, s', k, FromExecution(s.tasks[k], result).value, worker, now, result.invocations);
    }
  }
}
