/** The PostgreSQL twin of completion, one transaction, written from its SQL: the branch is taken on the
    task's status, invocations are inserted with ON CONFLICT on the idempotency key, and the tables'
    unique keys and CHECK constraints refuse the rest. */
module TaskSqlCompletion {
  import opened Wrappers
  import opened TaskModel
  import opened TaskSpec
  import opened TaskInvariant
  import opened TaskRuns
  import opened TaskSql
  import opened TaskProposals
  import opened TaskTheorems

  type InvocationTable = map<InvocationKey, Invocation>

  datatype Rows = Rows(
    tasks: map<TaskKey, Task>, timeline: map<TaskKey, seq<Event>>, proposals: map<AttemptKey, Proposal>,
    outbox: map<AttemptKey, OutboxRecord>, invocations: InvocationTable)

  function RowsOf(s: State): Rows { Rows(s.tasks, s.timeline, s.proposals, s.outbox, s.invocations) }

  // ---- the statements -------------------------------------------------------------------------

  predicate HasIdem(t: InvocationTable, i: InvocationKey) { exists k :: k in t && t[k].Idem() == i }

  /** INSERT ... ON CONFLICT (site_id, idempotency_key) DO NOTHING, then the comparison with the stored
      record; the primary key refuses a reused id. */
  ghost function SqlAppendInvocation(table: InvocationTable, t: Task, p: Proposal, r: Invocation): Option<InvocationTable> {
    if !Bound(t, p, r) then None
    else if HasIdem(table, r.Idem()) then
      if exists k :: k in table && table[k] == r then Some(table) else None
    else if r.Key() in table then None
    else Some(table[r.Key() := r])
  }

  ghost function SqlAppendInvocations(table: InvocationTable, t: Task, p: Proposal, rs: seq<Invocation>): Option<InvocationTable>
    decreases |rs|
  {
    if rs == [] then Some(table)
    else match SqlAppendInvocations(table, t, p, rs[..|rs|-1])
      case None => None
      case Some(table') => SqlAppendInvocation(table', t, p, rs[|rs|-1])
  }

  /** What the keys and the CHECK of action_proposals refuse. */
  predicate ProposalRefused(d: Rows, p: Proposal) {
    || p.factRefs == []
    || p.Key() in d.proposals
    || exists k :: k in d.proposals && d.proposals[k].site == p.site && d.proposals[k].proposalId == p.proposalId
  }

  /** What the keys of proposal_materialization_outbox refuse. */
  predicate OutboxRefused(d: Rows, p: Proposal) {
    || p.Key() in d.outbox
    || exists k :: k in d.outbox && d.outbox[k].site == p.site && d.outbox[k].proposalId == p.proposalId
  }

  /** _validate_completed_replay. */
  predicate ReplayValid(d: Rows, t: Task, p: Proposal, rs: seq<Invocation>) {
    var k := AttemptKey(t.content.site, t.taskId, t.attempt);
    && k in d.proposals && d.proposals[k].bundle == p.bundle && d.proposals[k].invocationIds == p.invocationIds
    && d.proposals[k].proposalId == p.proposalId && t.outputs == [p.proposalId]
    && (exists o :: o in d.outbox && d.outbox[o].site == t.content.site && d.outbox[o].proposalId == p.proposalId
          && d.outbox[o].origin == AI && d.outbox[o].reviewStatus == AIDraft)
    && forall i :: 0 <= i < |rs| ==> rs[i].Key() in d.invocations && d.invocations[rs[i].Key()] == rs[i]
  }

  predicate RunningLease(t: Task, worker: string, attempt: int, now: int) {
    && t.status == Running && t.leaseOwner == Some(worker) && t.attempt == attempt
    && t.leaseExpiresAt.Some? && t.leaseExpiresAt.value > now
  }

  ghost function SqlWrite(d: Rows, k: TaskKey, p: Proposal, worker: string, now: int, rs: seq<Invocation>): Option<(Rows, Task)>
    requires k in d.tasks && k in d.timeline
  {
    var t := d.tasks[k];
    match SqlAppendInvocations(d.invocations, t, p, rs)
    case None => None
    case Some(table) =>
      if ProposalRefused(d, p) || OutboxRefused(d, p) then None
      else
        var done := Release(t, Succeeded, now).(outputs := [p.proposalId]);
        Some((Rows(d.tasks[k := done], d.timeline[k := Append(d.timeline[k], done, SucceededEvent, now, Some(worker))],
                   d.proposals[p.Key() := p], d.outbox[p.Key() := FromProposal(p, now)], table), done))
  }

  /** The task that is returned, or None when the transaction raises and rolls back. */
  ghost function SqlComplete(d: Rows, k: TaskKey, worker: string, attempt: int, now: int, result: ExecutionResult): (Rows, Option<Task>)
    requires d.tasks.Keys == d.timeline.Keys
  {
    if k !in d.tasks || d.tasks[k].attempt != attempt then (d, None)
    else match FromExecution(d.tasks[k], result)
      case Err(_) => (d, None)
      case Ok(p) =>
        if d.tasks[k].status == Succeeded then
          (d, if ReplayValid(d, d.tasks[k], p, result.invocations) then Some(d.tasks[k]) else None)
        else if !RunningLease(d.tasks[k], worker, attempt, now) then (d, None)
        else match SqlWrite(d, k, p, worker, now, result.invocations)
          case None => (d, None)
          case Some(written) => (written.0, Some(written.1))
  }

  // ---- agreement ------------------------------------------------------------------------------

  /** The in-memory reply as the caller sees it: a task, or an exception. */
  function Seen(reply: Reply): Option<Task> { if reply.TaskReply? then Some(reply.task) else None }

  lemma IdemIffIndexed(s: State, i: InvocationKey)
    requires InvocationsInv(s)
    ensures HasIdem(s.invocations, i) <==> i in s.invocationIdempotency
  {
    if i in s.invocationIdempotency {
      assert InvocationIdemEntry(s, i);
      assert s.invocations[s.invocationIdempotency[i].Key()].Idem() == i;
    }
    forall k | k in s.invocations && s.invocations[k].Idem() == i ensures i in s.invocationIdempotency {
      assert InvocationEntry(s, k);
    }
  }

  lemma StoredIffIndexed(s: State, r: Invocation)
    requires InvocationsInv(s) && r.Idem() in s.invocationIdempotency
    ensures (exists k :: k in s.invocations && s.invocations[k] == r) <==> s.invocationIdempotency[r.Idem()] == r
  {
    assert InvocationIdemEntry(s, r.Idem());
    if s.invocationIdempotency[r.Idem()] == r { assert s.invocations[r.Key()] == r; }
    forall k | k in s.invocations && s.invocations[k] == r ensures s.invocationIdempotency[r.Idem()] == r {
      assert InvocationEntry(s, k);
    }
  }

  lemma AppendAgrees(s: State, t: Task, p: Proposal, r: Invocation)
    requires InvocationsInv(s)
    ensures var a, b := AppendInvocation(s, t, p, r), SqlAppendInvocation(s.invocations, t, p, r);
      (a.Ok? <==> b.Some?) && (a.Ok? ==> a.value.invocations == b.value)
  {
    IdemIffIndexed(s, r.Idem());
    if r.Idem() in s.invocationIdempotency { StoredIffIndexed(s, r); }
  }

  lemma {:induction false} AppendsAgree(s: State, t: Task, p: Proposal, rs: seq<Invocation>)
    requires InvocationsInv(s)
    ensures var a, b := AppendInvocations(s, t, p, rs), SqlAppendInvocations(s.invocations, t, p, rs);
      (a.Ok? <==> b.Some?) && (a.Ok? ==> a.value.invocations == b.value)
    decreases |rs|
  {
    if rs != [] {
      var n := |rs| - 1;
      AppendsAgree(s, t, p, rs[..n]);
      if AppendInvocations(s, t, p, rs[..n]).Ok? {
        AppendInvocationsGrows(s, t, p, rs[..n]);
        AppendAgrees(AppendInvocations(s, t, p, rs[..n]).value, t, p, rs[n]);
      }
    }
  }

  lemma OutboxNeverRefuses(s: State, p: Proposal)
    requires ProposalsInv(s) && !ProposalRefused(RowsOf(s), p)
    ensures !OutboxRefused(RowsOf(s), p)
  {
    forall k | k in s.outbox ensures !(s.outbox[k].site == p.site && s.outbox[k].proposalId == p.proposalId) {
      assert ProposalEntry(s, k);
    }
  }

  lemma SequenceAgrees(s: State, k: TaskKey, t: Task, now: int, worker: string)
    requires LogsInv(s) && k in s.tasks && t.taskId == s.tasks[k].taskId && t.content == s.tasks[k].content
    ensures k in s.timeline
    ensures Append(s.timeline[k], t, SucceededEvent, now, Some(worker)) ==
            s.timeline[k] + [MakeEvent(t, |s.timeline[k]|, SucceededEvent, now, Some(worker))]
  {
    assert LogEntry(s, k);
    NextSequenceIsLength(s.timeline[k], s.tasks[k]);
  }

  /** The proposal is refused for its id in both, and for missing facts in SQL only. */
  lemma ProposalsAgree(s: State, t: Task, p: Proposal, rs: seq<Invocation>)
    requires ProposalsInv(s) && InvocationsInv(s) && p.Key() !in s.proposals && AppendInvocations(s, t, p, rs).Ok?
    ensures var s1 := AppendInvocations(s, t, p, rs).value;
      AppendProposal(s1, p).Ok? && p.factRefs != [] <==> !ProposalRefused(RowsOf(s), p)
  {
    AppendInvocationsGrows(s, t, p, rs);
  }

  lemma WritesAcceptAlike(s: State, k: TaskKey, p: Proposal, worker: string, now: int, rs: seq<Invocation>)
    requires ProposalsInv(s) && InvocationsInv(s) && k in s.tasks && k in s.timeline && p.Key() !in s.proposals
    ensures SqlWrite(RowsOf(s), k, p, worker, now, rs).Some? <==>
      WriteBundle(s, s.tasks[k], p, worker, now, rs).Ok? && p.factRefs != []
  {
    AppendsAgree(s, s.tasks[k], p, rs);
    if AppendInvocations(s, s.tasks[k], p, rs).Ok? { ProposalsAgree(s, s.tasks[k], p, rs); }
    if !ProposalRefused(RowsOf(s), p) { OutboxNeverRefuses(s, p); }
  }

  lemma WrittenTables(s: State, s': State, k: TaskKey, p: Proposal, worker: string, now: int, rs: seq<Invocation>)
    requires ProposalsInv(s) && InvocationsInv(s) && LogsInv(s) && k in s.tasks && s.tasks[k].Key() == k && p.Key() !in s.proposals
    requires WriteBundle(s, s.tasks[k], p, worker, now, rs) == Ok(s')
    ensures k in s.timeline
    ensures var done := Release(s.tasks[k], Succeeded, now).(outputs := [p.proposalId]);
      && s'.tasks == s.tasks[k := done] && s'.proposals == s.proposals[p.Key() := p]
      && s'.outbox == s.outbox[p.Key() := FromProposal(p, now)]
      && s'.timeline == s.timeline[k := s.timeline[k] + [MakeEvent(done, |s.timeline[k]|, SucceededEvent, now, Some(worker))]]
      && AppendInvocations(s, s.tasks[k], p, rs).Ok? && s'.invocations == AppendInvocations(s, s.tasks[k], p, rs).value.invocations
  {
    assert LogEntry(s, k);
    WriteBundleIs(s, s.tasks[k], p, worker, now, rs);
  }

  /** The bundle writes agree whenever there are fact references; without any, only SQL refuses. */
  lemma WritesAgree(s: State, s': State, k: TaskKey, p: Proposal, worker: string, now: int, rs: seq<Invocation>)
    requires TasksInv(s) && LogsInv(s) && ProposalsInv(s) && InvocationsInv(s) && k in s.tasks && p.Key() !in s.proposals
    requires WriteBundle(s, s.tasks[k], p, worker, now, rs) == Ok(s') && p.factRefs != []
    ensures k in s.timeline
    ensures SqlWrite(RowsOf(s), k, p, worker, now, rs) ==
            Some((RowsOf(s'), Release(s.tasks[k], Succeeded, now).(outputs := [p.proposalId])))
  {
    assert TaskEntry(s, k) && LogEntry(s, k);
    WritesAcceptAlike(s, k, p, worker, now, rs);
    WrittenTables(s, s', k, p, worker, now, rs);
    AppendsAgree(s, s.tasks[k], p, rs);
    SequenceAgrees(s, k, Release(s.tasks[k], Succeeded, now).(outputs := [p.proposalId]), now, worker);
  }

  // ---- replays --------------------------------------------------------------------------------

  /** A stored proposal with the same bundle is all that SQL's replay check needs. */
  lemma SameBundleReplays(s: State, k: TaskKey, result: ExecutionResult)
    requires Inv(s) && AllWellMade(s) && k in s.tasks && FromExecution(s.tasks[k], result).Ok?
    requires var pk := AttemptKey(k.site, k.task, s.tasks[k].attempt);
      pk in s.proposals && s.proposals[pk].bundle == FromExecution(s.tasks[k], result).value.bundle
    ensures ReplayValid(RowsOf(s), s.tasks[k], FromExecution(s.tasks[k], result).value, result.invocations)
  {
    var pk := AttemptKey(k.site, k.task, s.tasks[k].attempt);
    assert TaskEntry(s, k) && ProposalEntry(s, pk) && WellMadeAt(s, pk);
    assert pk in s.outbox && s.outbox[pk].site == k.site && s.outbox[pk].proposalId == s.proposals[pk].proposalId;
  }

  lemma ReplaysAgree(s: State, k: TaskKey, worker: string, now: int, result: ExecutionResult)
    requires Inv(s) && AllWellMade(s) && k in s.tasks && s.tasks[k].status == Succeeded && FromExecution(s.tasks[k], result).Ok?
    ensures var t := s.tasks[k];
      Complete(s, k, worker, t.attempt, now, result).0 == s
      && Seen(Complete(s, k, worker, t.attempt, now, result).1) ==
         if ReplayValid(RowsOf(s), t, FromExecution(t, result).value, result.invocations) then Some(t) else None
  {
    var t := s.tasks[k];
    assert TaskEntry(s, k);
    var pk := AttemptKey(k.site, k.task, t.attempt);
    if pk in s.proposals && s.proposals[pk].bundle == FromExecution(t, result).value.bundle {
      SameBundleReplays(s, k, result);
      ReplayFindsItsFence(s, k, result);
    }
  }

  // ---- the theorem ----------------------------------------------------------------------------

  /** An unfinished task has no proposal for its current attempt. */
  lemma UnfinishedHasNone(s: State, k: TaskKey)
    requires ProposalsInv(s) && k in s.tasks && s.tasks[k].status != Succeeded
    ensures AttemptKey(k.site, k.task, s.tasks[k].attempt) !in s.proposals
  {
    var pk := AttemptKey(k.site, k.task, s.tasks[k].attempt);
    assert pk in s.proposals ==> ProposalEntry(s, pk);
  }

  /** On an unfinished task both write under a live running lease, and nothing otherwise. */
  lemma UnfinishedCompletion(s: State, k: TaskKey, worker: string, now: int, result: ExecutionResult)
    requires Inv(s) && k in s.tasks && s.tasks[k].status != Succeeded && FromExecution(s.tasks[k], result).Ok?
    ensures var t := s.tasks[k];
      var p := FromExecution(t, result).value;
      var w := WriteBundle(s, t, p, worker, now, result.invocations);
      var (s', reply) := Complete(s, k, worker, t.attempt, now, result);
      if RunningLease(t, worker, t.attempt, now) && w.Ok?
      then s' == w.value && Seen(reply) == Some(Release(t, Succeeded, now).(outputs := [p.proposalId]))
      else s' == s && Seen(reply) == None
  {
    assert TaskEntry(s, k);
    UnfinishedHasNone(s, k);
  }

  /** A successful write is visible. */
  lemma WriteShows(s: State, s': State, k: TaskKey, p: Proposal, worker: string, now: int, rs: seq<Invocation>)
    requires ProposalsInv(s) && InvocationsInv(s) && LogsInv(s) && TasksInv(s) && k in s.tasks && s.tasks[k].status != Succeeded
    requires p.Key() !in s.proposals && WriteBundle(s, s.tasks[k], p, worker, now, rs) == Ok(s')
    ensures RowsOf(s') != RowsOf(s)
  {
    assert TaskEntry(s, k);
    WrittenTables(s, s', k, p, worker, now, rs);
    assert s'.tasks[k].status == Succeeded;
  }

  lemma UnfinishedAgreeIff(s: State, k: TaskKey, worker: string, now: int, result: ExecutionResult)
    requires Inv(s) && k in s.tasks && s.tasks[k].status != Succeeded && FromExecution(s.tasks[k], result).Ok?
    ensures s.tasks.Keys == s.timeline.Keys
    ensures var (s', reply) := Complete(s, k, worker, s.tasks[k].attempt, now, result);
      var (d, seen) := SqlComplete(RowsOf(s), k, worker, s.tasks[k].attempt, now, result);
      && (d == RowsOf(s') && seen == Seen(reply) <==> result.document.factRefs != [] || s' == s)
      && (seen.None? ==> d == RowsOf(s))
  {
    var t := s.tasks[k];
    var p, rs := FromExecution(t, result).value, result.invocations;
    assert TaskEntry(s, k) && LogEntry(s, k);
    UnfinishedHasNone(s, k);
    UnfinishedCompletion(s, k, worker, now, result);
    WritesAcceptAlike(s, k, p, worker, now, rs);
    if WriteBundle(s, t, p, worker, now, rs).Ok? {
      var s1 := WriteBundle(s, t, p, worker, now, rs).value;
      WriteShows(s, s1, k, p, worker, now, rs);
      if p.factRefs != [] { WritesAgree(s, s1, k, p, worker, now, rs); }
    }
  }

  lemma CompletionsAgreeOn(s: State, k: TaskKey, worker: string, attempt: int, now: int, result: ExecutionResult)
    requires Inv(s) && AllWellMade(s)
    ensures s.tasks.Keys == s.timeline.Keys
    ensures var (s', reply) := Complete(s, k, worker, attempt, now, result);
      var (d, seen) := SqlComplete(RowsOf(s), k, worker, attempt, now, result);
      && (d == RowsOf(s') && seen == Seen(reply) <==> result.document.factRefs != [] || s' == s)
      && (seen.None? ==> d == RowsOf(s))
  {
    if k in s.tasks && s.tasks[k].attempt == attempt && FromExecution(s.tasks[k], result).Ok? {
      if s.tasks[k].status == Succeeded {
        ReplaysAgree(s, k, worker, now, result);
      } else {
        UnfinishedAgreeIff(s, k, worker, now, result);
      }
    }
  }

  /** On every reachable state the two completions return the same task or both raise, and leave the same
      tables, exactly when the result has fact references or the in-memory completion writes nothing.
      A result without any, which only the table's CHECK refuses, is completed in memory and rolled back
      in PostgreSQL. */
  lemma CompletionsAgreeIff(calls: seq<Call>, k: TaskKey, worker: string, attempt: int, now: int, result: ExecutionResult)
    requires Valid(calls)
    ensures var s := Run(EMPTY, calls);
      && s.tasks.Keys == s.timeline.Keys
      && var (s', reply) := Complete(s, k, worker, attempt, now, result);
      var (d, seen) := SqlComplete(RowsOf(s), k, worker, attempt, now, result);
      && (d == RowsOf(s') && seen == Seen(reply) <==> result.document.factRefs != [] || s' == s)
      && (seen.None? ==> d == RowsOf(s))
  {
    EmptyIsInv();
    RunKeepsInv(EMPTY, calls);
    RunMakesWell(EMPTY, calls);
    CompletionsAgreeOn(Run(EMPTY, calls), k, worker, attempt, now, result);
  }
}
