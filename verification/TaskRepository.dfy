/** InMemoryAgentTaskRepository: the dictionaries, updated in place. Each method is proved to
    make exactly the transition of its specification function in TaskSpec. Where the source
    iterates a dictionary, the loop takes the keys in an arbitrary order. */
module TaskRepository {
  import opened Wrappers
  import opened TaskModel
  import opened TaskInvariant
  import Spec = TaskSpec

  // ---- the reap loop against the all-at-once specification -------------------------------

  ghost function OnlyTasks(tasks: map<TaskKey, Task>, ks: set<TaskKey>, now: int): map<TaskKey, Task> {
    map k | k in tasks :: if k in ks then Spec.Dead(tasks[k], now, Internal) else tasks[k]
  }

  ghost function OnlyIndex(index: map<IdemKey, Task>, ks: set<TaskKey>, now: int): map<IdemKey, Task> {
    map i | i in index :: if index[i].Key() in ks then Spec.Dead(index[i], now, Internal) else index[i]
  }

  ghost function OnlyTimeline(s: Spec.State, ks: set<TaskKey>, now: int): map<TaskKey, seq<Event>> {
    map k | k in s.timeline ::
      if k in ks && k in s.tasks then s.timeline[k] + [Spec.MakeEvent(s.tasks[k], |s.timeline[k]|, DeadLettered, now, None)]
      else s.timeline[k]
  }

  ghost function OnlyDead(s: Spec.State, ks: set<TaskKey>, now: int): map<TaskKey, DeadLetterRecord> {
    s.deadLetters + map k | k in s.tasks && k in ks :: Spec.DeadRecord(s.tasks[k], now, Internal, LeaseExpiredMaxAttempts)
  }

  /** `s` with exactly the tasks `ks` moved to the dead-letter table. */
  ghost function ReapOnly(s: Spec.State, ks: set<TaskKey>, now: int): Spec.State {
    s.(tasks := OnlyTasks(s.tasks, ks, now), idempotency := OnlyIndex(s.idempotency, ks, now),
       timeline := OnlyTimeline(s, ks, now), deadLetters := OnlyDead(s, ks, now))
  }

  lemma ReapNone(s: Spec.State, now: int)
    ensures ReapOnly(s, {}, now) == s
  {
    assert OnlyTasks(s.tasks, {}, now) == s.tasks;
    assert OnlyIndex(s.idempotency, {}, now) == s.idempotency;
    assert OnlyTimeline(s, {}, now) == s.timeline;
    assert OnlyDead(s, {}, now) == s.deadLetters;
  }

  lemma OneMoreTask(s: Spec.State, ks: set<TaskKey>, k: TaskKey, now: int)
    requires k in s.tasks && k !in ks
    ensures OnlyTasks(s.tasks, ks, now)[k := Spec.Dead(s.tasks[k], now, Internal)] == OnlyTasks(s.tasks, ks + {k}, now)
  {
  }

  lemma OneMoreDead(s: Spec.State, ks: set<TaskKey>, k: TaskKey, now: int)
    requires k in s.tasks && k !in ks
    ensures OnlyDead(s, ks, now)[k := Spec.DeadRecord(s.tasks[k], now, Internal, LeaseExpiredMaxAttempts)] == OnlyDead(s, ks + {k}, now)
  {
  }

  lemma OneMoreTimeline(s: Spec.State, ks: set<TaskKey>, k: TaskKey, now: int)
    requires k in s.tasks && k in s.timeline && k !in ks && s.tasks[k].Key() == k
    ensures OnlyTimeline(s, ks, now)[k] == s.timeline[k]
    ensures OnlyTimeline(s, ks, now)[k := s.timeline[k] + [Spec.MakeEvent(s.tasks[k], |s.timeline[k]|, DeadLettered, now, None)]]
         == OnlyTimeline(s, ks + {k}, now)
  {
  }

  lemma OneMoreIndex(s: Spec.State, ks: set<TaskKey>, k: TaskKey, now: int)
    requires IndexInv(s) && k in s.tasks && s.tasks[k].Key() == k && k !in ks
    ensures OnlyIndex(s.idempotency, ks, now)[s.tasks[k].Idem() := Spec.Dead(s.tasks[k], now, Internal)]
         == OnlyIndex(s.idempotency, ks + {k}, now)
  {
    assert Indexed(s, k);
    forall i | i in s.idempotency && s.idempotency[i].Key() == k ensures i == s.tasks[k].Idem() {
      assert IndexEntry(s, i);
    }
  }

  lemma ReapOneMore(s: Spec.State, ks: set<TaskKey>, k: TaskKey, now: int)
    requires Inv(s) && k in s.tasks && k !in ks
    ensures k in ReapOnly(s, ks, now).tasks && ReapOnly(s, ks, now).tasks[k] == s.tasks[k]
    ensures s.tasks[k].Key() == k && k in ReapOnly(s, ks, now).timeline
    ensures Spec.MoveToDeadLetter(ReapOnly(s, ks, now), s.tasks[k], now, Internal, LeaseExpiredMaxAttempts, None)
         == ReapOnly(s, ks + {k}, now)
  {
    assert TaskEntry(s, k) && LogEntry(s, k);
    OneMoreTask(s, ks, k, now);
    OneMoreDead(s, ks, k, now);
    OneMoreTimeline(s, ks, k, now);
    OneMoreIndex(s, ks, k, now);
  }

  function ExhaustedKeys(tasks: map<TaskKey, Task>, site: string, now: int): set<TaskKey> {
    set k | k in tasks && Spec.Exhausted(tasks[k], site, now)
  }

  lemma ReapAllTasks(s: Spec.State, site: string, now: int)
    ensures OnlyTasks(s.tasks, ExhaustedKeys(s.tasks, site, now), now) == Spec.ReapTasks(s.tasks, site, now)
    ensures OnlyDead(s, ExhaustedKeys(s.tasks, site, now), now) == Spec.ReapDead(s, site, now)
  {
  }

  lemma ReapAllTimeline(s: Spec.State, site: string, now: int)
    ensures OnlyTimeline(s, ExhaustedKeys(s.tasks, site, now), now) == Spec.Reap(s, site, now).timeline
  {
  }

  lemma ReapAllIndex(s: Spec.State, site: string, now: int)
    requires IndexInv(s)
    ensures OnlyIndex(s.idempotency, ExhaustedKeys(s.tasks, site, now), now) == Spec.Reap(s, site, now).idempotency
  {
    forall i | i in s.idempotency
      ensures s.idempotency[i].Key() in ExhaustedKeys(s.tasks, site, now) <==> Spec.Exhausted(s.idempotency[i], site, now)
    {
      assert IndexEntry(s, i);
    }
  }

  /** Moving the exhausted tasks one after the other, in any order, is the reap. */
  lemma ReapAll(s: Spec.State, site: string, now: int)
    requires IndexInv(s)
    ensures ReapOnly(s, ExhaustedKeys(s.tasks, site, now), now) == Spec.Reap(s, site, now)
  {
    ReapAllTasks(s, site, now);
    ReapAllTimeline(s, site, now);
    ReapAllIndex(s, site, now);
  }

  lemma TakeOne<T>(all: set<T>, todo: set<T>, x: T)
    requires x in todo && todo <= all
    ensures all - (todo - {x}) == (all - todo) + {x}
  {
  }

  lemma Leaves<T>(all: set<T>, todo: set<T>)
    ensures todo == {} ==> all - todo == all
    ensures todo == all ==> all - todo == {}
  {
  }

  lemma SitesAgree(s: Spec.State, ks: set<TaskKey>, site: string)
    requires TasksInv(s) && forall k :: k in ks ==> k in s.tasks && s.tasks[k].content.site == site
    ensures forall k :: k in ks ==> k.site == site
  {
    forall k | k in ks ensures k.site == site { assert TaskEntry(s, k); }
  }

  lemma {:induction false} AppendInvocationsFails(s: Spec.State, t: Task, p: Proposal, rs: seq<Invocation>, i: nat, e: Error)
    requires i <= |rs| && Spec.AppendInvocations(s, t, p, rs[..i]) == Err(e)
    ensures Spec.AppendInvocations(s, t, p, rs) == Err(e)
    decreases |rs| - i
  {
    if i < |rs| {
      assert rs[..i+1][..i] == rs[..i];
      AppendInvocationsFails(s, t, p, rs, i + 1, e);
    } else {
      assert rs[..i] == rs;
    }
  }

  class AgentTaskRepository {
    var tasks: map<TaskKey, Task>
    var payloads: map<TaskKey, StoredPayload>
    var timeline: map<TaskKey, seq<Event>>
    var idempotency: map<IdemKey, Task>
    var deadLetters: map<TaskKey, DeadLetterRecord>
    var proposals: map<AttemptKey, Proposal>
    var proposalIdempotency: map<AttemptKey, Proposal>
    var outbox: map<AttemptKey, OutboxRecord>
    var invocations: map<InvocationKey, Invocation>
    var invocationIdempotency: map<InvocationKey, Invocation>

    ghost function Snapshot(): Spec.State
      reads this
    {
      Spec.State(tasks, payloads, timeline, idempotency, deadLetters, proposals, proposalIdempotency,
                 outbox, invocations, invocationIdempotency)
    }

    ghost predicate Valid()
      reads this
    {
      Inv(Snapshot())
    }

    constructor ()
      ensures Valid() && Snapshot() == Spec.EMPTY
    {
      tasks, payloads, timeline, idempotency, deadLetters := map[], map[], map[], map[], map[];
      proposals, proposalIdempotency, outbox := map[], map[], map[];
      invocations, invocationIdempotency := map[], map[];
      new;
      EmptyIsInv();
    }

    method StoreTask(t: Task)
      modifies this`tasks, this`idempotency
      ensures Snapshot() == Spec.Store(old(Snapshot()), t)
    {
      tasks := tasks[t.Key() := t];
      idempotency := idempotency[t.Idem() := t];
    }

    method AppendEvent(t: Task, kind: EventType, now: int, actor: Option<string>)
      requires t.Key() in timeline
      modifies this`timeline
      ensures Snapshot() == Spec.Log(old(Snapshot()), t, kind, now, actor)
    {
      var events := timeline[t.Key()];
      timeline := timeline[t.Key() := events + [Spec.MakeEvent(t, |events|, kind, now, actor)]];
    }

    method MoveToDeadLetter(t: Task, now: int, c: FailureClassification, reason: DeadLetterReason, actor: Option<string>)
      requires t.Key() in timeline
      modifies this`tasks, this`idempotency, this`deadLetters, this`timeline
      ensures Snapshot() == Spec.MoveToDeadLetter(old(Snapshot()), t, now, c, reason, actor)
    {
      var terminal := Spec.Dead(t, now, c);
      StoreTask(terminal);
      deadLetters := deadLetters[t.Key() := Spec.DeadRecord(t, now, c, reason)];
      AppendEvent(terminal, DeadLettered, now, actor);
    }

    method AddTask(sub: Submission, now: int) returns (t: Task)
      modifies this`tasks, this`idempotency, this`payloads, this`timeline
      ensures t == Spec.FreshTask(sub, now)
      ensures var s1 := Spec.Store(old(Snapshot()), t);
        Snapshot() == s1.(payloads := s1.payloads[t.Key() := sub.content.payload],
                          timeline := s1.timeline[t.Key() := [Spec.MakeEvent(t, 0, Created, now, None)]])
    {
      t := Spec.FreshTask(sub, now);
      StoreTask(t);
      payloads := payloads[t.Key() := sub.content.payload];
      timeline := timeline[t.Key() := [Spec.MakeEvent(t, 0, Created, now, None)]];
    }

    method Enqueue(sub: Submission, now: int) returns (reply: Spec.Reply)
      requires Valid() && sub.Valid()
      modifies this
      ensures Valid()
      ensures (Snapshot(), reply) == Spec.Enqueue(old(Snapshot()), sub, now)
    {
      EnqueueKeepsInv(Snapshot(), sub, now);
      var ik := IdemKey(sub.content.site, sub.content.key);
      var k := TaskKey(sub.content.site, sub.taskId);
      if ik in idempotency {
        if idempotency[ik].content != sub.content {
          return Spec.Rejected(IdempotencyConflict);
        }
        return Spec.TaskReply(idempotency[ik]);
      }
      if sub.content.parent.Some? && TaskKey(sub.content.site, sub.content.parent.value) !in tasks {
        return Spec.Rejected(ValidationError);
      }
      if k in tasks {
        return Spec.Rejected(ValidationError);
      }
      var t := AddTask(sub, now);
      return Spec.TaskReply(t);
    }

    method MoveOne(k: TaskKey, now: int, ghost start: Spec.State, ghost done: set<TaskKey>)
      requires Inv(start) && k in start.tasks && k !in done && Snapshot() == ReapOnly(start, done, now)
      modifies this`tasks, this`idempotency, this`deadLetters, this`timeline
      ensures Snapshot() == ReapOnly(start, done + {k}, now)
    {
      ReapOneMore(start, done, k, now);
      assert Snapshot().tasks == tasks && Snapshot().timeline == timeline;
      MoveToDeadLetter(tasks[k], now, Internal, LeaseExpiredMaxAttempts, None);
    }

    /** The reap loop: one dead letter per key. */
    method MoveAll(keys: set<TaskKey>, now: int)
      requires Valid() && keys <= tasks.Keys
      modifies this`tasks, this`idempotency, this`deadLetters, this`timeline
      ensures Snapshot() == ReapOnly(old(Snapshot()), keys, now)
    {
      ghost var start := Snapshot();
      var todo := keys;
      Leaves(keys, todo);
      ReapNone(start, now);
      while todo != {}
        invariant todo <= keys
        invariant Snapshot() == ReapOnly(start, keys - todo, now)
        decreases todo
      {
        var k :| k in todo;
        MoveOne(k, now, start, keys - todo);
        TakeOne(keys, todo, k);
        todo := todo - {k};
      }
      Leaves(keys, todo);
    }

    method ReapExpired(site: string, now: int)
      requires Valid()
      modifies this`tasks, this`idempotency, this`deadLetters, this`timeline
      ensures Valid()
      ensures Snapshot() == Spec.Reap(old(Snapshot()), site, now)
    {
      ReapKeepsInv(Snapshot(), site, now);
      ReapAll(Snapshot(), site, now);
      MoveAll(ExhaustedKeys(tasks, site, now), now);
    }

    /** min over the candidates by the priority order. */
    method First(ks: set<TaskKey>) returns (best: TaskKey)
      requires Valid() && ks != {} && ks <= tasks.Keys
      requires forall j, k :: j in ks && k in ks ==> j.site == k.site
      ensures best == Spec.Least(tasks, ks)
    {
      best :| best in ks;
      var rest := ks - {best};
      BeforeIsTotalOrder(tasks[best], tasks[best], tasks[best]);
      while rest != {}
        invariant rest <= ks && best in ks
        invariant forall c :: c in ks - rest ==> Before(tasks[best], tasks[c])
        decreases |rest|
      {
        var c :| c in rest;
        if !Before(tasks[best], tasks[c]) {
          forall d | d in ks - rest ensures Before(tasks[c], tasks[d]) {
            BeforeIsTotalOrder(tasks[best], tasks[c], tasks[d]);
            BeforeIsTotalOrder(tasks[c], tasks[best], tasks[d]);
          }
          best := c;
        }
        BeforeIsTotalOrder(tasks[c], tasks[c], tasks[c]);
        rest := rest - {c};
      }
      var least := Spec.Least(tasks, ks);
      BeforeIsTotalOrder(tasks[best], tasks[least], tasks[best]);
      assert TaskEntry(Snapshot(), best) && TaskEntry(Snapshot(), least);
    }

    /** Reap, then the least candidate, or none. */
    method NextTask(site: string, now: int) returns (next: Option<TaskKey>)
      requires Valid()
      modifies this`tasks, this`idempotency, this`deadLetters, this`timeline
      ensures Valid() && Snapshot() == Spec.Reap(old(Snapshot()), site, now)
      ensures var ks := Spec.Candidates(tasks, site, now);
        next == if ks == {} then None else Some(Spec.Least(tasks, ks))
      ensures next.Some? ==> next.value in tasks && tasks[next.value].Key() == next.value
      ensures next.Some? ==> next.value in timeline && next.value in payloads
    {
      ReapExpired(site, now);
      var candidates := set k | k in tasks && Spec.Eligible(tasks[k], site, now);
      if candidates == {} {
        return None;
      }
      SitesAgree(Snapshot(), candidates, site);
      var k := First(candidates);
      assert TaskEntry(Snapshot(), k) && LogEntry(Snapshot(), k);
      return Some(k);
    }

    method GrantTask(k: TaskKey, status: TaskStatus, worker: string, now: int, duration: int) returns (t: Task)
      requires k in tasks && k in timeline && tasks[k].Key() == k
      modifies this`tasks, this`idempotency, this`timeline
      ensures Snapshot() == Spec.Grant(old(Snapshot()), old(tasks[k]), status, worker, now, duration)
      ensures t == Spec.Granted(old(tasks[k]), status, worker, now, duration)
    {
      t := Spec.Granted(tasks[k], status, worker, now, duration);
      StoreTask(t);
      AppendEvent(t, LeasedEvent, now, Some(worker));
      if status == Running {
        AppendEvent(t, RunningEvent, now, Some(worker));
      }
    }

    method Claim(site: string, worker: string, now: int, duration: int) returns (reply: Spec.Reply)
      requires Valid()
      modifies this
      ensures Valid()
      ensures (Snapshot(), reply) == Spec.Claim(old(Snapshot()), site, worker, now, duration)
    {
      ClaimKeepsInv(Snapshot(), site, worker, now, duration);
      if worker == "" || duration <= 0 {
        return Spec.Rejected(ValidationError);
      }
      var next := NextTask(site, now);
      if next.None? {
        return Spec.NoTask;
      }
      var t := GrantTask(next.value, Leased, worker, now, duration);
      return Spec.TaskReply(t);
    }

    method ClaimForExecution(site: string, worker: string, now: int, duration: int) returns (reply: Spec.Reply)
      requires Valid()
      modifies this
      ensures Valid()
      ensures (Snapshot(), reply) == Spec.ClaimForExecution(old(Snapshot()), site, worker, now, duration)
    {
      ClaimKeepsInv(Snapshot(), site, worker, now, duration);
      if worker == "" || duration <= 0 {
        return Spec.Rejected(ValidationError);
      }
      var next := NextTask(site, now);
      if next.None? {
        return Spec.NoTask;
      }
      var payload := payloads[next.value];
      if payload.DoesNotParse? {
        return Spec.Rejected(ValidationError);
      }
      var t := GrantTask(next.value, Running, worker, now, duration);
      return Spec.ClaimReply(t, payload.refs);
    }

    method RequireLiveLease(k: TaskKey, worker: string, attempt: int, now: int) returns (r: Result<Task, Error>)
      ensures r == Spec.RequireLiveLease(Snapshot(), k, worker, attempt, now)
    {
      if k !in tasks {
        return Err(TaskNotFound);
      }
      var t := tasks[k];
      if (t.status != Leased && t.status != Running) || t.leaseOwner != Some(worker) || t.leaseExpiresAt.None?
        || t.leaseExpiresAt.value <= now || t.attempt != attempt {
        return Err(LeaseConflict);
      }
      return Ok(t);
    }

    method Start(k: TaskKey, worker: string, attempt: int, now: int) returns (reply: Spec.Reply)
      requires Valid()
      modifies this
      ensures Valid()
      ensures (Snapshot(), reply) == Spec.Start(old(Snapshot()), k, worker, attempt, now)
    {
      StartKeepsInv(Snapshot(), k, worker, attempt, now);
      var current := RequireLiveLease(k, worker, attempt, now);
      if current.Err? {
        return Spec.Rejected(current.error);
      }
      if current.value.status != Leased {
        return Spec.Rejected(LeaseConflict);
      }
      assert TaskEntry(Snapshot(), k) && LogEntry(Snapshot(), k);
      var running := current.value.(status := Running, updatedAt := now);
      StoreTask(running);
      AppendEvent(running, RunningEvent, now, Some(worker));
      return Spec.TaskReply(running);
    }

    method Heartbeat(k: TaskKey, worker: string, attempt: int, now: int, duration: int) returns (reply: Spec.Reply)
      requires Valid()
      modifies this
      ensures Valid()
      ensures (Snapshot(), reply) == Spec.Heartbeat(old(Snapshot()), k, worker, attempt, now, duration)
    {
      HeartbeatKeepsInv(Snapshot(), k, worker, attempt, now, duration);
      if duration <= 0 {
        return Spec.Rejected(ValidationError);
      }
      var current := RequireLiveLease(k, worker, attempt, now);
      if current.Err? {
        return Spec.Rejected(current.error);
      }
      var updated := current.value.(leaseExpiresAt := Some(now + duration), updatedAt := now);
      StoreTask(updated);
      return Spec.TaskReply(updated);
    }

    method Succeed(k: TaskKey, worker: string, attempt: int, now: int, outputs: seq<string>) returns (reply: Spec.Reply)
      requires Valid()
      modifies this
      ensures Valid()
      ensures (Snapshot(), reply) == Spec.Succeed(old(Snapshot()), k, worker, attempt, now, outputs)
    {
      SucceedKeepsInv(Snapshot(), k, worker, attempt, now, outputs);
      if !Distinct(outputs) {
        return Spec.Rejected(ValidationError);
      }
      var current := RequireLiveLease(k, worker, attempt, now);
      if current.Err? {
        return Spec.Rejected(current.error);
      }
      assert TaskEntry(Snapshot(), k) && LogEntry(Snapshot(), k);
      var completed := Spec.Release(current.value, Succeeded, now).(outputs := outputs);
      StoreTask(completed);
      AppendEvent(completed, SucceededEvent, now, Some(worker));
      return Spec.TaskReply(completed);
    }

    method Fail(k: TaskKey, worker: string, attempt: int, now: int, retryAt: int, c: FailureClassification) returns (reply: Spec.Reply)
      requires Valid()
      modifies this
      ensures Valid()
      ensures (Snapshot(), reply) == Spec.Fail(old(Snapshot()), k, worker, attempt, now, retryAt, c)
    {
      FailKeepsInv(Snapshot(), k, worker, attempt, now, retryAt, c);
      if retryAt <= now {
        return Spec.Rejected(ValidationError);
      }
      var current := RequireLiveLease(k, worker, attempt, now);
      if current.Err? {
        return Spec.Rejected(current.error);
      }
      assert TaskEntry(Snapshot(), k) && LogEntry(Snapshot(), k);
      if current.value.attempt >= current.value.content.maxAttempts {
        MoveToDeadLetter(current.value, now, c, MaxAttemptsExhausted, Some(worker));
        return Spec.TaskReply(Spec.Dead(current.value, now, c));
      }
      var retry := Spec.Release(current.value, Recheck, now).(dueAt := retryAt, failure := Some(c));
      StoreTask(retry);
      AppendEvent(retry, RecheckScheduled, now, Some(worker));
      return Spec.TaskReply(retry);
    }

    method AppendInvocation(t: Task, p: Proposal, r: Invocation) returns (failure: Option<Error>)
      modifies this`invocations, this`invocationIdempotency
      ensures Spec.AppendInvocation(old(Snapshot()), t, p, r) ==
              if failure.Some? then Err(failure.value) else Ok(Snapshot())
    {
      if !Spec.Bound(t, p, r) {
        return Some(ValidationError);
      }
      if r.Idem() in invocationIdempotency {
        if invocationIdempotency[r.Idem()] != r {
          return Some(IdempotencyConflict);
        }
        return None;
      }
      if r.Key() in invocations {
        return Some(IdempotencyConflict);
      }
      invocations := invocations[r.Key() := r];
      invocationIdempotency := invocationIdempotency[r.Idem() := r];
      return None;
    }

    method AppendProposal(p: Proposal) returns (failure: Option<Error>)
      modifies this`proposals, this`proposalIdempotency
      ensures Spec.AppendProposal(old(Snapshot()), p) ==
              if failure.Some? then Err(failure.value) else Ok(Snapshot())
    {
      if p.Key() in proposalIdempotency {
        if proposalIdempotency[p.Key()] != p {
          return Some(IdempotencyConflict);
        }
        return None;
      }
      if exists k :: k in proposals && proposals[k].site == p.site && proposals[k].proposalId == p.proposalId {
        return Some(IdempotencyConflict);
      }
      proposals := proposals[p.Key() := p];
      proposalIdempotency := proposalIdempotency[p.Key() := p];
      return None;
    }

    method ReplayedInvocations(rs: seq<Invocation>) returns (ok: bool)
      ensures ok <==> Spec.Replayed(Snapshot(), rs)
    {
      for i := 0 to |rs|
        invariant Spec.Replayed(Snapshot(), rs[..i])
      {
        if rs[i].Key() !in invocations || invocations[rs[i].Key()] != rs[i] {
          return false;
        }
      }
      assert rs[..|rs|] == rs;
      return true;
    }

    /** The body of the try block: append the bundle, stop at the first failure. */
    method WriteBundle(t: Task, p: Proposal, worker: string, now: int, rs: seq<Invocation>) returns (failure: Option<Error>)
      requires t.Key() in timeline
      modifies this`tasks, this`idempotency, this`timeline, this`proposals, this`proposalIdempotency,
               this`outbox, this`invocations, this`invocationIdempotency
      ensures Spec.WriteBundle(old(Snapshot()), t, p, worker, now, rs) ==
              if failure.Some? then Err(failure.value) else Ok(Snapshot())
    {
      ghost var start := Snapshot();
      for i := 0 to |rs|
        invariant Spec.AppendInvocations(start, t, p, rs[..i]) == Ok(Snapshot())
        invariant timeline == start.timeline
      {
        failure := AppendInvocation(t, p, rs[i]);
        assert rs[..i+1][..i] == rs[..i];
        if failure.Some? {
          AppendInvocationsFails(start, t, p, rs, i + 1, failure.value);
          return;
        }
      }
      assert rs[..|rs|] == rs;
      failure := AppendProposal(p);
      if failure.Some? {
        return;
      }
      outbox := outbox[p.Key() := Spec.FromProposal(p, now)];
      var completed := Spec.Release(t, Succeeded, now).(outputs := [p.proposalId]);
      StoreTask(completed);
      AppendEvent(completed, SucceededEvent, now, Some(worker));
    }

    /** The try block with its snapshot, restored when any part of the bundle fails. */
    method WriteOrRollBack(t: Task, p: Proposal, worker: string, now: int, rs: seq<Invocation>) returns (failure: Option<Error>)
      requires t.Key() in timeline
      modifies this
      ensures failure.Some? ==> Snapshot() == old(Snapshot())
      ensures Spec.WriteBundle(old(Snapshot()), t, p, worker, now, rs) ==
              if failure.Some? then Err(failure.value) else Ok(Snapshot())
    {
      var tasksBefore, idempotencyBefore, timelineBefore := tasks, idempotency, timeline;
      var proposalsBefore, proposalIdempotencyBefore, outboxBefore := proposals, proposalIdempotency, outbox;
      var invocationsBefore, invocationIdempotencyBefore := invocations, invocationIdempotency;
      failure := WriteBundle(t, p, worker, now, rs);
      if failure.Some? {
        tasks, idempotency, timeline := tasksBefore, idempotencyBefore, timelineBefore;
        proposals, proposalIdempotency, outbox := proposalsBefore, proposalIdempotencyBefore, outboxBefore;
        invocations, invocationIdempotency := invocationsBefore, invocationIdempotencyBefore;
      }
    }

    method CompleteWithProposal(k: TaskKey, worker: string, attempt: int, now: int, result: ExecutionResult) returns (reply: Spec.Reply)
      requires Valid()
      modifies this
      ensures Valid()
      ensures (Snapshot(), reply) == Spec.Complete(old(Snapshot()), k, worker, attempt, now, result)
    {
      CompleteKeepsInv(Snapshot(), k, worker, attempt, now, result);
      if k !in tasks {
        return Spec.Rejected(TaskNotFound);
      }
      var t := tasks[k];
      assert TaskEntry(Snapshot(), k) && LogEntry(Snapshot(), k);
      if t.attempt != attempt {
        return Spec.Rejected(LeaseConflict);
      }
      var made := Spec.FromExecution(t, result);
      if made.Err? {
        return Spec.Rejected(made.error);
      }
      var p := made.value;
      var pk := AttemptKey(k.site, k.task, attempt);
      if pk in proposals {
        if proposals[pk].bundle != p.bundle {
          return Spec.Rejected(IdempotencyConflict);
        }
        var replayed := ReplayedInvocations(result.invocations);
        if !replayed {
          return Spec.Rejected(IdempotencyConflict);
        }
        if t.status != Succeeded || t.attempt != attempt || t.outputs != [p.proposalId]
          || pk !in outbox || outbox[pk].origin != AI || outbox[pk].reviewStatus != AIDraft {
          return Spec.Rejected(IdempotencyConflict);
        }
        return Spec.TaskReply(t);
      }
      var current := RequireLiveLease(k, worker, attempt, now);
      if current.Err? {
        return Spec.Rejected(current.error);
      }
      if current.value.status != Running {
        return Spec.Rejected(LeaseConflict);
      }
      var failure := WriteOrRollBack(t, p, worker, now, result.invocations);
      if failure.Some? {
        return Spec.Rejected(failure.value);
      }
      return Spec.TaskReply(Spec.Release(t, Succeeded, now).(outputs := [p.proposalId]));
    }
  }
}
