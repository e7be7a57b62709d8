/** What each operation of the task queue does, field by field and row by row, in the terms of its
    tables only. */
module TaskEffects {
  import opened Wrappers
  import opened Ordering
  import opened TaskModel
  import opened TaskSpec
  import opened TaskInvariant

  // ---- vocabulary -----------------------------------------------------------------------------

  /** The task may be claimed: it is due or its lease has run out, and it has an attempt left. */
  predicate Open(t: Task, site: string, now: int) {
    && t.content.site == site && t.attempt < t.content.maxAttempts
    && (|| (t.status in {Queued, Recheck} && t.dueAt <= now)
        || (t.status in {Leased, Running} && t.leaseExpiresAt.Some? && t.leaseExpiresAt.value <= now))
  }

  /** Its lease has run out and it has no attempt left. */
  predicate Spent(t: Task, site: string, now: int) {
    && t.content.site == site && t.attempt >= t.content.maxAttempts
    && t.status in {Leased, Running} && t.leaseExpiresAt.Some? && t.leaseExpiresAt.value <= now
  }

  /** Higher priority, then earlier due, then earlier created, then the task ids in order. */
  predicate NoLessUrgent(a: Task, b: Task) {
    && a.content.priority >= b.content.priority
    && (a.content.priority == b.content.priority ==> a.dueAt <= b.dueAt)
    && (a.content.priority == b.content.priority && a.dueAt == b.dueAt ==> a.createdAt <= b.createdAt)
    && (a.content.priority == b.content.priority && a.dueAt == b.dueAt && a.createdAt == b.createdAt ==>
          StrLe(a.taskId, b.taskId))
  }

  predicate LeasedTo(was: Task, g: Task, status: TaskStatus, worker: string, now: int, duration: int) {
    g == Task(was.taskId, was.content, status, was.dueAt, was.attempt + 1, was.outputs, was.failure,
              Some(worker), Some(now + duration), was.createdAt, now)
  }

  function EventAt(k: TaskKey, t: Task, sequence: nat, kind: EventType, now: int, actor: Option<string>): Event {
    Event(k.task, k.site, sequence, kind, now, if actor.Some? then Worker else System, actor,
          t.content.causation, t.content.correlation)
  }

  /** The task's log has grown by these kinds of events, all of them now and by this actor. */
  predicate Logged(s: State, s': State, k: TaskKey, kinds: seq<EventType>, now: int, actor: Option<string>) {
    && k in s.tasks && k in s.timeline && k in s'.timeline
    && s'.timeline[k] == s.timeline[k] +
         seq(|kinds|, i requires 0 <= i < |kinds| => EventAt(k, s.tasks[k], |s.timeline[k]| + i, kinds[i], now, actor))
  }

  /** The task is dead-lettered with all the traces that leaves. */
  predicate Buried(s: State, s': State, k: TaskKey, now: int, c: FailureClassification, reason: DeadLetterReason, actor: Option<string>) {
    && k in s.tasks && k in s'.tasks && k in s'.deadLetters
    && var t := s.tasks[k];
    && s'.tasks[k] == Task(t.taskId, t.content, DeadLetter, t.dueAt, t.attempt, t.outputs, Some(c), None, None, t.createdAt, now)
    && s'.deadLetters[k] == DeadLetterRecord(k.task, k.site, t.attempt, c, reason, now, t.content.causation, t.content.correlation)
    && Logged(s, s', k, [DeadLettered], now, actor)
  }

  /** Nothing about the task has changed. */
  predicate Untouched(s: State, s': State, k: TaskKey) {
    && (k in s.tasks <==> k in s'.tasks) && (k in s.tasks ==> s'.tasks[k] == s.tasks[k])
    && (k in s.timeline <==> k in s'.timeline) && (k in s.timeline ==> s'.timeline[k] == s.timeline[k])
    && (k in s.deadLetters <==> k in s'.deadLetters) && (k in s.deadLetters ==> s'.deadLetters[k] == s.deadLetters[k])
  }

  lemma OneEvent(s: State, s': State, k: TaskKey, kind: EventType, now: int, actor: Option<string>)
    requires k in s.tasks && k in s.timeline && k in s'.timeline
    requires s'.timeline[k] == s.timeline[k] + [EventAt(k, s.tasks[k], |s.timeline[k]|, kind, now, actor)]
    ensures Logged(s, s', k, [kind], now, actor)
  {
  }

  // ---- claims ---------------------------------------------------------------------------------

  /** The claimed task is open and the most urgent of all open ones. */
  predicate MostUrgent(s: State, k: TaskKey, site: string, now: int) {
    && k in s.tasks && Open(s.tasks[k], site, now)
    && forall c :: c in s.tasks && Open(s.tasks[c], site, now) ==> NoLessUrgent(s.tasks[k], s.tasks[c])
  }

  lemma OpenIffCandidate(s: State, site: string, now: int, k: TaskKey)
    requires TasksInv(s)
    ensures k in s.tasks && Open(s.tasks[k], site, now) <==> k in Candidates(Reap(s, site, now).tasks, site, now)
    ensures k in s.tasks && Open(s.tasks[k], site, now) ==> Reap(s, site, now).tasks[k] == s.tasks[k]
  {
    if k in s.tasks {
      assert TaskEntry(s, k);
      assert Reap(s, site, now).tasks[k] == ReapTask(s.tasks[k], site, now);
    }
  }

  lemma LeastIsMostUrgent(s: State, site: string, now: int)
    requires TasksInv(s) && Candidates(Reap(s, site, now).tasks, site, now) != {}
    ensures var r := Reap(s, site, now).tasks; MostUrgent(s, Least(r, Candidates(r, site, now)), site, now)
  {
    var r := Reap(s, site, now).tasks;
    var k := Least(r, Candidates(r, site, now));
    OpenIffCandidate(s, site, now, k);
    forall c | c in s.tasks && Open(s.tasks[c], site, now) ensures NoLessUrgent(s.tasks[k], s.tasks[c]) {
      OpenIffCandidate(s, site, now, c);
      assert Before(r[k], r[c]);
    }
  }

  /** A reap buries exactly the spent leases of the site. */
  lemma ReapBuries(s: State, site: string, now: int, k: TaskKey)
    requires TasksInv(s) && LogsInv(s)
    ensures k in s.tasks && Spent(s.tasks[k], site, now) ==> Buried(s, Reap(s, site, now), k, now, Internal, LeaseExpiredMaxAttempts, None)
    ensures !(k in s.tasks && Spent(s.tasks[k], site, now)) ==> Untouched(s, Reap(s, site, now), k)
  {
    var r := Reap(s, site, now);
    if k in s.tasks {
      assert TaskEntry(s, k) && LogEntry(s, k);
      if Spent(s.tasks[k], site, now) { OneEvent(s, r, k, DeadLettered, now, None); }
    }
  }

  lemma GrantLeavesOthers(s: State, k: TaskKey, status: TaskStatus, worker: string, now: int, duration: int, c: TaskKey)
    requires k in s.tasks && s.tasks[k].Key() == k && c != k
    ensures Untouched(s, Grant(s, s.tasks[k], status, worker, now, duration), c)
  {
    GrantIs(s, s.tasks[k], status, worker, now, duration);
  }

  /** What granting a claim writes. */
  lemma GrantWrites(s: State, k: TaskKey, status: TaskStatus, worker: string, now: int, duration: int)
    requires k in s.tasks && s.tasks[k].Key() == k && k in s.timeline && status in {Leased, Running}
    ensures var s' := Grant(s, s.tasks[k], status, worker, now, duration);
      && k in s'.tasks && LeasedTo(s.tasks[k], s'.tasks[k], status, worker, now, duration)
      && Logged(s, s', k, if status == Running then [LeasedEvent, RunningEvent] else [LeasedEvent], now, Some(worker))
  {
    GrantIs(s, s.tasks[k], status, worker, now, duration);
  }

  /** Everything a claim that hands out task `g` has done: it was the most urgent open task and is
      leased as asked, spent leases of the site are buried, and nothing else has moved. */
  ghost predicate ClaimDid(s: State, s': State, g: Task, status: TaskStatus, site: string, worker: string, now: int, duration: int) {
    var k := TaskKey(site, g.taskId);
    && MostUrgent(s, k, site, now)
    && k in s'.tasks && s'.tasks[k] == g && LeasedTo(s.tasks[k], g, status, worker, now, duration)
    && Logged(s, s', k, if status == Running then [LeasedEvent, RunningEvent] else [LeasedEvent], now, Some(worker))
    && OthersReaped(s, s', site, now, Some(k))
  }

  ghost predicate OthersReaped(s: State, s': State, site: string, now: int, but: Option<TaskKey>) {
    forall c :: but != Some(c) ==>
      if c in s.tasks && Spent(s.tasks[c], site, now) then Buried(s, s', c, now, Internal, LeaseExpiredMaxAttempts, None)
      else Untouched(s, s', c)
  }

  lemma BuriedStays(s: State, r: State, s': State, c: TaskKey, now: int)
    requires Buried(s, r, c, now, Internal, LeaseExpiredMaxAttempts, None) && Untouched(r, s', c)
    ensures Buried(s, s', c, now, Internal, LeaseExpiredMaxAttempts, None)
  {
  }

  lemma ReapGrantDid(s: State, site: string, status: TaskStatus, worker: string, now: int, duration: int)
    requires TasksInv(s) && LogsInv(s) && status in {Leased, Running}
    requires Candidates(Reap(s, site, now).tasks, site, now) != {}
    ensures var r := Reap(s, site, now);
      var k := Least(r.tasks, Candidates(r.tasks, site, now));
      ClaimDid(s, Grant(r, r.tasks[k], status, worker, now, duration), Granted(r.tasks[k], status, worker, now, duration),
               status, site, worker, now, duration)
  {
    var r := Reap(s, site, now);
    var k := Least(r.tasks, Candidates(r.tasks, site, now));
    var s' := Grant(r, r.tasks[k], status, worker, now, duration);
    LeastIsMostUrgent(s, site, now);
    OpenIffCandidate(s, site, now, k);
    assert TaskEntry(s, k) && LogEntry(s, k);
    ReapBuries(s, site, now, k);
    GrantWrites(r, k, status, worker, now, duration);
    GrantIs(r, r.tasks[k], status, worker, now, duration);
    forall c | c != k
      ensures if c in s.tasks && Spent(s.tasks[c], site, now) then Buried(s, s', c, now, Internal, LeaseExpiredMaxAttempts, None)
              else Untouched(s, s', c)
    {
      ReapBuries(s, site, now, c);
      GrantLeavesOthers(r, k, status, worker, now, duration, c);
      if c in s.tasks && Spent(s.tasks[c], site, now) { BuriedStays(s, r, s', c, now); }
    }
  }

  lemma NoneOpen(s: State, site: string, now: int)
    requires TasksInv(s)
    ensures Candidates(Reap(s, site, now).tasks, site, now) == {} <==> forall k :: k in s.tasks ==> !Open(s.tasks[k], site, now)
  {
    forall k ensures k in s.tasks && Open(s.tasks[k], site, now) <==> k in Candidates(Reap(s, site, now).tasks, site, now) {
      OpenIffCandidate(s, site, now, k);
    }
  }

  lemma ReapDid(s: State, site: string, now: int)
    requires TasksInv(s) && LogsInv(s)
    ensures OthersReaped(s, Reap(s, site, now), site, now, None)
  {
    forall c ensures if c in s.tasks && Spent(s.tasks[c], site, now) then Buried(s, Reap(s, site, now), c, now, Internal, LeaseExpiredMaxAttempts, None)
                     else Untouched(s, Reap(s, site, now), c)
    {
      ReapBuries(s, site, now, c);
    }
  }

  /** A claim hands out the most urgent open task of the site, or none when no task is open. */
  lemma ClaimEffect(s: State, site: string, worker: string, now: int, duration: int)
    requires Inv(s)
    ensures var (s', reply) := Claim(s, site, worker, now, duration);
      if worker == "" || duration <= 0 then s' == s && reply == Rejected(ValidationError)
      else if forall k :: k in s.tasks ==> !Open(s.tasks[k], site, now)
      then reply == NoTask && OthersReaped(s, s', site, now, None)
      else reply.TaskReply? && ClaimDid(s, s', reply.task, Leased, site, worker, now, duration)
  {
    NoneOpen(s, site, now);
    ReapDid(s, site, now);
    if Candidates(Reap(s, site, now).tasks, site, now) != {} { ReapGrantDid(s, site, Leased, worker, now, duration); }
  }

  /** The most urgent open task has a payload that does not parse. */
  ghost predicate Unreadable(s: State, site: string, now: int) {
    exists k :: MostUrgent(s, k, site, now) && k in s.payloads && s.payloads[k].DoesNotParse?
  }

  lemma UnreadableClaim(s: State, site: string, worker: string, now: int, duration: int)
    requires TasksInv(s) && LogsInv(s) && worker != "" && duration > 0
    requires var r := Reap(s, site, now);
      var ks := Candidates(r.tasks, site, now);
      ks != {} && Least(r.tasks, ks) in s.payloads && s.payloads[Least(r.tasks, ks)].DoesNotParse?
    ensures ClaimForExecution(s, site, worker, now, duration) == (Reap(s, site, now), Rejected(ValidationError))
    ensures Unreadable(s, site, now)
  {
    LeastIsMostUrgent(s, site, now);
  }

  lemma ReadableClaim(s: State, site: string, worker: string, now: int, duration: int)
    requires TasksInv(s) && LogsInv(s) && worker != "" && duration > 0
    requires var r := Reap(s, site, now);
      var ks := Candidates(r.tasks, site, now);
      ks != {} && Least(r.tasks, ks) in s.payloads && s.payloads[Least(r.tasks, ks)].Parses?
    ensures var (s', reply) := ClaimForExecution(s, site, worker, now, duration);
      && reply.ClaimReply? && ClaimDid(s, s', reply.claimed, Running, site, worker, now, duration)
      && TaskKey(site, reply.claimed.taskId) in s.payloads
      && s.payloads[TaskKey(site, reply.claimed.taskId)] == Parses(reply.refs)
  {
    var r := Reap(s, site, now);
    var k := Least(r.tasks, Candidates(r.tasks, site, now));
    ReapGrantDid(s, site, Running, worker, now, duration);
    OpenIffCandidate(s, site, now, k);
    assert TaskEntry(s, k);
  }

  /** A claim for execution does the same and starts the task, unless the payload of the most urgent
      task does not parse. */
  lemma ClaimForExecutionEffect(s: State, site: string, worker: string, now: int, duration: int)
    requires Inv(s)
    ensures var (s', reply) := ClaimForExecution(s, site, worker, now, duration);
      if worker == "" || duration <= 0 then s' == s && reply == Rejected(ValidationError)
      else if forall k :: k in s.tasks ==> !Open(s.tasks[k], site, now)
      then reply == NoTask && OthersReaped(s, s', site, now, None)
      else if reply == Rejected(ValidationError) then OthersReaped(s, s', site, now, None) && Unreadable(s, site, now)
      else
        && reply.ClaimReply? && ClaimDid(s, s', reply.claimed, Running, site, worker, now, duration)
        && TaskKey(site, reply.claimed.taskId) in s.payloads
        && s.payloads[TaskKey(site, reply.claimed.taskId)] == Parses(reply.refs)
  {
    NoneOpen(s, site, now);
    ReapDid(s, site, now);
    var r := Reap(s, site, now);
    var ks := Candidates(r.tasks, site, now);
    if worker != "" && duration > 0 && ks != {} {
      assert LogEntry(s, Least(r.tasks, ks));
      if s.payloads[Least(r.tasks, ks)].DoesNotParse? {
        UnreadableClaim(s, site, worker, now, duration);
      } else {
        ReadableClaim(s, site, worker, now, duration);
      }
    }
  }

  /** Claims touch no payload, proposal, outbox row or invocation. */
  lemma ClaimsLeaveBundles(s: State, site: string, worker: string, now: int, duration: int)
    ensures var s' := Claim(s, site, worker, now, duration).0; SameBundles(s, s') && s'.payloads == s.payloads
    ensures var s' := ClaimForExecution(s, site, worker, now, duration).0; SameBundles(s, s') && s'.payloads == s.payloads
  {
    var j := ClaimShape(s, site, worker, now, duration);
    var k := ClaimForExecutionShape(s, site, worker, now, duration);
    var r := Reap(s, site, now);
    if j.Some? { GrantIs(r, r.tasks[j.value], Leased, worker, now, duration); }
    if k.Some? { GrantIs(r, r.tasks[k.value], Running, worker, now, duration); }
  }

  // ---- enqueue --------------------------------------------------------------------------------

  /** A stored task of the site under this idempotency key. */
  predicate Keyed(s: State, k: TaskKey, site: string, key: string) {
    k in s.tasks && s.tasks[k].content.site == site && s.tasks[k].content.key == key
  }

  lemma KeyedIffIndexed(s: State, site: string, key: string)
    requires TasksInv(s) && IndexInv(s)
    ensures IdemKey(site, key) in s.idempotency <==> exists k :: Keyed(s, k, site, key)
    ensures forall k :: Keyed(s, k, site, key) ==> IdemKey(site, key) in s.idempotency && s.idempotency[IdemKey(site, key)] == s.tasks[k]
  {
    var i := IdemKey(site, key);
    if i in s.idempotency {
      assert IndexEntry(s, i);
      assert Keyed(s, s.idempotency[i].Key(), site, key);
    }
    forall k | Keyed(s, k, site, key) ensures i in s.idempotency && s.idempotency[i] == s.tasks[k] {
      assert Indexed(s, k);
    }
  }

  /** What an accepted new submission stores: a queued task due when it says, with nothing done yet. */
  ghost predicate EnqueueDid(s: State, s': State, sub: Submission, now: int) {
    var k := TaskKey(sub.content.site, sub.taskId);
    && k !in s.tasks
    && s'.tasks == s.tasks[k := Task(sub.taskId, sub.content, Queued, sub.content.dueAt, 0, [], None, None, None, now, now)]
    && s'.payloads == s.payloads[k := sub.content.payload]
    && s'.timeline == s.timeline[k := [Event(sub.taskId, sub.content.site, 0, Created, now, System, None,
                                             sub.content.causation, sub.content.correlation)]]
    && s'.deadLetters == s.deadLetters && SameBundles(s, s')
  }

  lemma EnqueueReplays(s: State, sub: Submission, now: int, c: TaskKey)
    requires TasksInv(s) && IndexInv(s) && Keyed(s, c, sub.content.site, sub.content.key)
    ensures Enqueue(s, sub, now) == (s, if s.tasks[c].content == sub.content then TaskReply(s.tasks[c]) else Rejected(IdempotencyConflict))
  {
    KeyedIffIndexed(s, sub.content.site, sub.content.key);
  }

  lemma EnqueueStores(s: State, sub: Submission, now: int)
    requires IdemKey(sub.content.site, sub.content.key) !in s.idempotency && TaskKey(sub.content.site, sub.taskId) !in s.tasks
    requires sub.content.parent.Some? ==> TaskKey(sub.content.site, sub.content.parent.value) in s.tasks
    ensures var (s', reply) := Enqueue(s, sub, now);
      EnqueueDid(s, s', sub, now) && reply == TaskReply(s'.tasks[TaskKey(sub.content.site, sub.taskId)])
  {
  }

  /** A key that is in use replays the task if the submission is the same and conflicts otherwise; a
      parent must exist and the task id must be new. */
  lemma EnqueueEffect(s: State, sub: Submission, now: int)
    requires Inv(s)
    ensures var (s', reply) := Enqueue(s, sub, now);
      var k, parent := TaskKey(sub.content.site, sub.taskId), sub.content.parent;
      if exists c :: Keyed(s, c, sub.content.site, sub.content.key)
      then s' == s && forall c :: Keyed(s, c, sub.content.site, sub.content.key) ==>
             reply == if s.tasks[c].content == sub.content then TaskReply(s.tasks[c]) else Rejected(IdempotencyConflict)
      else if parent.Some? && TaskKey(sub.content.site, parent.value) !in s.tasks then s' == s && reply == Rejected(ValidationError)
      else if k in s.tasks then s' == s && reply == Rejected(ValidationError)
      else EnqueueDid(s, s', sub, now) && reply.TaskReply? && k in s'.tasks && reply.task == s'.tasks[k]
  {
    KeyedIffIndexed(s, sub.content.site, sub.content.key);
    var k, parent := TaskKey(sub.content.site, sub.taskId), sub.content.parent;
    forall c | Keyed(s, c, sub.content.site, sub.content.key)
      ensures Enqueue(s, sub, now) == (s, if s.tasks[c].content == sub.content then TaskReply(s.tasks[c]) else Rejected(IdempotencyConflict))
    {
      EnqueueReplays(s, sub, now, c);
    }
    if IdemKey(sub.content.site, sub.content.key) !in s.idempotency && k !in s.tasks
       && (parent.Some? ==> TaskKey(sub.content.site, parent.value) in s.tasks) {
      EnqueueStores(s, sub, now);
    }
  }

  // ---- calls under a lease --------------------------------------------------------------------

  /** The worker holds the task's live lease at this attempt. */
  predicate Holds(s: State, k: TaskKey, worker: string, attempt: int, now: int) {
    && k in s.tasks && s.tasks[k].status in {Leased, Running} && s.tasks[k].leaseOwner == Some(worker)
    && s.tasks[k].leaseExpiresAt.Some? && now < s.tasks[k].leaseExpiresAt.value && s.tasks[k].attempt == attempt
  }

  /** One task has a new version, and its log these new events; nothing else has moved. */
  ghost predicate Became(s: State, s': State, k: TaskKey, t: Task, kinds: seq<EventType>, now: int, worker: string) {
    && k in s.tasks && s'.tasks == s.tasks[k := t] && s'.payloads == s.payloads && SameBundles(s, s')
    && Logged(s, s', k, kinds, now, Some(worker)) && s'.timeline == s.timeline[k := s'.timeline[k]]
    && s'.deadLetters == s.deadLetters
  }

  lemma LogBecomes(s: State, k: TaskKey, t: Task, kind: EventType, now: int, worker: string)
    requires k in s.tasks && k in s.timeline && s.tasks[k].Key() == k
    requires t.taskId == s.tasks[k].taskId && t.content == s.tasks[k].content
    ensures Became(s, Log(Store(s, t), t, kind, now, Some(worker)), k, t, [kind], now, worker)
  {
    OneEvent(s, Log(Store(s, t), t, kind, now, Some(worker)), k, kind, now, Some(worker));
  }

  lemma StartEffect(s: State, k: TaskKey, worker: string, attempt: int, now: int)
    requires Inv(s)
    ensures var (s', reply) := Start(s, k, worker, attempt, now);
      if Holds(s, k, worker, attempt, now) && s.tasks[k].status == Leased then
        var t := s.tasks[k];
        var started := Task(t.taskId, t.content, Running, t.dueAt, t.attempt, t.outputs, t.failure, t.leaseOwner, t.leaseExpiresAt, t.createdAt, now);
        reply == TaskReply(started) && Became(s, s', k, started, [RunningEvent], now, worker)
      else s' == s && reply == Rejected(if k in s.tasks then LeaseConflict else TaskNotFound)
  {
    if Holds(s, k, worker, attempt, now) && s.tasks[k].status == Leased {
      assert TaskEntry(s, k) && LogEntry(s, k);
      LogBecomes(s, k, s.tasks[k].(status := Running, updatedAt := now), RunningEvent, now, worker);
    }
  }

  /** The renewed lease ends `duration` from now, also when that is sooner than before. */
  lemma HeartbeatEffect(s: State, k: TaskKey, worker: string, attempt: int, now: int, duration: int)
    requires Inv(s)
    ensures var (s', reply) := Heartbeat(s, k, worker, attempt, now, duration);
      if duration > 0 && Holds(s, k, worker, attempt, now) then
        var t := s.tasks[k];
        var renewed := Task(t.taskId, t.content, t.status, t.dueAt, t.attempt, t.outputs, t.failure, t.leaseOwner, Some(now + duration), t.createdAt, now);
        reply == TaskReply(renewed) && Became(s, s', k, renewed, [], now, worker)
      else s' == s && reply == Rejected(if duration <= 0 then ValidationError else if k in s.tasks then LeaseConflict else TaskNotFound)
  {
    if duration > 0 && Holds(s, k, worker, attempt, now) { assert TaskEntry(s, k) && LogEntry(s, k); }
  }

  lemma SucceedEffect(s: State, k: TaskKey, worker: string, attempt: int, now: int, outputs: seq<string>)
    requires Inv(s)
    ensures var (s', reply) := Succeed(s, k, worker, attempt, now, outputs);
      if Distinct(outputs) && Holds(s, k, worker, attempt, now) then
        var t := s.tasks[k];
        var done := Task(t.taskId, t.content, Succeeded, t.dueAt, t.attempt, outputs, t.failure, None, None, t.createdAt, now);
        reply == TaskReply(done) && Became(s, s', k, done, [SucceededEvent], now, worker)
      else s' == s && reply == Rejected(if !Distinct(outputs) then ValidationError else if k in s.tasks then LeaseConflict else TaskNotFound)
  {
    if Distinct(outputs) && Holds(s, k, worker, attempt, now) {
      assert TaskEntry(s, k) && LogEntry(s, k);
      LogBecomes(s, k, Release(s.tasks[k], Succeeded, now).(outputs := outputs), SucceededEvent, now, worker);
    }
  }

  lemma DeadLetterBuries(s: State, k: TaskKey, now: int, c: FailureClassification, reason: DeadLetterReason, actor: Option<string>)
    requires k in s.tasks && k in s.timeline && s.tasks[k].Key() == k
    ensures var s' := MoveToDeadLetter(s, s.tasks[k], now, c, reason, actor);
      Buried(s, s', k, now, c, reason, actor) && forall j :: j != k ==> Untouched(s, s', j)
  {
    MoveToDeadLetterIs(s, s.tasks[k], now, c, reason, actor);
    OneEvent(s, MoveToDeadLetter(s, s.tasks[k], now, c, reason, actor), k, DeadLettered, now, actor);
  }

  /** A failure sends the task back to be retried at the given time, or buries it after its last
      attempt. */
  lemma FailEffect(s: State, k: TaskKey, worker: string, attempt: int, now: int, retryAt: int, c: FailureClassification)
    requires Inv(s)
    ensures var (s', reply) := Fail(s, k, worker, attempt, now, retryAt, c);
      if retryAt <= now || !Holds(s, k, worker, attempt, now) then
        s' == s && reply == Rejected(if retryAt <= now then ValidationError else if k in s.tasks then LeaseConflict else TaskNotFound)
      else if s.tasks[k].attempt < s.tasks[k].content.maxAttempts then
        var t := s.tasks[k];
        var again := Task(t.taskId, t.content, Recheck, retryAt, t.attempt, t.outputs, Some(c), None, None, t.createdAt, now);
        reply == TaskReply(again) && Became(s, s', k, again, [RecheckScheduled], now, worker)
      else
        && Buried(s, s', k, now, c, MaxAttemptsExhausted, Some(worker)) && reply == TaskReply(s'.tasks[k])
        && forall j :: j != k ==> Untouched(s, s', j)
  {
    if retryAt > now && Holds(s, k, worker, attempt, now) {
      assert TaskEntry(s, k) && LogEntry(s, k);
      if s.tasks[k].attempt < s.tasks[k].content.maxAttempts {
        LogBecomes(s, k, Release(s.tasks[k], Recheck, now).(dueAt := retryAt, failure := Some(c)), RecheckScheduled, now, worker);
      } else {
        DeadLetterBuries(s, k, now, c, MaxAttemptsExhausted, Some(worker));
      }
    }
  }
}
