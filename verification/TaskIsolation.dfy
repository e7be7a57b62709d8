/** Sites do not see each other, and parent links always come to an end. */
module TaskIsolation {
  import opened TaskModel
  import opened TaskSpec
  import opened TaskInvariant
  import opened TaskRuns

  /** The two maps agree at the key. */
  predicate Same<K, V(==)>(a: map<K, V>, b: map<K, V>, k: K) {
    (k in a <==> k in b) && (k in a ==> a[k] == b[k])
  }

  ghost predicate Off<V(!new)>(a: map<TaskKey, V>, b: map<TaskKey, V>, site: string) {
    forall k: TaskKey {:trigger Same(a, b, k)} :: k.site != site ==> Same(a, b, k)
  }

  ghost predicate OffIndex<V(!new)>(a: map<IdemKey, V>, b: map<IdemKey, V>, site: string) {
    forall k: IdemKey {:trigger Same(a, b, k)} :: k.site != site ==> Same(a, b, k)
  }

  ghost predicate OffAttempt<V(!new)>(a: map<AttemptKey, V>, b: map<AttemptKey, V>, site: string) {
    forall k: AttemptKey {:trigger Same(a, b, k)} :: k.site != site ==> Same(a, b, k)
  }

  ghost predicate OffInvocation<V(!new)>(a: map<InvocationKey, V>, b: map<InvocationKey, V>, site: string) {
    forall k: InvocationKey {:trigger Same(a, b, k)} :: k.site != site ==> Same(a, b, k)
  }

  /** The two states agree on every task table entry keyed by another site than `site`. */
  ghost predicate TasksElsewhere(s: State, s': State, site: string) {
    && Off(s.tasks, s'.tasks, site) && Off(s.payloads, s'.payloads, site)
    && Off(s.timeline, s'.timeline, site) && Off(s.deadLetters, s'.deadLetters, site)
    && OffIndex(s.idempotency, s'.idempotency, site)
  }

  ghost predicate BundlesElsewhere(s: State, s': State, site: string) {
    && OffAttempt(s.proposals, s'.proposals, site) && OffAttempt(s.proposalIdempotency, s'.proposalIdempotency, site)
    && OffAttempt(s.outbox, s'.outbox, site)
    && OffInvocation(s.invocations, s'.invocations, site)
    && OffInvocation(s.invocationIdempotency, s'.invocationIdempotency, site)
  }

  /** The two states agree on everything keyed by another site than `site`. */
  ghost predicate AgreeElsewhere(s: State, s': State, site: string) {
    TasksElsewhere(s, s', site) && BundlesElsewhere(s, s', site)
  }

  lemma ReapTasksStay(s: State, site: string, now: int)
    requires TasksInv(s)
    ensures var r := Reap(s, site, now);
      Off(s.tasks, r.tasks, site) && Off(s.timeline, r.timeline, site) && Off(s.deadLetters, r.deadLetters, site)
  {
    var r := Reap(s, site, now);
    forall k: TaskKey | k.site != site && k in s.tasks ensures !Exhausted(s.tasks[k], site, now) {
      assert TaskEntry(s, k);
    }
  }

  lemma ReapIndexStays(s: State, site: string, now: int)
    requires IndexInv(s)
    ensures OffIndex(s.idempotency, Reap(s, site, now).idempotency, site)
  {
    var r := Reap(s, site, now);
    forall i: IdemKey | i.site != site ensures Same(s.idempotency, r.idempotency, i) {
      if i in s.idempotency { assert IndexEntry(s, i); }
    }
  }

  lemma ReapStaysInSite(s: State, site: string, now: int)
    requires TasksInv(s) && IndexInv(s)
    ensures TasksElsewhere(s, Reap(s, site, now), site)
  {
    ReapTasksStay(s, site, now);
    ReapIndexStays(s, site, now);
  }

  lemma GrantStaysInSite(s: State, t: Task, status: TaskStatus, worker: string, now: int, duration: int)
    ensures TasksElsewhere(s, Grant(s, t, status, worker, now, duration), t.content.site)
    ensures SameBundles(s, Grant(s, t, status, worker, now, duration))
  {
    GrantIs(s, t, status, worker, now, duration);
  }

  lemma OffTransitive<V(!new)>(a: map<TaskKey, V>, b: map<TaskKey, V>, c: map<TaskKey, V>, site: string)
    requires Off(a, b, site) && Off(b, c, site)
    ensures Off(a, c, site)
  {
    forall k: TaskKey | k.site != site ensures Same(a, c, k) { assert Same(a, b, k) && Same(b, c, k); }
  }

  lemma OffIndexTransitive<V(!new)>(a: map<IdemKey, V>, b: map<IdemKey, V>, c: map<IdemKey, V>, site: string)
    requires OffIndex(a, b, site) && OffIndex(b, c, site)
    ensures OffIndex(a, c, site)
  {
    forall k: IdemKey | k.site != site ensures Same(a, c, k) { assert Same(a, b, k) && Same(b, c, k); }
  }

  lemma TasksTransitive(s: State, s1: State, s2: State, site: string)
    requires TasksElsewhere(s, s1, site) && TasksElsewhere(s1, s2, site)
    ensures TasksElsewhere(s, s2, site)
  {
    OffTransitive(s.tasks, s1.tasks, s2.tasks, site);
    OffTransitive(s.payloads, s1.payloads, s2.payloads, site);
    OffTransitive(s.timeline, s1.timeline, s2.timeline, site);
    OffTransitive(s.deadLetters, s1.deadLetters, s2.deadLetters, site);
    OffIndexTransitive(s.idempotency, s1.idempotency, s2.idempotency, site);
  }

  lemma SameBundlesElsewhere(s: State, s': State, site: string)
    requires SameBundles(s, s')
    ensures BundlesElsewhere(s, s', site)
  {
  }

  lemma ReapGrantStaysInSite(s: State, site: string, status: TaskStatus, worker: string, now: int, duration: int, k: TaskKey)
    requires TasksInv(s) && IndexInv(s) && k in Candidates(Reap(s, site, now).tasks, site, now)
    ensures var r := Reap(s, site, now); TasksElsewhere(s, Grant(r, r.tasks[k], status, worker, now, duration), site)
    ensures var r := Reap(s, site, now); SameBundles(s, Grant(r, r.tasks[k], status, worker, now, duration))
  {
    var r := Reap(s, site, now);
    ReapStaysInSite(s, site, now);
    GrantStaysInSite(r, r.tasks[k], status, worker, now, duration);
    TasksTransitive(s, r, Grant(r, r.tasks[k], status, worker, now, duration), site);
  }

  lemma Unchanged(s: State, site: string)
    ensures AgreeElsewhere(s, s, site)
  {
  }

  lemma {:induction false} AppendInvocationsStayInSite(s: State, t: Task, p: Proposal, rs: seq<Invocation>)
    requires AppendInvocations(s, t, p, rs).Ok?
    ensures var s' := AppendInvocations(s, t, p, rs).value;
      && OffInvocation(s.invocations, s'.invocations, t.content.site)
      && OffInvocation(s.invocationIdempotency, s'.invocationIdempotency, t.content.site)
    decreases |rs|
  {
    if rs != [] {
      AppendInvocationsStayInSite(s, t, p, rs[..|rs|-1]);
      var s1, s' := AppendInvocations(s, t, p, rs[..|rs|-1]).value, AppendInvocations(s, t, p, rs).value;
      forall k: InvocationKey | k.site != t.content.site ensures Same(s.invocations, s'.invocations, k) {
        assert Same(s.invocations, s1.invocations, k);
      }
      forall k: InvocationKey | k.site != t.content.site ensures Same(s.invocationIdempotency, s'.invocationIdempotency, k) {
        assert Same(s.invocationIdempotency, s1.invocationIdempotency, k);
      }
    }
  }

  lemma LeaseClaimStaysInSite(s: State, site: string, worker: string, now: int, duration: int)
    requires Inv(s)
    ensures var s' := Claim(s, site, worker, now, duration).0; TasksElsewhere(s, s', site) && SameBundles(s, s')
  {
    ReapStaysInSite(s, site, now);
    Unchanged(s, site);
    var k := ClaimShape(s, site, worker, now, duration);
    if k.Some? { ReapGrantStaysInSite(s, site, Leased, worker, now, duration, k.value); }
  }

  lemma ExecutionClaimStaysInSite(s: State, site: string, worker: string, now: int, duration: int)
    requires Inv(s)
    ensures var s' := ClaimForExecution(s, site, worker, now, duration).0; TasksElsewhere(s, s', site) && SameBundles(s, s')
  {
    ReapStaysInSite(s, site, now);
    Unchanged(s, site);
    var k := ClaimForExecutionShape(s, site, worker, now, duration);
    if k.Some? { ReapGrantStaysInSite(s, site, Running, worker, now, duration, k.value); }
  }

  lemma TouchStaysInSite(s: State, s': State, k: TaskKey)
    requires TouchesOnly(s, s', k)
    ensures TasksElsewhere(s, s', k.site)
  {
  }

  lemma BundleStaysInSite(s: State, s': State, k: TaskKey, p: Proposal, now: int, rs: seq<Invocation>)
    requires Bundled(s, s', k, p, now, rs) && p.site == k.site
    ensures BundlesElsewhere(s, s', k.site)
  {
    AppendInvocationsStayInSite(s, s.tasks[k], p, rs);
  }

  lemma CompleteStaysInSite(s: State, c: Call)
    requires Inv(s) && c.CompleteCall? && Apply(s, c).0 != s
    ensures AgreeElsewhere(s, Apply(s, c).0, c.key.site)
  {
    var s' := Apply(s, c).0;
    CompleteShape(s, c);
    BundleStaysInSite(s, s', c.key, FromExecution(s.tasks[c.key], c.result).value, c.now, c.result.invocations);
    TouchStaysInSite(s, s', c.key);
  }

  lemma GuardedStaysInSite(s: State, c: Call)
    requires Inv(s) && c.Guarded() && !c.CompleteCall? && Apply(s, c).0 != s
    ensures AgreeElsewhere(s, Apply(s, c).0, c.key.site)
  {
    GuardedShape(s, c);
    TouchStaysInSite(s, Apply(s, c).0, c.key);
    SameBundlesElsewhere(s, Apply(s, c).0, c.key.site);
  }

  lemma AddStaysInSite(s: State, s': State, t: Task)
    requires s' == s.(tasks := s.tasks[t.Key() := t], idempotency := s.idempotency[t.Idem() := t],
                      payloads := s'.payloads, timeline := s'.timeline)
    requires t.Key() in s'.payloads && s'.payloads == s.payloads[t.Key() := s'.payloads[t.Key()]]
    requires t.Key() in s'.timeline && s'.timeline == s.timeline[t.Key() := s'.timeline[t.Key()]]
    ensures AgreeElsewhere(s, s', t.content.site)
  {
  }

  lemma EnqueueStaysInSite(s: State, sub: Submission, now: int)
    ensures AgreeElsewhere(s, Enqueue(s, sub, now).0, sub.content.site)
  {
    var s' := Enqueue(s, sub, now).0;
    if s' == s {
      Unchanged(s, sub.content.site);
    } else {
      var t := FreshTask(sub, now);
      assert s'.tasks == s.tasks[t.Key() := t] && s'.idempotency == s.idempotency[t.Idem() := t];
      AddStaysInSite(s, s', t);
    }
  }

  /** No call on one site changes anything keyed by another. */
  lemma CallStaysInSite(s: State, c: Call)
    requires Inv(s)
    ensures AgreeElsewhere(s, Apply(s, c).0, c.Site())
  {
    var s', site := Apply(s, c).0, c.Site();
    if s' == s {
      Unchanged(s, site);
    } else if c.EnqueueCall? {
      EnqueueStaysInSite(s, c.sub, c.now);
    } else if c.CompleteCall? {
      CompleteStaysInSite(s, c);
    } else if c.Guarded() {
      GuardedStaysInSite(s, c);
    } else {
      if c.ClaimCall? { LeaseClaimStaysInSite(s, site, c.worker, c.now, c.duration); }
      else { ExecutionClaimStaysInSite(s, site, c.worker, c.now, c.duration); }
      SameBundlesElsewhere(s, s', site);
    }
  }

  // ---- parents ------------------------------------------------------------------------------

  /** A walk up parent links. */
  predicate ParentPath(s: State, path: seq<TaskKey>) {
    && (forall i :: 0 <= i < |path| ==> path[i] in s.tasks)
    && (forall i :: 0 <= i < |path| - 1 ==>
          s.tasks[path[i]].content.parent.Some? && path[i+1] == ParentKey(s.tasks[path[i]]))
  }

  lemma {:induction false} RankDropsAlong(s: State, rank: map<TaskKey, nat>, path: seq<TaskKey>, i: nat, j: nat)
    requires Ranked(s.tasks, rank) && ParentPath(s, path) && i < j < |path|
    ensures path[i] in rank && path[j] in rank && rank[path[j]] < rank[path[i]]
    decreases j
  {
    assert ParentBelow(s.tasks, rank, path[j-1]);
    if i < j - 1 {
      RankDropsAlong(s, rank, path, i, j - 1);
    }
  }

  /** In every reachable state, following parents visits each task at most once, stays in one
      site, and so ends within the number of stored tasks. */
  lemma ParentPathsEnd(calls: seq<Call>, path: seq<TaskKey>)
    requires Valid(calls) && ParentPath(Run(EMPTY, calls), path)
    ensures |path| <= |Run(EMPTY, calls).tasks|
    ensures Distinct(path)
    ensures forall i :: 0 <= i < |path| ==> path[i].site == path[0].site
  {
    EmptyIsInv();
    RunKeepsInv(EMPTY, calls);
    var s := Run(EMPTY, calls);
    var rank: map<TaskKey, nat> :| Ranked(s.tasks, rank);
    forall i, j | 0 <= i < j < |path| ensures path[i] != path[j] { RankDropsAlong(s, rank, path, i, j); }
    DistinctFits(path, s.tasks.Keys);
    forall i | 0 <= i < |path| ensures path[i].site == path[0].site { PathInOneSite(s, path, i); }
  }

  lemma {:induction false} PathInOneSite(s: State, path: seq<TaskKey>, i: nat)
    requires TasksInv(s) && ParentPath(s, path) && i < |path|
    ensures path[i].site == path[0].site
  {
    if i > 0 {
      PathInOneSite(s, path, i - 1);
      assert TaskEntry(s, path[i-1]);
    }
  }

  lemma {:induction false} DistinctFits<T>(xs: seq<T>, ys: set<T>)
    requires Distinct(xs) && forall i :: 0 <= i < |xs| ==> xs[i] in ys
    ensures |xs| <= |ys|
    decreases |xs|
  {
    if xs != [] {
      var n := |xs| - 1;
      forall i | 0 <= i < n ensures xs[..n][i] in ys - {xs[n]} { assert xs[i] != xs[n]; }
      DistinctFits(xs[..n], ys - {xs[n]});
    }
  }
}
