/** When a completion is accepted, and how long a task waits that is not due. */
module TaskOutcomes {
  import opened Wrappers
  import opened TaskModel
  import opened TaskSpec
  import opened TaskInvariant
  import opened TaskRuns
  import opened TaskTheorems
  import opened TaskEffects
  import opened TaskProposals

  // ---- recording invocations ------------------------------------------------------------------

  predicate Recorded(s: State, r: Invocation) {
    exists k :: k in s.invocations && s.invocations[k] == r
  }

  predicate Clash(a: Invocation, b: Invocation) {
    a.site == b.site && (a.id == b.id || a.key == b.key)
  }

  /** The record is stored already, or shares neither its id nor its key with any other. */
  predicate Storable(s: State, rs: seq<Invocation>, i: nat)
    requires i < |rs|
  {
    || Recorded(s, rs[i])
    || (&& (forall k :: k in s.invocations ==> !Clash(s.invocations[k], rs[i]))
        && (forall j :: 0 <= j < i ==> !Clash(rs[j], rs[i])))
  }

  lemma OneAppendsIff(s: State, t: Task, p: Proposal, r: Invocation)
    requires InvocationsInv(s)
    ensures AppendInvocation(s, t, p, r).Ok? <==>
      Bound(t, p, r) && (Recorded(s, r) || forall k :: k in s.invocations ==> !Clash(s.invocations[k], r))
  {
    forall k | k in s.invocations ensures s.invocations[k].Key() == k && InvocationEntry(s, k) { assert InvocationEntry(s, k); }
    if r.Idem() in s.invocationIdempotency {
      assert InvocationIdemEntry(s, r.Idem());
      assert Clash(s.invocations[s.invocationIdempotency[r.Idem()].Key()], r);
    } else if r.Key() in s.invocations {
      assert Clash(s.invocations[r.Key()], r);
    }
  }

  lemma OneAppendAdds(s: State, t: Task, p: Proposal, r: Invocation, k: InvocationKey)
    requires InvocationsInv(s) && AppendInvocation(s, t, p, r).Ok?
    ensures k in AppendInvocation(s, t, p, r).value.invocations <==> k in s.invocations || k == r.Key()
  {
    if r.Idem() in s.invocationIdempotency { assert InvocationIdemEntry(s, r.Idem()); }
  }

  /** The table after the appends holds what it held before and these records. */
  ghost predicate Added(s: State, s': State, rs: seq<Invocation>) {
    && (forall k :: k in s'.invocations ==> (k in s.invocations && s'.invocations[k] == s.invocations[k])
                                            || exists j :: 0 <= j < |rs| && s'.invocations[k] == rs[j])
    && (forall k :: k in s.invocations ==> k in s'.invocations && s'.invocations[k] == s.invocations[k])
    && forall j :: 0 <= j < |rs| ==> rs[j].Key() in s'.invocations && s'.invocations[rs[j].Key()] == rs[j]
  }

  lemma OneMoreAdded(s: State, s1: State, t: Task, p: Proposal, rs: seq<Invocation>, k: InvocationKey)
    requires rs != [] && InvocationsInv(s1) && Added(s, s1, rs[..|rs|-1]) && AppendInvocation(s1, t, p, rs[|rs|-1]).Ok?
    requires var s' := AppendInvocation(s1, t, p, rs[|rs|-1]).value; k in s'.invocations
    ensures var s' := AppendInvocation(s1, t, p, rs[|rs|-1]).value;
      (k in s.invocations && s'.invocations[k] == s.invocations[k]) || exists j :: 0 <= j < |rs| && s'.invocations[k] == rs[j]
  {
    var n := |rs| - 1;
    AppendInvocationGrows(s1, t, p, rs[n]);
    OneAppendAdds(s1, t, p, rs[n], k);
    if k in s1.invocations && !(k in s.invocations && s1.invocations[k] == s.invocations[k]) {
      var j :| 0 <= j < n && s1.invocations[k] == rs[..n][j];
      assert s1.invocations[k] == rs[j];
    }
  }

  lemma {:induction false} AppendsAdd(s: State, t: Task, p: Proposal, rs: seq<Invocation>)
    requires InvocationsInv(s) && AppendInvocations(s, t, p, rs).Ok?
    ensures Added(s, AppendInvocations(s, t, p, rs).value, rs)
    decreases |rs|
  {
    AppendInvocationsGrows(s, t, p, rs);
    if rs != [] {
      var n := |rs| - 1;
      AppendsAdd(s, t, p, rs[..n]);
      AppendInvocationsGrows(s, t, p, rs[..n]);
      var s1, s' := AppendInvocations(s, t, p, rs[..n]).value, AppendInvocations(s, t, p, rs).value;
      forall k | k in s'.invocations
        ensures (k in s.invocations && s'.invocations[k] == s.invocations[k]) || exists j :: 0 <= j < |rs| && s'.invocations[k] == rs[j]
      {
        OneMoreAdded(s, s1, t, p, rs, k);
      }
    }
  }

  lemma LastStorable(s: State, s1: State, rs: seq<Invocation>)
    requires rs != [] && Distinct(InvocationIds(rs)) && Added(s, s1, rs[..|rs|-1])
    ensures var r := rs[|rs|-1];
      Storable(s, rs, |rs| - 1) <==> Recorded(s1, r) || forall k :: k in s1.invocations ==> !Clash(s1.invocations[k], r)
  {
    var n := |rs| - 1;
    IdsAre(rs);
    if Recorded(s1, rs[n]) {
      var k :| k in s1.invocations && s1.invocations[k] == rs[n];
      assert k in s.invocations && s1.invocations[k] == s.invocations[k];
    }
    forall j | 0 <= j < n ensures rs[j].Key() in s1.invocations && s1.invocations[rs[j].Key()] == rs[j] { assert rs[..n][j] == rs[j]; }
    if Recorded(s, rs[n]) {
      var k :| k in s.invocations && s.invocations[k] == rs[n];
      assert s1.invocations[k] == rs[n];
    }
  }

  lemma ShorterStorable(s: State, rs: seq<Invocation>, i: nat)
    requires rs != [] && i < |rs| - 1
    ensures Storable(s, rs[..|rs|-1], i) <==> Storable(s, rs, i)
  {
    forall j | 0 <= j <= i ensures rs[..|rs|-1][j] == rs[j] {}
  }

  predicate AllFit(s: State, t: Task, p: Proposal, rs: seq<Invocation>) {
    forall i {:trigger rs[i]} :: 0 <= i < |rs| ==> Bound(t, p, rs[i]) && Storable(s, rs, i)
  }

  lemma AllFitSplits(s: State, t: Task, p: Proposal, rs: seq<Invocation>)
    requires rs != []
    ensures var n := |rs| - 1; AllFit(s, t, p, rs) <==> AllFit(s, t, p, rs[..n]) && Bound(t, p, rs[n]) && Storable(s, rs, n)
  {
    var n := |rs| - 1;
    forall i: nat | i < n ensures rs[..n][i] == rs[i] && (Storable(s, rs[..n], i) <==> Storable(s, rs, i)) { ShorterStorable(s, rs, i); }
    if AllFit(s, t, p, rs[..n]) && Bound(t, p, rs[n]) && Storable(s, rs, n) {
      forall i | 0 <= i < |rs| ensures Bound(t, p, rs[i]) && Storable(s, rs, i) { if i < n { assert rs[..n][i] == rs[i]; } }
    }
    if AllFit(s, t, p, rs) {
      forall i | 0 <= i < n ensures Bound(t, p, rs[..n][i]) && Storable(s, rs[..n], i) { assert rs[..n][i] == rs[i]; }
    }
  }

  lemma DistinctPrefix(rs: seq<Invocation>)
    requires rs != [] && Distinct(InvocationIds(rs))
    ensures Distinct(InvocationIds(rs[..|rs|-1]))
  {
    IdsAre(rs);
    IdsAre(rs[..|rs|-1]);
  }

  lemma {:induction false} AppendsIff(s: State, t: Task, p: Proposal, rs: seq<Invocation>)
    requires InvocationsInv(s) && Distinct(InvocationIds(rs))
    ensures AppendInvocations(s, t, p, rs).Ok? <==> AllFit(s, t, p, rs)
    decreases |rs|
  {
    if rs != [] {
      var n := |rs| - 1;
      DistinctPrefix(rs);
      AppendsIff(s, t, p, rs[..n]);
      AllFitSplits(s, t, p, rs);
      if AppendInvocations(s, t, p, rs[..n]).Ok? {
        var s1 := AppendInvocations(s, t, p, rs[..n]).value;
        AppendInvocationsGrows(s, t, p, rs[..n]);
        AppendsAdd(s, t, p, rs[..n]);
        LastStorable(s, s1, rs);
        OneAppendsIff(s1, t, p, rs[n]);
      }
    }
  }

  // ---- completion -----------------------------------------------------------------------------

  predicate IdTaken(s: State, site: string, id: string) {
    exists j :: j in s.proposals && j.site == site && s.proposals[j].proposalId == id
  }

  /** The worker may complete the attempt with this result for the first time. */
  ghost predicate MayWrite(s: State, k: TaskKey, worker: string, attempt: int, now: int, d: ProposalDocument, rs: seq<Invocation>) {
    && Holds(s, k, worker, attempt, now) && s.tasks[k].status == Running
    && AllRecordable(s, s.tasks[k], d, rs) && !IdTaken(s, k.site, d.proposalId)
  }

  /** Every invocation belongs to the task and the document and can be recorded. */
  predicate AllRecordable(s: State, t: Task, d: ProposalDocument, rs: seq<Invocation>) {
    forall i {:trigger rs[i]} :: 0 <= i < |rs| ==> Belongs(rs[i], t, d) && Storable(s, rs, i)
  }

  lemma FitIffRecordable(s: State, t: Task, p: Proposal, d: ProposalDocument, rs: seq<Invocation>)
    requires p.evidenceRefs == d.evidenceRefs
    ensures AllFit(s, t, p, rs) <==> AllRecordable(s, t, d, rs)
  {
    forall i | 0 <= i < |rs| ensures Bound(t, p, rs[i]) <==> Belongs(rs[i], t, d) {}
    if AllFit(s, t, p, rs) {
      forall i | 0 <= i < |rs| ensures Belongs(rs[i], t, d) && Storable(s, rs, i) { assert Bound(t, p, rs[i]); }
    }
    if AllRecordable(s, t, d, rs) {
      forall i | 0 <= i < |rs| ensures Bound(t, p, rs[i]) && Storable(s, rs, i) { assert Belongs(rs[i], t, d); }
    }
  }

  lemma IdTakenIff(s: State, p: Proposal)
    requires ProposalsInv(s)
    ensures ProposalIdUsed(s, p) <==> IdTaken(s, p.site, p.proposalId)
  {
    forall j | j in s.proposals ensures s.proposals[j].site == j.site { assert ProposalEntry(s, j); }
  }

  lemma BundleWritesIff(s: State, t: Task, p: Proposal, worker: string, now: int, rs: seq<Invocation>)
    requires ProposalsInv(s) && InvocationsInv(s) && p.Key() !in s.proposals
    ensures WriteBundle(s, t, p, worker, now, rs).Ok? <==> AppendInvocations(s, t, p, rs).Ok? && !ProposalIdUsed(s, p)
  {
    assert p.Key() !in s.proposalIdempotency;
    if AppendInvocations(s, t, p, rs).Ok? { AppendInvocationsGrows(s, t, p, rs); }
  }

  lemma WritesIff(s: State, k: TaskKey, p: Proposal, worker: string, now: int, d: ProposalDocument, rs: seq<Invocation>)
    requires ProposalsInv(s) && InvocationsInv(s) && k in s.tasks
    requires p.Key() !in s.proposals && p.site == k.site && p.proposalId == d.proposalId && p.evidenceRefs == d.evidenceRefs
    requires Distinct(InvocationIds(rs)) && Holds(s, k, worker, s.tasks[k].attempt, now) && s.tasks[k].status == Running
    ensures WriteBundle(s, s.tasks[k], p, worker, now, rs).Ok? <==> MayWrite(s, k, worker, s.tasks[k].attempt, now, d, rs)
  {
    BundleWritesIff(s, s.tasks[k], p, worker, now, rs);
    AppendsIff(s, s.tasks[k], p, rs);
    IdTakenIff(s, p);
    FitIffRecordable(s, s.tasks[k], p, d, rs);
  }

  /** A completion is accepted exactly when the document is acceptable and either the attempt has the
      same proposal already, whoever asks, or the worker may write it: it runs the task under a live lease,
      the invocations belong to it and can be recorded, and no proposal of the site has the id. */
  lemma CompletesIff(s: State, k: TaskKey, worker: string, attempt: int, now: int, result: ExecutionResult)
    requires Inv(s)
    ensures var d, rs, pk := result.document, result.invocations, AttemptKey(k.site, k.task, attempt);
      Complete(s, k, worker, attempt, now, result).1.TaskReply? <==>
        && k in s.tasks && s.tasks[k].attempt == attempt && Acceptable(s.tasks[k], d, rs)
        && if pk in s.proposals then s.proposals[pk].bundle == BundleDigest(k.task, attempt, d, rs)
           else MayWrite(s, k, worker, attempt, now, d, rs)
  {
    if k in s.tasks && s.tasks[k].attempt == attempt {
      var t := s.tasks[k];
      assert TaskEntry(s, k);
      MadeIffAcceptable(t, result);
      if FromExecution(t, result).Ok? {
        var p := FromExecution(t, result).value;
        if p.Key() in s.proposals {
          if s.proposals[p.Key()].bundle == p.bundle { ReplayFindsItsFence(s, k, result); }
        } else {
          IdsAre(result.invocations);
          if Holds(s, k, worker, attempt, now) && t.status == Running {
            WritesIff(s, k, p, worker, now, result.document, result.invocations);
          }
        }
      }
    }
  }

  // ---- waiting --------------------------------------------------------------------------------

  /** No claim of the site reads a clock at or after this time. */
  predicate ClaimsBefore(calls: seq<Call>, site: string, until: int) {
    forall i :: 0 <= i < |calls| && (calls[i].ClaimCall? || calls[i].ClaimForExecutionCall?) && calls[i].site == site ==>
      calls[i].now < until
  }

  lemma GrantLeavesWaiting(s: State, s': State, g: Task, status: TaskStatus, site: string, worker: string, now: int, duration: int, k: TaskKey)
    requires ClaimDid(s, s', g, status, site, worker, now, duration)
    requires k in s.tasks && s.tasks[k].status in {Queued, Recheck} && (site == s.tasks[k].content.site ==> now < s.tasks[k].dueAt)
    ensures Untouched(s, s', k)
  {
  }

  lemma ReapLeavesWaiting(s: State, s': State, site: string, now: int, k: TaskKey)
    requires OthersReaped(s, s', site, now, None) && k in s.tasks && s.tasks[k].status in {Queued, Recheck}
    ensures Untouched(s, s', k)
  {
  }

  lemma QueueClaimLeavesWaiting(s: State, site: string, worker: string, now: int, duration: int, k: TaskKey)
    requires Inv(s) && k in s.tasks && s.tasks[k].status in {Queued, Recheck}
    requires site == s.tasks[k].content.site ==> now < s.tasks[k].dueAt
    ensures Untouched(s, Claim(s, site, worker, now, duration).0, k)
  {
    var (s', reply) := Claim(s, site, worker, now, duration);
    ClaimEffect(s, site, worker, now, duration);
    if OthersReaped(s, s', site, now, None) {
      ReapLeavesWaiting(s, s', site, now, k);
    } else if s' != s {
      GrantLeavesWaiting(s, s', reply.task, Leased, site, worker, now, duration, k);
    }
  }

  lemma ExecutionClaimLeavesWaiting(s: State, site: string, worker: string, now: int, duration: int, k: TaskKey)
    requires Inv(s) && k in s.tasks && s.tasks[k].status in {Queued, Recheck}
    requires site == s.tasks[k].content.site ==> now < s.tasks[k].dueAt
    ensures Untouched(s, ClaimForExecution(s, site, worker, now, duration).0, k)
  {
    var (s', reply) := ClaimForExecution(s, site, worker, now, duration);
    ClaimForExecutionEffect(s, site, worker, now, duration);
    if OthersReaped(s, s', site, now, None) {
      ReapLeavesWaiting(s, s', site, now, k);
    } else if s' != s {
      GrantLeavesWaiting(s, s', reply.claimed, Running, site, worker, now, duration, k);
    }
  }

  lemma GuardedLeavesWaiting(s: State, c: Call, k: TaskKey)
    requires Inv(s) && k in s.tasks && s.tasks[k].status in {Queued, Recheck} && c.Guarded()
    ensures k in Apply(s, c).0.tasks && Apply(s, c).0.tasks[k] == s.tasks[k]
  {
    if Apply(s, c).0 != s {
      GuardedNeedsLease(s, c);
      assert c.key != k;
      if c.CompleteCall? {
        CompleteEffect(s, c.key, c.worker, c.attempt, c.now, c.result);
      } else {
        GuardedShape(s, c);
      }
    }
  }

  lemma GuardedNeedsLease(s: State, c: Call)
    requires Inv(s) && c.Guarded() && Apply(s, c).0 != s
    ensures Holds(s, c.key, c.worker, c.attempt, c.now)
  {
    match c
    case StartCall(k, w, a, now) => StartEffect(s, k, w, a, now);
    case HeartbeatCall(k, w, a, now, d) => HeartbeatEffect(s, k, w, a, now, d);
    case SucceedCall(k, w, a, now, outputs) => SucceedEffect(s, k, w, a, now, outputs);
    case FailCall(k, w, a, now, retryAt, cl) => FailEffect(s, k, w, a, now, retryAt, cl);
    case CompleteCall(k, w, a, now, result) => CompleteEffect(s, k, w, a, now, result);
  }

  lemma ApplyLeavesWaiting(s: State, c: Call, k: TaskKey)
    requires Inv(s) && k in s.tasks && s.tasks[k].status in {Queued, Recheck}
    requires (c.ClaimCall? || c.ClaimForExecutionCall?) && c.site == s.tasks[k].content.site ==> c.now < s.tasks[k].dueAt
    ensures k in Apply(s, c).0.tasks && Apply(s, c).0.tasks[k] == s.tasks[k]
  {
    if c.EnqueueCall? {
      EnqueueEffect(s, c.sub, c.now);
    } else if c.Guarded() {
      GuardedLeavesWaiting(s, c, k);
    } else {
      if c.ClaimCall? {
        QueueClaimLeavesWaiting(s, c.site, c.worker, c.now, c.duration, k);
      } else {
        ExecutionClaimLeavesWaiting(s, c.site, c.worker, c.now, c.duration, k);
      }
    }
  }

  /** Whatever is called, a queued or rechecked task stays exactly as it is until a claim of its site
      reads a clock that has reached its due time. */
  lemma {:induction false} WaitsUntilDue(s: State, calls: seq<Call>, k: TaskKey)
    requires Inv(s) && Valid(calls) && k in s.tasks && s.tasks[k].status in {Queued, Recheck}
    requires ClaimsBefore(calls, s.tasks[k].content.site, s.tasks[k].dueAt)
    ensures k in Run(s, calls).tasks && Run(s, calls).tasks[k] == s.tasks[k]
    decreases |calls|
  {
    if calls != [] {
      ApplyLeavesWaiting(s, calls[0], k);
      ApplyKeepsInv(s, calls[0]);
      assert ClaimsBefore(calls[1..], s.tasks[k].content.site, s.tasks[k].dueAt);
      WaitsUntilDue(Apply(s, calls[0]).0, calls[1..], k);
    }
  }

  /** A task that failed before its last attempt is not claimed again before its retry time, in any
      continuation. */
  lemma FailedTaskWaits(s: State, k: TaskKey, worker: string, attempt: int, now: int, retryAt: int, c: FailureClassification, calls: seq<Call>)
    requires Inv(s) && Valid(calls)
    requires retryAt > now && Holds(s, k, worker, attempt, now) && attempt < s.tasks[k].content.maxAttempts
    requires ClaimsBefore(calls, s.tasks[k].content.site, retryAt)
    ensures var tasks := Run(Fail(s, k, worker, attempt, now, retryAt, c).0, calls).tasks;
      k in tasks && tasks[k].status == Recheck && tasks[k].attempt == attempt && tasks[k].dueAt == retryAt && tasks[k].failure == Some(c)
  {
    FailEffect(s, k, worker, attempt, now, retryAt, c);
    TaskInvariant.FailKeepsInv(s, k, worker, attempt, now, retryAt, c);
    WaitsUntilDue(Fail(s, k, worker, attempt, now, retryAt, c).0, calls, k);
  }
}
