/** From the task queue to the outbox: the bundle that a completed attempt leaves for the claim of its
    outbox row, and exactly which completions leave one that can be read. */
module TaskBundles {
  import opened TaskModel
  import opened TaskSpec
  import opened TaskInvariant
  import opened TaskRuns
  import opened TaskProposals
  import opened ProposalBundle

  function IdentityOf(r: Invocation): ModelIdentity {
    ModelIdentity(r.requestedModel, if r.observedModel.Some? then r.observedModel.value else r.requestedModel)
  }

  /** The rows the invocations table has for these ids, which completion keeps distinct. */
  function ModelRows(invocations: map<InvocationKey, Invocation>, site: string, ids: seq<string>): seq<ModelIdentity> {
    if ids == [] then []
    else
      var k := InvocationKey(site, ids[|ids|-1]);
      ModelRows(invocations, site, ids[..|ids|-1]) + if k in invocations then [IdentityOf(invocations[k])] else []
  }

  /** The join over proposal, task and invocations that a claim of the outbox row reads. */
  function BundleOf(s: State, k: AttemptKey): Bundle
    requires k in s.proposals && TaskKey(k.site, k.task) in s.tasks
  {
    var p, t := s.proposals[k], s.tasks[TaskKey(k.site, k.task)];
    var d := p.bundle.document;
    Bundle(p.proposalId, p.site, p.taskId, t.content.purpose, AI, AIDraft, p.actionType, p.subjectType, p.subjectRef,
           p.subjectRevision, p.evidenceRefs, p.invocationIds, ModelRows(s.invocations, p.site, p.invocationIds),
           d.policy, d.payload, d.safe)
  }

  /** What the join yields for a completed attempt: the document that was submitted, in the terms of its
      task, and the models of its invocations. */
  lemma BundleTellsTheDocument(calls: seq<Call>, k: AttemptKey)
    requires Valid(calls) && k in Run(EMPTY, calls).proposals
    ensures var s := Run(EMPTY, calls);
      && TaskKey(k.site, k.task) in s.tasks
      && var b, t := BundleOf(s, k), s.tasks[TaskKey(k.site, k.task)];
      var d, rs := s.proposals[k].bundle.document, s.proposals[k].bundle.invocations;
      && b.proposalId == d.proposalId && b.site == k.site && b.taskId == k.task && b.purpose == t.content.purpose
      && b.origin == AI && b.review == AIDraft && b.action == d.actionType
      && b.subjectType == t.content.subjectType && b.subjectRef == t.content.subjectRef && b.subjectRevision == d.targetRevision
      && b.evidenceRefs == d.evidenceRefs && b.policy == d.policy && b.payload == d.payload && b.safe == d.safe
      && |b.invocationIds| == |b.models| == |rs|
      && forall i :: 0 <= i < |rs| ==>
           && b.invocationIds[i] == rs[i].id && b.models[i].requested == rs[i].requestedModel
           && b.models[i].version == if rs[i].observedModel.Some? then rs[i].observedModel.value else rs[i].requestedModel
  {
    EmptyIsInv();
    RunKeepsInv(EMPTY, calls);
    RunMakesWell(EMPTY, calls);
    var s := Run(EMPTY, calls);
    assert ProposalEntry(s, k) && WellMadeAt(s, k) && TaskEntry(s, TaskKey(k.site, k.task));
    RowsAreComplete(s.invocations, k.site, s.proposals[k].bundle.invocations);
  }

  // ---- which completions can be delivered -----------------------------------------------------

  /** All invocations ran on one model, the policy version is a text if present, and the ids fit. A
      caller can check this before it completes the task; completion does not. */
  predicate Deliverable(site: string, d: ProposalDocument, rs: seq<Invocation>) {
    && (forall i :: 0 <= i < |rs| ==> IdentityOf(rs[i]) == IdentityOf(rs[0]))
    && !d.policy.PolicyNotText? && 1 <= |d.proposalId| <= 256 && 1 <= |site| <= 256
  }

  lemma {:induction false} RowsAreComplete(invocations: map<InvocationKey, Invocation>, site: string, rs: seq<Invocation>)
    requires forall i :: 0 <= i < |rs| ==> rs[i].site == site && rs[i].Key() in invocations && invocations[rs[i].Key()] == rs[i]
    ensures var rows := ModelRows(invocations, site, InvocationIds(rs));
      |rows| == |rs| && forall i :: 0 <= i < |rs| ==> rows[i] == IdentityOf(rs[i])
    decreases |rs|
  {
    if rs != [] {
      var n := |rs| - 1;
      RowsAreComplete(invocations, site, rs[..n]);
      assert InvocationIds(rs)[..n] == InvocationIds(rs[..n]);
      assert InvocationIds(rs)[n] == rs[n].id;
    }
  }

  /** In every reachable state no invocation row is ever missing, and the outbox row of a completed
      attempt can be read exactly when its result was deliverable. */
  lemma ReadableIffDeliverable(calls: seq<Call>, k: AttemptKey)
    requires Valid(calls) && k in Run(EMPTY, calls).proposals
    ensures var s := Run(EMPTY, calls);
      && TaskKey(k.site, k.task) in s.tasks
      && |BundleOf(s, k).models| == |BundleOf(s, k).invocationIds|
      && (Readable(BundleOf(s, k)) <==>
            Deliverable(k.site, s.proposals[k].bundle.document, s.proposals[k].bundle.invocations))
  {
    EmptyIsInv();
    RunKeepsInv(EMPTY, calls);
    RunMakesWell(EMPTY, calls);
    var s := Run(EMPTY, calls);
    assert ProposalEntry(s, k) && WellMadeAt(s, k);
    RowsAreComplete(s.invocations, k.site, s.proposals[k].bundle.invocations);
  }

  predicate SameAt(a: map<InvocationKey, Invocation>, b: map<InvocationKey, Invocation>, k: InvocationKey) {
    k in a && k in b && a[k] == b[k]
  }

  lemma {:induction false} SameRows(a: map<InvocationKey, Invocation>, b: map<InvocationKey, Invocation>, site: string, ids: seq<string>)
    requires forall i :: 0 <= i < |ids| ==> SameAt(a, b, InvocationKey(site, ids[i]))
    ensures ModelRows(a, site, ids) == ModelRows(b, site, ids)
    decreases |ids|
  {
    if ids != [] {
      assert SameAt(a, b, InvocationKey(site, ids[|ids|-1]));
      SameRows(a, b, site, ids[..|ids|-1]);
    }
  }

  lemma ForwardKeepsRows(s: State, s': State, p: Proposal)
    requires RecordsForward(s, s') && Replayed(s, p.bundle.invocations) && p.invocationIds == InvocationIds(p.bundle.invocations)
    requires forall i :: 0 <= i < |p.bundle.invocations| ==> p.bundle.invocations[i].site == p.site
    ensures ModelRows(s'.invocations, p.site, p.invocationIds) == ModelRows(s.invocations, p.site, p.invocationIds)
  {
    forall i | 0 <= i < |p.invocationIds| ensures SameAt(s'.invocations, s.invocations, InvocationKey(p.site, p.invocationIds[i])) {
      assert p.bundle.invocations[i].Key() == InvocationKey(p.site, p.invocationIds[i]);
    }
    SameRows(s'.invocations, s.invocations, p.site, p.invocationIds);
  }

  /** What a claim will read is fixed at completion: no later call changes it. */
  lemma BundleIsFixed(s: State, calls: seq<Call>, k: AttemptKey)
    requires Inv(s) && AllWellMade(s) && Valid(calls) && k in s.proposals && TaskKey(k.site, k.task) in s.tasks
    ensures var s' := Run(s, calls); k in s'.proposals && TaskKey(k.site, k.task) in s'.tasks && BundleOf(s', k) == BundleOf(s, k)
  {
    var s' := Run(s, calls);
    RunIsForward(s, calls);
    assert TaskForward(s, s', TaskKey(k.site, k.task)) && ProposalEntry(s, k) && WellMadeAt(s, k);
    ForwardKeepsRows(s, s', s.proposals[k]);
  }
}
