/** What the tables hold about a proposal when its outbox row is claimed, and reading it into the
    envelope of the claim. */
module ProposalBundle {
  import opened Wrappers
  import opened TaskModel
  import opened Materializer

  /** requested_model and COALESCE(observed_model, requested_model). */
  datatype ModelIdentity = ModelIdentity(requested: string, version: string)

  /** `models` are the rows found for `invocationIds`, which need not be complete or agree. */
  datatype Bundle = Bundle(
    proposalId: string, site: string, taskId: string, purpose: string, origin: Origin, review: ReviewStatus,
    action: ActionType, subjectType: string, subjectRef: string, subjectRevision: int,
    evidenceRefs: seq<string>, invocationIds: seq<string>, models: seq<ModelIdentity>,
    policy: PolicyVersion, payload: DraftPayload, safe: bool)

  function Identities(models: seq<ModelIdentity>): set<ModelIdentity> { set i | 0 <= i < |models| :: models[i] }

  /** The checks of the claim after its update, in order; None when one of them raises. */
  function ReadBundle(b: Bundle): Option<Envelope> {
    if b.invocationIds != [] && |b.models| != |b.invocationIds| then None
    else if b.invocationIds != [] && |Identities(b.models)| != 1 then None
    else if b.policy.PolicyNotText? then None
    else if b.proposalId == "" || |b.proposalId| > 256 || b.site == "" || |b.site| > 256 then None
    else
      var model := if b.invocationIds == [] || b.models == [] then None else Some(b.models[0]);
      Some(Envelope(b.proposalId, b.taskId, b.purpose, b.origin, b.review, b.action, b.subjectType, b.subjectRef,
                    b.subjectRevision, b.evidenceRefs, if model.Some? then Some(model.value.requested) else None,
                    if model.Some? then Some(model.value.version) else None,
                    if b.policy.PolicyText? then Some(b.policy.text) else None, b.payload, b.safe))
  }

  /** What a bundle must be for its row ever to be claimed: every invocation is there, all ran on one
      model, the policy version is a text if present, and the ids fit. */
  predicate Readable(b: Bundle) {
    && (b.invocationIds != [] ==> |b.models| == |b.invocationIds| && forall i :: 0 <= i < |b.models| ==> b.models[i] == b.models[0])
    && !b.policy.PolicyNotText?
    && 1 <= |b.proposalId| <= 256 && 1 <= |b.site| <= 256
  }

  lemma OneIdentityIff(models: seq<ModelIdentity>)
    requires models != []
    ensures |Identities(models)| == 1 <==> forall i :: 0 <= i < |models| ==> models[i] == models[0]
  {
    var ids := Identities(models);
    assert models[0] in ids;
    if forall i :: 0 <= i < |models| ==> models[i] == models[0] {
      assert ids == {models[0]};
    } else {
      var i :| 0 <= i < |models| && models[i] != models[0];
      assert {models[0], models[i]} <= ids;
      SubsetSize({models[0], models[i]}, ids);
    }
  }

  lemma {:induction false} SubsetSize<T>(a: set<T>, b: set<T>)
    requires a <= b
    ensures |a| <= |b|
    decreases |a|
  {
    if a != {} {
      var x :| x in a;
      SubsetSize(a - {x}, b - {x});
    }
  }

  /** Reading succeeds exactly on readable bundles. */
  lemma ReadIffReadable(b: Bundle)
    ensures ReadBundle(b).Some? <==> Readable(b)
  {
    if b.invocationIds != [] && |b.models| == |b.invocationIds| { OneIdentityIff(b.models); }
  }

  /** What a readable bundle's envelope says: the bundle's columns as they are, and the one model of its
      invocations. */
  lemma EnvelopeIs(b: Bundle)
    ensures ReadBundle(b).Some? ==>
      var e := ReadBundle(b).value;
      && e.proposalId == b.proposalId && e.taskId == b.taskId && e.purpose == b.purpose && e.origin == b.origin
      && e.review == b.review && e.action == b.action && e.subjectType == b.subjectType && e.subjectRef == b.subjectRef
      && e.subjectRevision == b.subjectRevision && e.evidenceRefs == b.evidenceRefs && e.payload == b.payload && e.safe == b.safe
      && (e.policyVersion == match b.policy case PolicyText(t) => Some(t) case _ => None)
      && (b.invocationIds == [] ==> e.modelName.None? && e.modelVersion.None?)
      && (b.invocationIds != [] ==>
            forall i :: 0 <= i < |b.models| ==> e.modelName == Some(b.models[i].requested) && e.modelVersion == Some(b.models[i].version))
  {
    ReadIffReadable(b);
  }
}
