/** TrustedMaterializer: the pure boundary that shapes a proposal into a draft intent. */
module Materializer {
  import opened Wrappers
  import opened TaskModel
  import opened PythonText

  datatype Envelope = Envelope(
    proposalId: string, taskId: string, purpose: string, origin: Origin, review: ReviewStatus,
    action: ActionType, subjectType: string, subjectRef: string, subjectRevision: int,
    evidenceRefs: seq<string>, modelName: Option<string>, modelVersion: Option<string>,
    policyVersion: Option<string>, payload: DraftPayload, safe: bool)

  /** A controlled subject snapshot; its digest is the snapshot itself. */
  datatype Subject = Subject(doctype: string, name: string, revision: int, body: string)

  datatype Context = Context(team: string, reviewer: Option<string>, snapshot: Option<Subject>)

  datatype Values =
    | SubmitValues(name: string, origin: Origin, review: ReviewStatus)
    | WorkItemValues(title: string, team: string, refType: string, refName: string, origin: Origin,
                     originRef: string, review: ReviewStatus)
    | ObservationValues(heading: string, summary: string, team: string, evidence: seq<string>,
                        modelVersion: string, official: bool, origin: Origin, originRef: string,
                        review: ReviewStatus)
    | ReviewCaseValues(title: string, team: string, reviewer: string, subject: Subject,
                       evidence: seq<string>, policyVersion: string, origin: Origin,
                       originRef: string, review: ReviewStatus)

  datatype Operation = Create | Submit

  const APPROVED_MODEL := "deepseek-v4-flash"

  datatype Intent = Intent(operation: Operation, doctype: Doctype, values: Values)

  function StripLeft(s: string): string {
    if s != "" && Space(s[0]) then StripLeft(s[1..]) else s
  }

  function Strip(s: string): string { StripRight(StripLeft(s)) }

  function StripRight(s: string): string {
    if s != "" && Space(s[|s|-1]) then StripRight(s[..|s|-1]) else s
  }

  function RequireText(value: Option<string>, maximum: nat): Result<string, Error> {
    if value.None? then Err(ValidationError)
    else
      var text := Strip(value.value);
      if text == "" || |text| > maximum then Err(ValidationError) else Ok(text)
  }

  function TrustedEvidence(refs: seq<string>): Result<seq<string>, Error> {
    if refs == [] || !Distinct(refs) then Err(ValidationError) else StripAll(refs)
  }

  function StripAll(refs: seq<string>): Result<seq<string>, Error> {
    if refs == [] then Ok([])
    else
      match (RequireText(Some(refs[0]), 500), StripAll(refs[1..]))
      case (Ok(r), Ok(rest)) => Ok([r] + rest)
      case _ => Err(ValidationError)
  }

  function Materialize(e: Envelope, context: Option<Context>): Result<Intent, Error> {
    if e.origin != AI || e.review != AIDraft || e.action.OtherAction? || !e.safe then Err(ValidationError)
    else if e.payload.NoPayload? then Err(ValidationError)
    else if e.action == WorkItemTransitionPropose then MaterializeTransition(e)
    else if context.None? then Err(ValidationError)
    else
      match (RequireText(Some(context.value.team), 140), RequireText(Some(e.proposalId), 256),
             RequireText(if e.payload.TextPayload? then e.payload.title else None, 140))
      case (Ok(team), Ok(id), Ok(title)) =>
        if e.action == WorkItemPropose then MaterializeWorkItem(e, team, id, title)
        else if e.action == AiDraftPropose then MaterializeObservation(e, team, id, title)
        else MaterializeReviewCase(e, context.value, team, id, title)
      case _ => Err(ValidationError)
  }

  function MaterializeTransition(e: Envelope): Result<Intent, Error> {
    var p := e.payload;
    if !p.TransitionPayload? || (p.target != WorkItem && p.target != ReviewCase)
      || p.fromStatus != AIDraft || p.toStatus != Pending then Err(ValidationError)
    else Ok(Intent(Submit, p.target, SubmitValues(p.targetRef, AI, Pending)))
  }

  function MaterializeWorkItem(e: Envelope, team: string, id: string, title: string): Result<Intent, Error> {
    match (RequireText(Some(e.subjectType), 140), RequireText(Some(e.subjectRef), 256))
    case (Ok(st), Ok(sr)) => Ok(Intent(Create, WorkItem, WorkItemValues(title, team, st, sr, AI, id, AIDraft)))
    case _ => Err(ValidationError)
  }

  function MaterializeObservation(e: Envelope, team: string, id: string, title: string): Result<Intent, Error> {
    if !e.payload.TextPayload? || e.payload.officialMetric != Some(false) then Err(ValidationError)
    else
      match (RequireText(e.payload.summary, 2000), RequireText(e.modelName, 160), RequireText(e.modelVersion, 160),
             TrustedEvidence(e.evidenceRefs))
      case (Ok(summary), Ok(name), Ok(version), Ok(evidence)) =>
        if name != APPROVED_MODEL then Err(ValidationError)
        else Ok(Intent(Create, InformalObservation,
                  ObservationValues(title, summary, team, evidence, version, false, AI, id, AIDraft)))
      case _ => Err(ValidationError)
  }

  function MaterializeReviewCase(e: Envelope, c: Context, team: string, id: string, title: string): Result<Intent, Error> {
    if e.subjectRevision < 1 || c.snapshot.None? then Err(ValidationError)
    else
      match (RequireText(c.reviewer, 256), RequireText(Some(e.subjectType), 140), RequireText(Some(e.subjectRef), 256),
             TrustedEvidence(e.evidenceRefs), RequireText(e.policyVersion, 140))
      case (Ok(reviewer), Ok(st), Ok(sr), Ok(evidence), Ok(policy)) =>
        if c.snapshot.value.doctype != st || c.snapshot.value.name != sr || c.snapshot.value.revision != e.subjectRevision
        then Err(ValidationError)
        else Ok(Intent(Create, ReviewCase,
                       ReviewCaseValues(title, team, reviewer, c.snapshot.value, evidence, policy, AI, id, AIDraft)))
      case _ => Err(ValidationError)
  }

  /** What an intent may be: an AI draft bound to its proposal, or the submission of an AI draft
      for review. Never an official metric, never an outcome. */
  predicate Reversible(e: Envelope, i: Intent) {
    && (i.operation == Submit <==> e.action == WorkItemTransitionPropose)
    && match i.values
       case SubmitValues(_, origin, review) =>
         i.operation == Submit && i.doctype in {WorkItem, ReviewCase} && origin == AI && review == Pending
       case WorkItemValues(_, _, _, _, origin, ref, review) =>
         i.operation == Create && i.doctype == WorkItem && origin == AI && review == AIDraft && ref == Strip(e.proposalId)
       case ObservationValues(_, _, _, _, _, official, origin, ref, review) =>
         i.operation == Create && i.doctype == InformalObservation && !official && origin == AI && review == AIDraft && ref == Strip(e.proposalId)
       case ReviewCaseValues(_, _, _, subject, _, _, origin, ref, review) =>
         i.operation == Create && i.doctype == ReviewCase && origin == AI && review == AIDraft && ref == Strip(e.proposalId)
         && subject.revision == e.subjectRevision && subject.name == Strip(e.subjectRef)
  }

  lemma IntentsAreReversible(e: Envelope, context: Option<Context>)
    requires Materialize(e, context).Ok?
    ensures e.origin == AI && e.review == AIDraft && e.safe && Reversible(e, Materialize(e, context).value)
  {
  }

  // ---- what an intent says --------------------------------------------------------------------

  /** `t` is `s` without the whitespace around it. */
  ghost predicate Stripped(s: string, t: string) {
    exists i, j :: 0 <= i <= j <= |s| && t == s[i..j]
      && (forall k :: 0 <= k < i || j <= k < |s| ==> Space(s[k])) && (t != "" ==> !Space(t[0]) && !Space(t[|t|-1]))
  }

  lemma {:induction false} StripRightIs(s: string)
    ensures |StripRight(s)| <= |s| && StripRight(s) == s[..|StripRight(s)|]
    ensures forall k :: |StripRight(s)| <= k < |s| ==> Space(s[k])
    ensures StripRight(s) != "" ==> !Space(StripRight(s)[|StripRight(s)|-1])
    decreases |s|
  {
    if s != "" && Space(s[|s|-1]) { StripRightIs(s[..|s|-1]); }
  }

  lemma {:induction false} StripLeftIs(s: string)
    ensures |StripLeft(s)| <= |s| && StripLeft(s) == s[|s| - |StripLeft(s)|..]
    ensures forall k :: 0 <= k < |s| - |StripLeft(s)| ==> Space(s[k])
    ensures StripLeft(s) != "" ==> !Space(StripLeft(s)[0])
    decreases |s|
  {
    if s != "" && Space(s[0]) {
      StripLeftIs(s[1..]);
      forall k | 0 <= k < |s| - |StripLeft(s)| ensures Space(s[k]) { if k > 0 { assert s[1..][k-1] == s[k]; } }
    }
  }

  lemma StripIs(s: string)
    ensures Stripped(s, Strip(s))
  {
    var l := StripLeft(s);
    var t := StripRight(l);
    StripLeftIs(s);
    StripRightIs(l);
    var i := |s| - |l|;
    assert t == s[i..i + |t|];
    forall k | 0 <= k < i || i + |t| <= k < |s| ensures Space(s[k]) { if k >= i { assert l[k - i] == s[k]; } }
    assert t != "" ==> t[0] == l[0];
  }

  predicate Fits(text: string, maximum: nat) { 1 <= |Strip(text)| <= maximum }

  predicate FitsSome(text: Option<string>, maximum: nat) { text.Some? && Fits(text.value, maximum) }

  /** The references are the given ones in order, without the whitespace around each. */
  predicate EvidenceOf(refs: seq<string>, evidence: seq<string>) {
    && refs != [] && |evidence| == |refs|
    && (forall i, j :: 0 <= i < j < |refs| ==> refs[i] != refs[j])
    && forall i :: 0 <= i < |refs| ==> Fits(refs[i], 500) && evidence[i] == Strip(refs[i])
  }

  function Evidence(i: Intent): seq<string> {
    match i.values
    case ObservationValues(_, _, _, evidence, _, _, _, _, _) => evidence
    case ReviewCaseValues(_, _, _, _, evidence, _, _, _, _) => evidence
    case _ => []
  }

  /** The fields every created draft takes from envelope and context. */
  predicate Creatable(e: Envelope, c: Option<Context>) {
    c.Some? && Fits(c.value.team, 140) && Fits(e.proposalId, 256) && e.payload.TextPayload? && FitsSome(e.payload.title, 140)
  }

  /** The intent that a proposal document and a trusted context stand for, field by field. */
  predicate Means(e: Envelope, c: Option<Context>, i: Intent) {
    && e.origin == AI && e.review == AIDraft && e.safe
    && match e.action
       case WorkItemTransitionPropose =>
         && e.payload.TransitionPayload? && e.payload.target in {WorkItem, ReviewCase}
         && e.payload.fromStatus == AIDraft && e.payload.toStatus == Pending
         && i == Intent(Submit, e.payload.target, SubmitValues(e.payload.targetRef, AI, Pending))
       case WorkItemPropose =>
         && Creatable(e, c) && Fits(e.subjectType, 140) && Fits(e.subjectRef, 256)
         && i == Intent(Create, WorkItem, WorkItemValues(
                   Strip(e.payload.title.value), Strip(c.value.team), Strip(e.subjectType), Strip(e.subjectRef),
                   AI, Strip(e.proposalId), AIDraft))
       case AiDraftPropose =>
         && Creatable(e, c) && e.payload.officialMetric == Some(false) && FitsSome(e.payload.summary, 2000)
         && FitsSome(e.modelName, 160) && Strip(e.modelName.value) == "deepseek-v4-flash" && FitsSome(e.modelVersion, 160)
         && EvidenceOf(e.evidenceRefs, Evidence(i))
         && i == Intent(Create, InformalObservation, ObservationValues(
                   Strip(e.payload.title.value), Strip(e.payload.summary.value), Strip(c.value.team), Evidence(i),
                   Strip(e.modelVersion.value), false, AI, Strip(e.proposalId), AIDraft))
       case ReviewCasePropose =>
         && Creatable(e, c) && e.subjectRevision >= 1 && FitsSome(c.value.reviewer, 256) && Fits(e.subjectType, 140)
         && Fits(e.subjectRef, 256) && FitsSome(e.policyVersion, 140) && EvidenceOf(e.evidenceRefs, Evidence(i))
         && c.value.snapshot.Some? && c.value.snapshot.value.doctype == Strip(e.subjectType)
         && c.value.snapshot.value.name == Strip(e.subjectRef) && c.value.snapshot.value.revision == e.subjectRevision
         && i == Intent(Create, ReviewCase, ReviewCaseValues(
                   Strip(e.payload.title.value), Strip(c.value.team), Strip(c.value.reviewer.value), c.value.snapshot.value,
                   Evidence(i), Strip(e.policyVersion.value), AI, Strip(e.proposalId), AIDraft))
       case OtherAction(_) => false
  }

  lemma {:induction false} StripAllIs(refs: seq<string>)
    ensures StripAll(refs).Ok? <==> forall i :: 0 <= i < |refs| ==> Fits(refs[i], 500)
    ensures StripAll(refs).Ok? ==> |StripAll(refs).value| == |refs| && forall i :: 0 <= i < |refs| ==> StripAll(refs).value[i] == Strip(refs[i])
    decreases |refs|
  {
    if refs != [] {
      StripAllIs(refs[1..]);
      assert refs == [refs[0]] + refs[1..];
      assert (forall i :: 0 <= i < |refs| ==> Fits(refs[i], 500)) <==> Fits(refs[0], 500) && forall i :: 0 <= i < |refs[1..]| ==> Fits(refs[1..][i], 500) by {
        forall i | 0 < i < |refs| ensures refs[i] == refs[1..][i-1] {}
        if forall i :: 0 <= i < |refs| ==> Fits(refs[i], 500) {
          forall i | 0 <= i < |refs[1..]| ensures Fits(refs[1..][i], 500) { assert refs[1..][i] == refs[i+1]; }
        }
      }
    }
  }

  lemma TrustedEvidenceIs(refs: seq<string>, evidence: seq<string>)
    ensures TrustedEvidence(refs) == Ok(evidence) <==> EvidenceOf(refs, evidence)
  {
    StripAllIs(refs);
    if EvidenceOf(refs, evidence) { assert StripAll(refs).value == evidence; }
  }

  predicate ObservationOf(e: Envelope, evidence: seq<string>) {
    && e.payload.TextPayload? && e.payload.officialMetric == Some(false) && FitsSome(e.payload.summary, 2000)
    && FitsSome(e.modelName, 160) && Strip(e.modelName.value) == "deepseek-v4-flash" && FitsSome(e.modelVersion, 160)
    && EvidenceOf(e.evidenceRefs, evidence)
  }

  lemma ObservationShaped(e: Envelope, team: string, id: string, title: string, i: Intent)
    ensures MaterializeObservation(e, team, id, title) == Ok(i) <==>
      && ObservationOf(e, Evidence(i))
      && i == Intent(Create, InformalObservation, ObservationValues(title, Strip(e.payload.summary.value), team, Evidence(i),
                                                                    Strip(e.modelVersion.value), false, AI, id, AIDraft))
  {
    TrustedEvidenceIs(e.evidenceRefs, Evidence(i));
  }

  lemma ObservationMeans(e: Envelope, c: Option<Context>, i: Intent)
    requires e.action == AiDraftPropose
    ensures Materialize(e, c) == Ok(i) <==> Means(e, c, i)
  {
    if Creatable(e, c) {
      ObservationShaped(e, Strip(c.value.team), Strip(e.proposalId), Strip(e.payload.title.value), i);
    }
  }

  /** The part of a review case that is not shared with other drafts. */
  predicate ReviewCaseOf(e: Envelope, c: Context, evidence: seq<string>) {
    && e.subjectRevision >= 1 && FitsSome(c.reviewer, 256) && Fits(e.subjectType, 140)
    && Fits(e.subjectRef, 256) && FitsSome(e.policyVersion, 140) && EvidenceOf(e.evidenceRefs, evidence)
    && c.snapshot.Some? && c.snapshot.value.doctype == Strip(e.subjectType)
    && c.snapshot.value.name == Strip(e.subjectRef) && c.snapshot.value.revision == e.subjectRevision
  }

  lemma ReviewCaseShaped(e: Envelope, c: Context, team: string, id: string, title: string, i: Intent)
    ensures MaterializeReviewCase(e, c, team, id, title) == Ok(i) <==>
      && ReviewCaseOf(e, c, Evidence(i))
      && i == Intent(Create, ReviewCase, ReviewCaseValues(title, team, Strip(c.reviewer.value), c.snapshot.value, Evidence(i),
                                                          Strip(e.policyVersion.value), AI, id, AIDraft))
  {
    TrustedEvidenceIs(e.evidenceRefs, Evidence(i));
  }

  lemma ReviewCaseMeans(e: Envelope, c: Option<Context>, i: Intent)
    requires e.action == ReviewCasePropose
    ensures Materialize(e, c) == Ok(i) <==> Means(e, c, i)
  {
    if Creatable(e, c) {
      ReviewCaseShaped(e, c.value, Strip(c.value.team), Strip(e.proposalId), Strip(e.payload.title.value), i);
    }
  }

  /** The materializer yields an intent exactly when the proposal means it. */
  lemma MaterializesIffMeant(e: Envelope, c: Option<Context>, i: Intent)
    ensures Materialize(e, c) == Ok(i) <==> Means(e, c, i)
  {
    if e.action == AiDraftPropose { ObservationMeans(e, c, i); }
    if e.action == ReviewCasePropose { ReviewCaseMeans(e, c, i); }
  }

  /** Some trusted context turns this proposal into this intent. */
  ghost predicate Derived(e: Envelope, i: Intent) {
    exists context :: Materialize(e, context) == Ok(i)
  }

  lemma DerivedIsReversible(e: Envelope, i: Intent)
    requires Derived(e, i)
    ensures Reversible(e, i)
  {
    var context :| Materialize(e, context) == Ok(i);
    IntentsAreReversible(e, context);
  }

  lemma DerivedIsMeant(e: Envelope, i: Intent)
    requires Derived(e, i)
    ensures exists c :: Means(e, c, i)
  {
    var c :| Materialize(e, c) == Ok(i);
    MaterializesIffMeant(e, c, i);
  }
}
