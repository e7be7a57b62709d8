/** InMemoryModelInvocationRepository: two indexes over one set of records, and bundles that are
    recorded whole or not at all. */
module InvocationLog {
  import opened Wrappers
  import opened TaskModel

  datatype Records = Records(byId: map<InvocationKey, Invocation>, byIdempotency: map<InvocationKey, Invocation>)

  const EMPTY: Records := Records(map[], map[])

  datatype AppendError = Conflict | SiteMismatch | BodyRaised

  function Append(s: Records, r: Invocation): Result<Records, AppendError> {
    if r.Idem() in s.byIdempotency then
      if s.byIdempotency[r.Idem()] != r then Err(Conflict) else Ok(s)
    else if r.Key() in s.byId then Err(Conflict)
    else Ok(Records(s.byId[r.Key() := r], s.byIdempotency[r.Idem() := r]))
  }

  /** The appends of a bundle, up to the first that fails. */
  function AppendAll(s: Records, site: string, rs: seq<Invocation>): Result<Records, AppendError>
    decreases |rs|
  {
    if rs == [] then Ok(s)
    else if rs[0].site != site then Err(SiteMismatch)
    else match Append(s, rs[0])
      case Err(e) => Err(e)
      case Ok(s1) => AppendAll(s1, site, rs[1..])
  }

  /** A bundle's effect: everything or, on any failure, nothing. */
  function Bundle(s: Records, site: string, rs: seq<Invocation>): Records {
    match AppendAll(s, site, rs) case Ok(s') => s' case Err(_) => s
  }

  // ---- the indexes mirror each other ----------------------------------------------------------

  predicate ById(s: Records, k: InvocationKey) {
    k in s.byId ==>
      && s.byId[k].Key() == k
      && s.byId[k].Idem() in s.byIdempotency && s.byIdempotency[s.byId[k].Idem()] == s.byId[k]
  }

  predicate ByIdempotency(s: Records, k: InvocationKey) {
    k in s.byIdempotency ==>
      && s.byIdempotency[k].Idem() == k
      && s.byIdempotency[k].Key() in s.byId && s.byId[s.byIdempotency[k].Key()] == s.byIdempotency[k]
  }

  ghost predicate Mirrored(s: Records) {
    && (forall k {:trigger ById(s, k)} :: ById(s, k))
    && (forall k {:trigger ByIdempotency(s, k)} :: ByIdempotency(s, k))
  }

  /** Nothing recorded is changed or lost. */
  ghost predicate Grew(s: Records, s': Records) {
    && (forall k :: k in s.byId ==> k in s'.byId && s'.byId[k] == s.byId[k])
    && (forall k :: k in s.byIdempotency ==> k in s'.byIdempotency && s'.byIdempotency[k] == s.byIdempotency[k])
  }

  lemma AppendKeepsMirror(s: Records, r: Invocation)
    requires Mirrored(s) && Append(s, r).Ok?
    ensures var s' := Append(s, r).value; Mirrored(s') && Grew(s, s') && r.Idem() in s'.byIdempotency && s'.byIdempotency[r.Idem()] == r
  {
    var s' := Append(s, r).value;
    forall k ensures ById(s', k) { assert ById(s, k); }
    forall k ensures ByIdempotency(s', k) { assert ByIdempotency(s, k); }
  }

  lemma {:induction false} AppendAllKeepsMirror(s: Records, site: string, rs: seq<Invocation>)
    requires Mirrored(s) && AppendAll(s, site, rs).Ok?
    ensures var s' := AppendAll(s, site, rs).value;
      && Mirrored(s') && Grew(s, s')
      && forall i :: 0 <= i < |rs| ==> rs[i].site == site && rs[i].Idem() in s'.byIdempotency && s'.byIdempotency[rs[i].Idem()] == rs[i]
    decreases |rs|
  {
    if rs != [] {
      AppendKeepsMirror(s, rs[0]);
      AppendAllKeepsMirror(Append(s, rs[0]).value, site, rs[1..]);
    }
  }

  lemma {:induction false} RecordedReplays(s: Records, site: string, rs: seq<Invocation>)
    requires forall i :: 0 <= i < |rs| ==> rs[i].site == site && rs[i].Idem() in s.byIdempotency && s.byIdempotency[rs[i].Idem()] == rs[i]
    ensures AppendAll(s, site, rs) == Ok(s)
    decreases |rs|
  {
    if rs != [] { RecordedReplays(s, site, rs[1..]); }
  }

  // ---- runs -----------------------------------------------------------------------------------

  datatype BundleCall = BundleCall(site: string, records: seq<Invocation>)

  ghost function Run(s: Records, calls: seq<BundleCall>): Records
    decreases |calls|
  {
    if calls == [] then s else Run(Bundle(s, calls[0].site, calls[0].records), calls[1..])
  }

  lemma {:induction false} RunKeepsMirror(s: Records, calls: seq<BundleCall>)
    requires Mirrored(s)
    ensures Mirrored(Run(s, calls)) && Grew(s, Run(s, calls))
    decreases |calls|
  {
    if calls != [] {
      var c := calls[0];
      if AppendAll(s, c.site, c.records).Ok? { AppendAllKeepsMirror(s, c.site, c.records); }
      RunKeepsMirror(Bundle(s, c.site, c.records), calls[1..]);
    }
  }

  /** A bundle recorded once is recorded for good: after any later run every record is found under
      both of its keys, and recording the bundle again succeeds and changes nothing. */
  lemma BundleIsIdempotentForever(s: Records, site: string, rs: seq<Invocation>, later: seq<BundleCall>)
    requires Mirrored(s) && AppendAll(s, site, rs).Ok?
    ensures var s' := Run(AppendAll(s, site, rs).value, later);
      && AppendAll(s', site, rs) == Ok(s')
      && forall i :: 0 <= i < |rs| ==> rs[i].Key() in s'.byId && s'.byId[rs[i].Key()] == rs[i]
  {
    AppendAllKeepsMirror(s, site, rs);
    RunKeepsMirror(AppendAll(s, site, rs).value, later);
    var s' := Run(AppendAll(s, site, rs).value, later);
    RecordedReplays(s', site, rs);
    forall i | 0 <= i < |rs| ensures rs[i].Key() in s'.byId && s'.byId[rs[i].Key()] == rs[i] {
      assert ByIdempotency(s', rs[i].Idem());
    }
  }

  // ---- the class ------------------------------------------------------------------------------

  class InvocationRepository {
    var records: map<InvocationKey, Invocation>
    var idempotency: map<InvocationKey, Invocation>

    ghost function Contents(): Records
      reads this
    {
      Records(records, idempotency)
    }

    constructor ()
      ensures Contents() == EMPTY
    {
      records, idempotency := map[], map[];
    }

    method AppendOne(r: Invocation) returns (failure: Option<AppendError>)
      modifies this
      ensures Append(old(Contents()), r) == if failure.Some? then Err(failure.value) else Ok(Contents())
      ensures failure.Some? ==> Contents() == old(Contents())
    {
      if r.Idem() in idempotency {
        if idempotency[r.Idem()] != r {
          return Some(Conflict);
        }
        return None;
      }
      if r.Key() in records {
        return Some(Conflict);
      }
      records := records[r.Key() := r];
      idempotency := idempotency[r.Idem() := r];
      return None;
    }

    /** record_bundle around a body that appends `rs` and then raises or not: on any exception both
        dictionaries are put back. */
    method RecordBundle(site: string, rs: seq<Invocation>, raises: bool) returns (failure: Option<AppendError>)
      modifies this
      ensures failure.Some? ==> Contents() == old(Contents())
      ensures failure.None? ==> !raises && AppendAll(old(Contents()), site, rs) == Ok(Contents())
      ensures failure.None? <==> !raises && AppendAll(old(Contents()), site, rs).Ok?
      ensures Contents() == if raises then old(Contents()) else Bundle(old(Contents()), site, rs)
    {
      var recordsBefore, idempotencyBefore := records, idempotency;
      var i := 0;
      failure := None;
      while i < |rs| && failure.None?
        invariant 0 <= i <= |rs|
        invariant failure.None? ==> AppendAll(old(Contents()), site, rs) == AppendAll(Contents(), site, rs[i..])
        invariant failure.Some? ==> AppendAll(old(Contents()), site, rs) == Err(failure.value)
        decreases |rs| - i, if failure.None? then 1 else 0
      {
        if rs[i].site != site {
          failure := Some(SiteMismatch);
        } else {
          failure := AppendOne(rs[i]);
          assert rs[i..][1..] == rs[i+1..];
          i := i + 1;
        }
      }
      if failure.None? && raises {
        failure := Some(BodyRaised);
      }
      if failure.Some? {
        records, idempotency := recordsBefore, idempotencyBefore;
      }
    }
  }
}
