/** The refs-only task payload and its mapping form. The two text scanners, the direct-PII pattern
    and the forbidden-key normalisation, are parameters. */
module PayloadCodec {
  import opened Wrappers

  /** JSON object keys: the schema's own, and any other. */
  datatype Key =
    | SchemaVersion | EvidenceRefs | FactVersionRefs | Subject | Request | Revision | FactId | FactVersion
    | RequestedBy | DecisionRef | ExpectedActionType | CandidateRefs | OtherKey(name: string)

  /** JSON as Python holds it; a sequence may be a list or a tuple. */
  datatype Json =
    | Object(fields: map<Key, Json>) | List(items: seq<Json>) | Tuple(items: seq<Json>)
    | Text(text: string) | Integer(n: int) | Flag(b: bool) | Float(r: real) | Null

  // ---- freeze and thaw ------------------------------------------------------------------------

  function Freeze(j: Json): Json {
    match j
    case Object(f) => Object(map k | k in f :: Freeze(f[k]))
    case List(xs) => Tuple(seq(|xs|, i requires 0 <= i < |xs| => Freeze(xs[i])))
    case Tuple(xs) => Tuple(seq(|xs|, i requires 0 <= i < |xs| => Freeze(xs[i])))
    case _ => j
  }

  /** A list met by thaw is copied as it is. */
  function Thaw(j: Json): Json {
    match j
    case Object(f) => Object(map k | k in f :: Thaw(f[k]))
    case Tuple(xs) => List(seq(|xs|, i requires 0 <= i < |xs| => Thaw(xs[i])))
    case _ => j
  }

  /** No tuple anywhere. */
  predicate ListsOnly(j: Json) {
    match j
    case Object(f) => forall k :: k in f ==> ListsOnly(f[k])
    case List(xs) => forall i :: 0 <= i < |xs| ==> ListsOnly(xs[i])
    case Tuple(_) => false
    case _ => true
  }

  /** The same document with every tuple written as a list. */
  function AsLists(j: Json): Json {
    match j
    case Object(f) => Object(map k | k in f :: AsLists(f[k]))
    case List(xs) => List(seq(|xs|, i requires 0 <= i < |xs| => AsLists(xs[i])))
    case Tuple(xs) => List(seq(|xs|, i requires 0 <= i < |xs| => AsLists(xs[i])))
    case _ => j
  }

  lemma {:induction false} FreezeIsIdempotent(j: Json)
    ensures Freeze(Freeze(j)) == Freeze(j)
  {
    match j
    case Object(f) =>
      forall k | k in f ensures Freeze(Freeze(f[k])) == Freeze(f[k]) { FreezeIsIdempotent(f[k]); }
    case List(xs) => forall i | 0 <= i < |xs| ensures Freeze(Freeze(xs[i])) == Freeze(xs[i]) { FreezeIsIdempotent(xs[i]); }
    case Tuple(xs) => forall i | 0 <= i < |xs| ensures Freeze(Freeze(xs[i])) == Freeze(xs[i]) { FreezeIsIdempotent(xs[i]); }
    case _ =>
  }

  /** Freezing and thawing any document gives it back with lists for tuples. */
  lemma {:induction false} ThawFreeze(j: Json)
    ensures Thaw(Freeze(j)) == AsLists(j)
  {
    match j
    case Object(f) => forall k | k in f ensures Thaw(Freeze(f[k])) == AsLists(f[k]) { ThawFreeze(f[k]); }
    case List(xs) => forall i | 0 <= i < |xs| ensures Thaw(Freeze(xs[i])) == AsLists(xs[i]) { ThawFreeze(xs[i]); }
    case Tuple(xs) => forall i | 0 <= i < |xs| ensures Thaw(Freeze(xs[i])) == AsLists(xs[i]) { ThawFreeze(xs[i]); }
    case _ =>
  }

  /** It changes nothing exactly when the document has no tuple. */
  lemma {:induction false} ListsOnlyIffUnchanged(j: Json)
    ensures AsLists(j) == j <==> ListsOnly(j)
  {
    match j
    case Object(f) =>
      forall k | k in f ensures AsLists(f[k]) == f[k] <==> ListsOnly(f[k]) { ListsOnlyIffUnchanged(f[k]); }
      if AsLists(j) == j {
        forall k | k in f ensures AsLists(f[k]) == f[k] { assert AsLists(j).fields[k] == f[k]; }
      }
    case List(xs) =>
      forall i | 0 <= i < |xs| ensures AsLists(xs[i]) == xs[i] <==> ListsOnly(xs[i]) { ListsOnlyIffUnchanged(xs[i]); }
      if AsLists(j) == j {
        forall i | 0 <= i < |xs| ensures AsLists(xs[i]) == xs[i] { assert AsLists(j).items[i] == xs[i]; }
      }
    case _ =>
  }

  lemma RoundTripIffListsOnly(j: Json)
    ensures Thaw(Freeze(j)) == j <==> ListsOnly(j)
  {
    ThawFreeze(j);
    ListsOnlyIffUnchanged(j);
  }

  // ---- scanning -------------------------------------------------------------------------------

  datatype Scanner = Scanner(pii: string -> bool, forbidden: Key -> bool)

  const SCHEMA := "local-pilot-agent-task-v1"

  const ROOT: set<Key> := {SchemaVersion, EvidenceRefs, FactVersionRefs, Subject, Request}
  const REQUEST: set<Key> := {RequestedBy, DecisionRef, ExpectedActionType, CandidateRefs}

  /** The schema's own words are not themselves forbidden. */
  ghost predicate Sane(sc: Scanner) {
    !sc.pii(SCHEMA) && forall k: Key :: !k.OtherKey? ==> !sc.forbidden(k)
  }

  /** _contains_direct_pii: a forbidden key or a matching text anywhere in the tree. */
  predicate ContainsPii(sc: Scanner, j: Json) {
    match j
    case Object(f) => exists k :: k in f && (sc.forbidden(k) || ContainsPii(sc, f[k]))
    case List(xs) => exists i :: 0 <= i < |xs| && ContainsPii(sc, xs[i])
    case Tuple(xs) => exists i :: 0 <= i < |xs| && ContainsPii(sc, xs[i])
    case Text(t) => sc.pii(t)
    case _ => false
  }

  // ---- the tree, place by place ---------------------------------------------------------------

  datatype Step = Member(key: Key) | Item(index: nat)

  /** What stands at a place of the tree. */
  function At(j: Json, path: seq<Step>): Option<Json>
    decreases |path|
  {
    if path == [] then Some(j)
    else match (j, path[0])
      case (Object(f), Member(k)) => if k in f then At(f[k], path[1..]) else None
      case (List(xs), Item(i)) => if i < |xs| then At(xs[i], path[1..]) else None
      case (Tuple(xs), Item(i)) => if i < |xs| then At(xs[i], path[1..]) else None
      case _ => None
  }

  /** At this place there is a matching text or an object with a forbidden key. */
  predicate Offends(sc: Scanner, j: Json, path: seq<Step>) {
    match At(j, path)
    case Some(Text(t)) => sc.pii(t)
    case Some(Object(f)) => exists k :: k in f && sc.forbidden(k)
    case _ => false
  }

  lemma AtStep(j: Json, step: Step, path: seq<Step>)
    ensures At(j, [step] + path) == match At(j, [step]) case Some(x) => At(x, path) case None => None
  {
    assert ([step] + path)[1..] == path && [step][1..] == [];
  }

  lemma AtOneStep(j: Json, step: Step, x: Json)
    requires match step
      case Member(k) => j.Object? && k in j.fields && j.fields[k] == x
      case Item(i) => (j.List? || j.Tuple?) && i < |j.items| && j.items[i] == x
    ensures At(j, [step]) == Some(x)
  {
    assert [step][1..] == [] && At(x, []) == Some(x);
  }

  lemma OffendsBelow(sc: Scanner, j: Json, step: Step, path: seq<Step>)
    requires At(j, [step]).Some? && Offends(sc, At(j, [step]).value, path)
    ensures Offends(sc, j, [step] + path)
  {
    AtStep(j, step, path);
  }

  lemma {:induction false} OffenceIsFound(sc: Scanner, j: Json, path: seq<Step>)
    requires Offends(sc, j, path)
    ensures ContainsPii(sc, j)
    decreases |path|
  {
    if path != [] {
      var x := At(j, path[..1]);
      assert path == [path[0]] + path[1..] && path[..1] == [path[0]];
      AtStep(j, path[0], path[1..]);
      OffenceIsFound(sc, x.value, path[1..]);
      assert [path[0]][1..] == [];
    }
  }

  lemma OffenceBelow(sc: Scanner, j: Json, step: Step, x: Json)
    requires At(j, [step]) == Some(x) && exists path :: Offends(sc, x, path)
    ensures exists path :: Offends(sc, j, path)
  {
    var rest :| Offends(sc, x, rest);
    OffendsBelow(sc, j, step, rest);
  }

  lemma {:induction false} FoundIsOffence(sc: Scanner, j: Json)
    requires ContainsPii(sc, j)
    ensures exists path :: Offends(sc, j, path)
  {
    if !Offends(sc, j, []) {
      match j
      case Object(f) =>
        var k :| k in f && (sc.forbidden(k) || ContainsPii(sc, f[k]));
        FoundIsOffence(sc, f[k]);
        AtOneStep(j, Member(k), f[k]);
        OffenceBelow(sc, j, Member(k), f[k]);
      case List(xs) =>
        var i :| 0 <= i < |xs| && ContainsPii(sc, xs[i]);
        FoundIsOffence(sc, xs[i]);
        AtOneStep(j, Item(i), xs[i]);
        OffenceBelow(sc, j, Item(i), xs[i]);
      case Tuple(xs) =>
        var i :| 0 <= i < |xs| && ContainsPii(sc, xs[i]);
        FoundIsOffence(sc, xs[i]);
        AtOneStep(j, Item(i), xs[i]);
        OffenceBelow(sc, j, Item(i), xs[i]);
      case _ =>
    }
  }

  /** The scan objects exactly when there is a matching text or a forbidden key at some place, however
      deep. */
  lemma ScanFindsAnyDepth(sc: Scanner, j: Json)
    ensures ContainsPii(sc, j) <==> exists path :: Offends(sc, j, path)
  {
    if ContainsPii(sc, j) { FoundIsOffence(sc, j); }
    forall path | Offends(sc, j, path) ensures ContainsPii(sc, j) { OffenceIsFound(sc, j, path); }
  }

  /** The same value but for the parts it consists of, with its sequence as this kind. */
  predicate SameTop(x: Json, y: Json, frozen: bool) {
    match x
    case Object(f) => y.Object? && y.fields.Keys == f.Keys
    case List(xs) => (if frozen then y.Tuple? else y.List?) && |y.items| == |xs|
    case Tuple(xs) => (if frozen then y.Tuple? else y.List?) && |y.items| == |xs|
    case _ => y == x
  }

  predicate SameTopAt(x: Option<Json>, y: Option<Json>, frozen: bool) {
    (x.Some? <==> y.Some?) && (x.Some? ==> SameTop(x.value, y.value, frozen))
  }

  /** A frozen tree has the same places with the same keys, lengths and leaves, and tuples only; thawing
      it gives lists only. */
  lemma {:induction false} FreezeIsPlacewise(j: Json, path: seq<Step>)
    ensures SameTopAt(At(j, path), At(Freeze(j), path), true)
    ensures SameTopAt(At(j, path), At(Thaw(Freeze(j)), path), false)
    decreases |path|
  {
    if path != [] {
      match (j, path[0])
      case (Object(f), Member(k)) => if k in f { FreezeIsPlacewise(f[k], path[1..]); }
      case (List(xs), Item(i)) => if i < |xs| { FreezeIsPlacewise(xs[i], path[1..]); }
      case (Tuple(xs), Item(i)) => if i < |xs| { FreezeIsPlacewise(xs[i], path[1..]); }
      case _ =>
    }
  }

  predicate RefChar(c: char) {
    'A' <= c <= 'Z' || 'a' <= c <= 'z' || '0' <= c <= '9' || c in {'.', '_', ':', '/', '-'}
  }

  /** An opaque reference without direct PII. */
  predicate RefOK(sc: Scanner, s: string) {
    && 1 <= |s| <= 256 && s[0] !in {'.', '_', ':', '/', '-'}
    && (forall i :: 0 <= i < |s| ==> RefChar(s[i]))
    && !sc.pii(s)
  }

  predicate Unique<T(==)>(xs: seq<T>) { forall i, j :: 0 <= i < j < |xs| ==> xs[i] != xs[j] }

  predicate RefsOK(sc: Scanner, xs: seq<string>) { Unique(xs) && forall i :: 0 <= i < |xs| ==> RefOK(sc, xs[i]) }

  // ---- the payload ----------------------------------------------------------------------------

  datatype Fact = Fact(id: string, version: int)

  datatype Payload = Payload(
    evidence: seq<string>, facts: seq<Fact>, revision: int, requestedBy: string, decision: string,
    action: string, candidates: seq<string>)

  predicate FactOK(sc: Scanner, f: Fact) { RefOK(sc, f.id) && f.version >= 1 }

  /** What the payload's constructor enforces. */
  predicate Valid(sc: Scanner, p: Payload) {
    && p.revision >= 0
    && p.evidence != [] && RefsOK(sc, p.evidence)
    && p.facts != [] && Unique(p.facts) && (forall i :: 0 <= i < |p.facts| ==> FactOK(sc, p.facts[i]))
    && RefOK(sc, p.requestedBy) && RefOK(sc, p.decision) && RefOK(sc, p.action)
    && RefsOK(sc, p.candidates)
  }

  function Texts(xs: seq<string>): Json { List(seq(|xs|, i requires 0 <= i < |xs| => Text(xs[i]))) }

  function FactJson(f: Fact): Json { Object(map[FactId := Text(f.id), FactVersion := Integer(f.version)]) }

  function FactsJson(fs: seq<Fact>): Json { List(seq(|fs|, i requires 0 <= i < |fs| => FactJson(fs[i]))) }

  function ToMapping(p: Payload): Json {
    Object(map[
      SchemaVersion := Text(SCHEMA),
      EvidenceRefs := Texts(p.evidence),
      FactVersionRefs := FactsJson(p.facts),
      Subject := Object(map[Revision := Integer(p.revision)]),
      Request := Object(map[RequestedBy := Text(p.requestedBy), DecisionRef := Text(p.decision),
                            ExpectedActionType := Text(p.action), CandidateRefs := Texts(p.candidates)])])
  }

  predicate AllText(j: Json) { j.List? && forall i :: 0 <= i < |j.items| ==> j.items[i].Text? }

  function TextsOf(j: Json): seq<string>
    requires AllText(j)
  {
    seq(|j.items|, i requires 0 <= i < |j.items| => j.items[i].text)
  }

  /** An object with exactly a fact id and an integer version. */
  predicate FactShaped(j: Json) {
    && j.Object? && j.fields.Keys == {FactId, FactVersion}
    && j.fields[FactId].Text? && j.fields[FactVersion].Integer?
  }

  function FactOf(j: Json): Fact
    requires FactShaped(j)
  {
    Fact(j.fields[FactId].text, j.fields[FactVersion].n)
  }

  predicate FactAccepted(sc: Scanner, j: Json) { FactShaped(j) && FactOK(sc, FactOf(j)) }

  /** The loop over the fact references: parse each, stop at the first bad one. A Boolean version
      passes the type test of the source but not the fact's constructor. */
  method ParseFacts(sc: Scanner, items: seq<Json>) returns (r: Result<seq<Fact>, ()>)
    ensures r.Ok? <==> forall i :: 0 <= i < |items| ==> FactAccepted(sc, items[i])
    ensures r.Ok? ==> |r.value| == |items| && forall i :: 0 <= i < |items| ==> FactJson(r.value[i]) == items[i]
  {
    var facts: seq<Fact> := [];
    for i := 0 to |items|
      invariant |facts| == i
      invariant forall j :: 0 <= j < i ==> FactAccepted(sc, items[j]) && FactJson(facts[j]) == items[j]
    {
      var item := items[i];
      if !item.Object? || item.fields.Keys != {FactId, FactVersion} {
        return Err(());
      }
      var id, version := item.fields[FactId], item.fields[FactVersion];
      if !id.Text? || !(version.Integer? || version.Flag?) {
        return Err(());
      }
      if !RefOK(sc, id.text) || version.Flag? || version.n < 1 {
        return Err(());
      }
      FactJsonOf(item);
      facts := facts + [Fact(id.text, version.n)];
    }
    return Ok(facts);
  }

  lemma FactJsonOf(j: Json)
    requires FactShaped(j)
    ensures FactJson(FactOf(j)) == j
  {
    assert FactJson(FactOf(j)).fields == j.fields;
  }

  /** The shape tests of from_mapping before the facts are parsed. */
  predicate Shaped(sc: Scanner, d: Json) {
    && d.Object? && d.fields.Keys == ROOT && !ContainsPii(sc, d)
    && d.fields[Subject].Object? && d.fields[Subject].fields.Keys == {Revision}
    && d.fields[Request].Object? && d.fields[Request].fields.Keys == REQUEST
    && AllText(d.fields[EvidenceRefs]) && d.fields[FactVersionRefs].List?
    && var q := d.fields[Request].fields;
    && AllText(q[CandidateRefs]) && q[RequestedBy].Text? && q[DecisionRef].Text? && q[ExpectedActionType].Text?
    && d.fields[Subject].fields[Revision].Integer? && d.fields[SchemaVersion] == Text(SCHEMA)
  }

  /** from_mapping. Accepting means: the result is a valid payload whose mapping is the input, with
      lists for tuples; refusing means no valid payload has that mapping. */
  method FromMapping(sc: Scanner, value: Json) returns (r: Result<Payload, ()>)
    requires Sane(sc)
    ensures r.Ok? ==> Valid(sc, r.value) && ToMapping(r.value) == AsLists(value)
    ensures r.Err? ==> forall p :: Valid(sc, p) ==> ToMapping(p) != AsLists(value)
  {
    var d := Thaw(Freeze(value));
    ThawFreeze(value);
    NoMappingUnlessShaped(sc, d);
    if !Shaped(sc, d) {
      return Err(());
    }
    var facts := ParseFacts(sc, d.fields[FactVersionRefs].items);
    if facts.Err? {
      NoMappingWithBadFacts(sc, d);
      return Err(());
    }
    var q := d.fields[Request].fields;
    var p := Payload(TextsOf(d.fields[EvidenceRefs]), facts.value, d.fields[Subject].fields[Revision].n,
                     q[RequestedBy].text, q[DecisionRef].text, q[ExpectedActionType].text, TextsOf(q[CandidateRefs]));
    Rebuilt(sc, d, p);
    if !Valid(sc, p) {
      forall x | Valid(sc, x) ensures ToMapping(x) != d {
        if ToMapping(x) == d { ToMappingIsInjective(x, p); }
      }
      return Err(());
    }
    return Ok(p);
  }

  // ---- why the round trips hold ---------------------------------------------------------------

  lemma TextsHaveNoPii(sc: Scanner, xs: seq<string>)
    requires forall i :: 0 <= i < |xs| ==> RefOK(sc, xs[i])
    ensures !ContainsPii(sc, Texts(xs))
  {
    forall i | 0 <= i < |xs| ensures !ContainsPii(sc, Texts(xs).items[i]) { assert RefOK(sc, xs[i]); }
  }

  lemma FactHasNoPii(sc: Scanner, f: Fact)
    requires Sane(sc) && FactOK(sc, f)
    ensures !ContainsPii(sc, FactJson(f))
  {
    var fields := FactJson(f).fields;
    forall k | k in fields ensures !sc.forbidden(k) && !ContainsPii(sc, fields[k]) {}
  }

  lemma FactsHaveNoPii(sc: Scanner, fs: seq<Fact>)
    requires Sane(sc) && forall i :: 0 <= i < |fs| ==> FactOK(sc, fs[i])
    ensures !ContainsPii(sc, FactsJson(fs))
  {
    forall i | 0 <= i < |fs| ensures !ContainsPii(sc, FactsJson(fs).items[i]) { FactHasNoPii(sc, fs[i]); }
  }

  lemma RequestHasNoPii(sc: Scanner, p: Payload)
    requires Sane(sc) && Valid(sc, p)
    ensures !ContainsPii(sc, ToMapping(p).fields[Request])
  {
    TextsHaveNoPii(sc, p.candidates);
    var fields := ToMapping(p).fields[Request].fields;
    forall k | k in fields ensures !sc.forbidden(k) && !ContainsPii(sc, fields[k]) {}
  }

  /** Every valid payload passes the recursive scan: nothing anywhere in its mapping offends. */
  lemma MappingHasNoPii(sc: Scanner, p: Payload)
    requires Sane(sc) && Valid(sc, p)
    ensures !ContainsPii(sc, ToMapping(p)) && forall path :: !Offends(sc, ToMapping(p), path)
  {
    TextsHaveNoPii(sc, p.evidence);
    FactsHaveNoPii(sc, p.facts);
    RequestHasNoPii(sc, p);
    var fields := ToMapping(p).fields;
    assert !ContainsPii(sc, fields[Subject]) by {
      var inner := fields[Subject].fields;
      forall k | k in inner ensures !sc.forbidden(k) && !ContainsPii(sc, inner[k]) {}
    }
    forall k | k in fields ensures !sc.forbidden(k) && !ContainsPii(sc, fields[k]) {}
    ScanFindsAnyDepth(sc, ToMapping(p));
  }

  lemma MappingIsShaped(sc: Scanner, p: Payload)
    requires Sane(sc) && Valid(sc, p)
    ensures Shaped(sc, ToMapping(p))
  {
    MappingHasNoPii(sc, p);
  }

  lemma NoMappingUnlessShaped(sc: Scanner, d: Json)
    requires Sane(sc)
    ensures !Shaped(sc, d) ==> forall p :: Valid(sc, p) ==> ToMapping(p) != d
  {
    forall p | Valid(sc, p) ensures Shaped(sc, ToMapping(p)) { MappingIsShaped(sc, p); }
  }

  lemma FactsAccepted(sc: Scanner, p: Payload)
    requires Valid(sc, p)
    ensures forall i :: 0 <= i < |p.facts| ==> FactAccepted(sc, FactsJson(p.facts).items[i])
  {
    forall i | 0 <= i < |p.facts| ensures FactAccepted(sc, FactsJson(p.facts).items[i]) {
      assert FactOf(FactJson(p.facts[i])) == p.facts[i];
    }
  }

  lemma NoMappingWithBadFacts(sc: Scanner, d: Json)
    requires d.Object? && FactVersionRefs in d.fields && d.fields[FactVersionRefs].List?
    requires !(forall i :: 0 <= i < |d.fields[FactVersionRefs].items| ==> FactAccepted(sc, d.fields[FactVersionRefs].items[i]))
    ensures forall p :: Valid(sc, p) ==> ToMapping(p) != d
  {
    forall p | Valid(sc, p) ensures ToMapping(p) != d {
      FactsAccepted(sc, p);
      assert ToMapping(p).fields[FactVersionRefs] == FactsJson(p.facts);
    }
  }

  lemma TextsRebuilt(j: Json)
    requires AllText(j)
    ensures Texts(TextsOf(j)) == j
  {
    forall i | 0 <= i < |j.items| ensures Texts(TextsOf(j)).items[i] == j.items[i] {}
    assert Texts(TextsOf(j)).items == j.items;
  }

  /** A shaped document is the mapping of the payload read from it. */
  lemma Rebuilt(sc: Scanner, d: Json, p: Payload)
    requires Shaped(sc, d)
    requires |p.facts| == |d.fields[FactVersionRefs].items|
    requires forall i :: 0 <= i < |p.facts| ==> FactJson(p.facts[i]) == d.fields[FactVersionRefs].items[i]
    requires p.evidence == TextsOf(d.fields[EvidenceRefs]) && p.revision == d.fields[Subject].fields[Revision].n
    requires var q := d.fields[Request].fields;
      && p.requestedBy == q[RequestedBy].text && p.decision == q[DecisionRef].text && p.action == q[ExpectedActionType].text
      && p.candidates == TextsOf(q[CandidateRefs])
    ensures ToMapping(p) == d
  {
    var f, q := d.fields, d.fields[Request].fields;
    TextsRebuilt(f[EvidenceRefs]);
    TextsRebuilt(q[CandidateRefs]);
    assert FactsJson(p.facts).items == f[FactVersionRefs].items;
    assert ToMapping(p).fields[Subject].fields == f[Subject].fields;
    assert ToMapping(p).fields[Request].fields == q;
    assert ToMapping(p).fields == f;
  }

  lemma TextsInjective(xs: seq<string>, ys: seq<string>)
    requires Texts(xs) == Texts(ys)
    ensures xs == ys
  {
    assert |xs| == |Texts(xs).items| == |ys|;
    forall i | 0 <= i < |xs| ensures xs[i] == ys[i] { assert Texts(xs).items[i] == Texts(ys).items[i]; }
  }

  lemma FactsInjective(xs: seq<Fact>, ys: seq<Fact>)
    requires FactsJson(xs) == FactsJson(ys)
    ensures xs == ys
  {
    assert |xs| == |FactsJson(xs).items| == |ys|;
    forall i | 0 <= i < |xs| ensures xs[i] == ys[i] {
      assert FactsJson(xs).items[i] == FactsJson(ys).items[i];
      assert FactJson(xs[i]).fields[FactId] == FactJson(ys[i]).fields[FactId];
      assert FactJson(xs[i]).fields[FactVersion] == FactJson(ys[i]).fields[FactVersion];
    }
  }

  /** Different payloads have different mappings, so what from_mapping returns is the payload. */
  lemma ToMappingIsInjective(x: Payload, y: Payload)
    requires ToMapping(x) == ToMapping(y)
    ensures x == y
  {
    var f, g := ToMapping(x).fields, ToMapping(y).fields;
    assert f[EvidenceRefs] == g[EvidenceRefs] && f[FactVersionRefs] == g[FactVersionRefs];
    TextsInjective(x.evidence, y.evidence);
    FactsInjective(x.facts, y.facts);
    assert f[Subject].fields[Revision] == g[Subject].fields[Revision];
    var q, r := f[Request].fields, g[Request].fields;
    assert q[CandidateRefs] == r[CandidateRefs] && q[RequestedBy] == r[RequestedBy];
    assert q[DecisionRef] == r[DecisionRef] && q[ExpectedActionType] == r[ExpectedActionType];
    TextsInjective(x.candidates, y.candidates);
  }

  lemma TextsListsOnly(xs: seq<string>)
    ensures ListsOnly(Texts(xs))
  {
    forall i | 0 <= i < |xs| ensures ListsOnly(Texts(xs).items[i]) {}
  }

  lemma MappingListsOnly(p: Payload)
    ensures AsLists(ToMapping(p)) == ToMapping(p)
  {
    TextsListsOnly(p.evidence);
    TextsListsOnly(p.candidates);
    forall i | 0 <= i < |p.facts| ensures ListsOnly(FactsJson(p.facts).items[i]) {}
    assert ListsOnly(FactsJson(p.facts));
    var q := ToMapping(p).fields[Request].fields;
    forall k | k in q ensures ListsOnly(q[k]) {}
    assert ListsOnly(Object(q)) && ListsOnly(ToMapping(p).fields[Subject]);
    ListsOnlyIffUnchanged(ToMapping(p));
  }

  /** Writing a valid payload and reading it back returns it. */
  method RoundTrip(sc: Scanner, p: Payload) returns (r: Result<Payload, ()>)
    requires Sane(sc) && Valid(sc, p)
    ensures r == Ok(p)
  {
    r := FromMapping(sc, ToMapping(p));
    MappingListsOnly(p);
    if r.Ok? { ToMappingIsInjective(r.value, p); }
  }
}
