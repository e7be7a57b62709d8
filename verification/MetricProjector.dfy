/** The bridge from an adapter response to a projection batch. Row order must not matter, and a
    governed row must account for every record of its response. */
module MetricProjector {
  import opened Wrappers
  import opened Ordering
  import opened MetricModel

  datatype LogicalObject = SalesOrderObject | InventoryObject | ReceivableObject | OtherObject(name: string)
  datatype Tool = SalesOrderGet | InventoryGet | ReceivableGet | OtherTool(name: string)
  datatype Field =
    | OrderNumber | CustomerNumber | OrderDate | TotalAmount | MaterialNumber | WarehouseNumber
    | BaseQuantity | BillNumber | DueDate | OpenAmount | OtherField(name: string)

  datatype Recipe = Recipe(logical: LogicalObject, tool: Tool, valueField: Field, fields: set<Field>) {
    predicate Valid() { valueField in fields }
  }

  function RecipeFor(metric: MetricKey): (r: Option<Recipe>)
    ensures r.Some? ==> r.value.Valid()
  {
    match metric
    case SalesOrderValue =>
      Some(Recipe(SalesOrderObject, SalesOrderGet, TotalAmount, {OrderNumber, CustomerNumber, OrderDate, TotalAmount}))
    case InventoryOnHand =>
      Some(Recipe(InventoryObject, InventoryGet, BaseQuantity, {MaterialNumber, WarehouseNumber, BaseQuantity}))
    case ReceivablesBalance =>
      Some(Recipe(ReceivableObject, ReceivableGet, OpenAmount, {BillNumber, CustomerNumber, DueDate, OpenAmount}))
    case OtherMetric(_) => None
  }

  /** A JSON cell: finite numbers, everything that is a number but not finite, text, and the rest. */
  datatype Cell = Number(amount: real) | NotFinite | Text(text: string) | OtherCell

  /** One response row. `extraKeys` tells whether the mapping has keys beyond the three named. */
  datatype Record = Record(
    ref: Option<Cell>, values: Option<Option<map<Field, Cell>>>, synthetic: Option<bool>, extraKeys: bool)

  datatype Verification = Verification(startup: bool, authentication: bool, metadata: bool, business: bool)
  datatype Controls = Controls(writerTools: int, mutations: int, fallbacks: int, networkCalls: int)

  /** Page members are absent when they are missing or have the wrong type. */
  datatype Page = Page(returnedRows: Option<int>, limit: Option<int>, offset: Option<int>, hasMore: Option<bool>)

  datatype Response = Response(
    requestId: string, site: string, synthetic: bool, available: bool, reasonCode: Option<string>,
    logical: LogicalObject, tool: Tool, verification: Verification, controls: Controls, rows: seq<Record>, page: Page)

  datatype Inputs = Inputs(
    metric: MetricKey, windowStart: int, windowEnd: int, asOf: int, retrievedAt: int, checkpoint: string,
    total: int, reference: string, variance: real, checkedAt: int, version: string)
  {
    predicate Valid() {
      Window(windowStart, windowEnd) && Identifier(checkpoint) && Identifier(reference) && Identifier(version) && total >= 0
    }
  }

  /** `Unregistered` and `BadRecord` are plain validation errors; the rest carry their reason. */
  datatype ProjectError = Unregistered | Declined(reason: UnavailableReason) | BadRecord

  const MAX_ROWS := 50

  // ---- validation -----------------------------------------------------------------------------

  /** The checks on one row that do not look at the others. */
  predicate Shaped(response: Response, recipe: Recipe, r: Record) {
    && !r.extraKeys && r.ref.Some? && r.values.Some?
    && (if response.synthetic then r.synthetic == Some(true) else r.synthetic.None?)
    && r.ref.value.Text?
    && r.values.value.Some? && r.values.value.value.Keys == recipe.fields
    && recipe.valueField in recipe.fields && r.values.value.value[recipe.valueField].Number?
  }

  function RefOf(r: Record): string {
    if r.ref.Some? && r.ref.value.Text? then r.ref.value.text else ""
  }

  function Refs(rows: seq<Record>): seq<string> { seq(|rows|, i requires 0 <= i < |rows| => RefOf(rows[i])) }

  predicate RowsValid(response: Response, recipe: Recipe, rows: seq<Record>) {
    && (forall i :: 0 <= i < |rows| ==> Shaped(response, recipe, rows[i]))
    && (forall i, j :: 0 <= i < j < |rows| ==> RefOf(rows[i]) != RefOf(rows[j]))
  }

  predicate PageValid(response: Response, inputs: Inputs) {
    var p, n := response.page, |response.rows|;
    && p.returnedRows == Some(n)
    && p.limit.Some? && 1 <= p.limit.value <= MAX_ROWS && n <= p.limit.value
    && p.offset.Some? && p.offset.value >= 0
    && p.hasMore.Some?
    && inputs.total >= p.offset.value + n
    && !(p.hasMore.value && inputs.total <= p.offset.value + n)
  }

  /** The checks before the row loop, in order. */
  function HeaderProblem(response: Response, recipe: Recipe, inputs: Inputs): Option<UnavailableReason> {
    var v, c := response.verification, response.controls;
    if !response.available || response.reasonCode.Some? then Some(SourceUnavailable)
    else if response.logical != recipe.logical || response.tool != recipe.tool then Some(UngovernedSource)
    else if !(v.startup && v.authentication && v.metadata && v.business) then Some(SourceUnavailable)
    else if c.writerTools != 0 || c.mutations != 0 || c.fallbacks != 0 then Some(UngovernedSource)
    else if response.synthetic && c.networkCalls != 0 then Some(UngovernedSource)
    else if !(1 <= |response.rows| <= MAX_ROWS) then Some(SourceUnavailable)
    else if !PageValid(response, inputs) then Some(UngovernedSource)
    else None
  }

  function Problem(response: Response, recipe: Recipe, inputs: Inputs): Option<UnavailableReason> {
    var header := HeaderProblem(response, recipe, inputs);
    if header.Some? then header
    else if !RowsValid(response, recipe, response.rows) then Some(UngovernedSource)
    else None
  }

  /** _validate_response: the loop keeps the references seen so far and stops at the first bad row. */
  method ValidateResponse(response: Response, recipe: Recipe, inputs: Inputs) returns (problem: Option<UnavailableReason>)
    requires recipe.Valid()
    ensures problem == Problem(response, recipe, inputs)
  {
    var header := HeaderProblem(response, recipe, inputs);
    if header.Some? {
      return header;
    }
    var observed: set<string> := {};
    for i := 0 to |response.rows|
      invariant RowsValid(response, recipe, response.rows[..i])
      invariant observed == set j | 0 <= j < i :: RefOf(response.rows[j])
    {
      var row := response.rows[i];
      if row.extraKeys || row.ref.None? || row.values.None?
        || (if response.synthetic then row.synthetic != Some(true) else row.synthetic.Some?)
        || !row.ref.value.Text? || row.ref.value.text in observed
        || row.values.value.None? || row.values.value.value.Keys != recipe.fields {
        return Some(UngovernedSource);
      }
      observed := observed + {row.ref.value.text};
      if !row.values.value.value[recipe.valueField].Number? {
        return Some(UngovernedSource);
      }
    }
    assert response.rows[..|response.rows|] == response.rows;
    return None;
  }

  // ---- projection -----------------------------------------------------------------------------

  function Insert(r: Record, rows: seq<Record>): seq<Record> {
    if rows == [] then [r]
    else if StrLe(RefOf(r), RefOf(rows[0])) then [r] + rows
    else [rows[0]] + Insert(r, rows[1..])
  }

  /** sorted(rows, key=record_ref). */
  function Sort(rows: seq<Record>): seq<Record> {
    if rows == [] then [] else Insert(rows[0], Sort(rows[1..]))
  }

  function AmountOf(recipe: Recipe, r: Record): real {
    if r.values.Some? && r.values.value.Some? && recipe.valueField in r.values.value.value
       && r.values.value.value[recipe.valueField].Number?
    then r.values.value.value[recipe.valueField].amount else 0.0
  }

  predicate Resolves(crosswalk: map<string, string>, ref: string) {
    ref in crosswalk && Identifier(crosswalk[ref])
  }

  /** The sum over the rows whose reference resolves. */
  function ResolvedSum(recipe: Recipe, crosswalk: map<string, string>, rows: seq<Record>): real {
    if rows == [] then 0.0
    else ResolvedSum(recipe, crosswalk, rows[..|rows|-1])
         + if Resolves(crosswalk, RefOf(rows[|rows|-1])) then AmountOf(recipe, rows[|rows|-1]) else 0.0
  }

  function Resolved(crosswalk: map<string, string>, refs: seq<string>): seq<string> {
    if refs == [] then []
    else Resolved(crosswalk, refs[..|refs|-1])
         + if Resolves(crosswalk, refs[|refs|-1]) then [crosswalk[refs[|refs|-1]]] else []
  }

  function Lookup(crosswalk: map<string, string>, ref: string): Option<string> {
    if ref in crosswalk then Some(crosswalk[ref]) else None
  }

  /** The document whose digest names the batch and the row. */
  datatype Identity = Identity(
    requestId: string, site: string, mode: SourceMode, inputs: Inputs, refs: seq<string>,
    crosswalkRefs: seq<Option<string>>, value: real)

  /** Two slices of one digest. */
  datatype Names = Names(rowId: string, batchId: string)

  predicate RefsAccepted(refs: seq<string>) {
    refs != [] && Distinct(refs) && forall i :: 0 <= i < |refs| ==> SourceRef(refs[i])
  }

  function Project(names: Identity -> Names, reg: Registry, response: Response, inputs: Inputs,
                   crosswalk: map<string, string>): Result<Batch, ProjectError> {
    if inputs.metric !in reg.definitions then Err(Unregistered)
    else match RecipeFor(inputs.metric)
      case None => Err(Declined(UngovernedSource))
      case Some(recipe) =>
        var mode := if response.synthetic then Synthetic else Live;
        if inputs.version != reg.definitions[inputs.metric].version || mode != reg.enabled then Err(Declined(UngovernedSource))
        else
          var problem := Problem(response, recipe, inputs);
          if problem.Some? then Err(Declined(problem.value))
          else Projected(names, recipe, mode, response, inputs, crosswalk)
  }

  function Projected(names: Identity -> Names, recipe: Recipe, mode: SourceMode, response: Response, inputs: Inputs,
                     crosswalk: map<string, string>): Result<Batch, ProjectError> {
    var ordered := Sort(response.rows);
    var refs := Refs(ordered);
    var governedRefs := Resolved(crosswalk, refs);
    var governed := |governedRefs| == |refs| && Distinct(governedRefs);
    var value := ResolvedSum(recipe, crosswalk, ordered);
    var lookups := seq(|refs|, i requires 0 <= i < |refs| => Lookup(crosswalk, refs[i]));
    var name := names(Identity(response.requestId, response.site, mode, inputs, refs, lookups, value));
    if |governedRefs| > inputs.total || !RefsAccepted(refs) || !SiteId(response.site) then Err(BadRecord)
    else
      var row := Row(name.rowId, inputs.metric, inputs.windowStart, inputs.windowEnd, inputs.asOf, value,
                     |governedRefs|, inputs.total, inputs.reference, inputs.variance, inputs.checkedAt, refs,
                     governed, inputs.version);
      Ok(Batch(name.batchId, response.site, mode, inputs.checkpoint, inputs.retrievedAt, [row]))
  }

  // ---- sorting --------------------------------------------------------------------------------

  predicate Sorted(rows: seq<Record>) {
    forall i, j :: 0 <= i < j < |rows| ==> StrLe(RefOf(rows[i]), RefOf(rows[j]))
  }

  lemma {:induction false} InsertKeepsRows(r: Record, rows: seq<Record>)
    ensures multiset(Insert(r, rows)) == multiset(rows) + multiset{r}
    decreases |rows|
  {
    if rows != [] {
      assert rows == [rows[0]] + rows[1..];
      if !StrLe(RefOf(r), RefOf(rows[0])) { InsertKeepsRows(r, rows[1..]); }
    }
  }

  /** Every row of `rows` sorts at or after `r`. */
  predicate AtOrAfter(r: Record, rows: seq<Record>) {
    forall i :: 0 <= i < |rows| ==> StrLe(RefOf(r), RefOf(rows[i]))
  }

  lemma SortedCons(r: Record, rows: seq<Record>)
    requires Sorted(rows) && AtOrAfter(r, rows)
    ensures Sorted([r] + rows)
  {
  }

  lemma InsertAtOrAfter(r: Record, x: Record, rows: seq<Record>)
    requires AtOrAfter(r, rows) && StrLe(RefOf(r), RefOf(x))
    ensures AtOrAfter(r, Insert(x, rows))
  {
    InsertKeepsRows(x, rows);
    var ins := Insert(x, rows);
    forall i | 0 <= i < |ins| ensures StrLe(RefOf(r), RefOf(ins[i])) {
      assert ins[i] in multiset(ins);
      assert ins[i] == x || ins[i] in rows;
    }
  }

  lemma {:induction false} InsertIsSorted(r: Record, rows: seq<Record>)
    requires Sorted(rows)
    ensures Sorted(Insert(r, rows)) && multiset(Insert(r, rows)) == multiset(rows) + multiset{r}
    decreases |rows|
  {
    InsertKeepsRows(r, rows);
    if rows != [] {
      StrLeTotal(RefOf(r), RefOf(rows[0]));
      if StrLe(RefOf(r), RefOf(rows[0])) {
        forall i | 0 <= i < |rows| ensures StrLe(RefOf(r), RefOf(rows[i])) {
          if i > 0 { StrLeTransitive(RefOf(r), RefOf(rows[0]), RefOf(rows[i])); }
        }
        SortedCons(r, rows);
      } else {
        InsertIsSorted(r, rows[1..]);
        InsertAtOrAfter(rows[0], r, rows[1..]);
        SortedCons(rows[0], Insert(r, rows[1..]));
      }
    }
  }

  lemma {:induction false} SortSorts(rows: seq<Record>)
    ensures Sorted(Sort(rows)) && multiset(Sort(rows)) == multiset(rows)
    decreases |rows|
  {
    if rows != [] {
      SortSorts(rows[1..]);
      InsertIsSorted(rows[0], Sort(rows[1..]));
      TailMultiset(rows);
    }
  }

  predicate RefsUnique(rows: seq<Record>) {
    forall i, j :: 0 <= i < j < |rows| ==> RefOf(rows[i]) != RefOf(rows[j])
  }

  lemma SameLeast(xs: seq<Record>, ys: seq<Record>)
    requires Sorted(xs) && Sorted(ys) && RefsUnique(xs) && multiset(xs) == multiset(ys) && xs != [] && ys != []
    ensures xs[0] == ys[0]
  {
    assert xs[0] in multiset(ys) && ys[0] in multiset(xs);
    var i :| 0 <= i < |ys| && ys[i] == xs[0];
    var j :| 0 <= j < |xs| && xs[j] == ys[0];
    if j != 0 && i != 0 {
      StrLeAntisymmetric(RefOf(xs[0]), RefOf(ys[0]));
    }
  }

  /** With unique references there is only one sorted arrangement. */
  lemma {:induction false} SortedIsUnique(xs: seq<Record>, ys: seq<Record>)
    requires Sorted(xs) && Sorted(ys) && RefsUnique(xs) && multiset(xs) == multiset(ys)
    ensures xs == ys
    decreases |xs|
  {
    assert |xs| == |multiset(xs)| == |multiset(ys)| == |ys|;
    if xs != [] {
      SameLeast(xs, ys);
      TailMultiset(xs);
      TailMultiset(ys);
      SortedIsUnique(xs[1..], ys[1..]);
      assert xs == [xs[0]] + xs[1..] && ys == [ys[0]] + ys[1..];
    }
  }

  lemma TailMultiset(xs: seq<Record>)
    requires xs != []
    ensures multiset(xs[1..]) == multiset(xs) - multiset{xs[0]}
  {
    assert xs == [xs[0]] + xs[1..];
  }

  lemma {:induction false} UniqueUnderPermutation(xs: seq<Record>, ys: seq<Record>)
    requires RefsUnique(xs) && multiset(xs) == multiset(ys)
    ensures RefsUnique(ys)
  {
    if !RefsUnique(ys) {
      var i, j :| 0 <= i < j < |ys| && RefOf(ys[i]) == RefOf(ys[j]);
      TwoOfThem(ys, i, j);
      assert ys[i] in multiset(xs) && ys[j] in multiset(xs);
      var a :| 0 <= a < |xs| && xs[a] == ys[i];
      var b :| 0 <= b < |xs| && xs[b] == ys[j];
      if a == b {
        OnlyOnce(xs, a);
      }
      assert false;
    }
  }

  /** Equal rows at two places count twice. */
  lemma TwoOfThem(ys: seq<Record>, i: nat, j: nat)
    requires i < j < |ys|
    ensures ys[i] == ys[j] ==> multiset(ys)[ys[i]] >= 2
  {
    assert ys == ys[..i] + [ys[i]] + ys[i+1..j] + [ys[j]] + ys[j+1..];
  }

  lemma OnlyOnce(xs: seq<Record>, a: nat)
    requires RefsUnique(xs) && a < |xs|
    ensures multiset(xs)[xs[a]] == 1
  {
    assert xs == xs[..a] + [xs[a]] + xs[a+1..];
    assert xs[a] !in xs[..a] && xs[a] !in xs[a+1..];
  }

  lemma ValidUnderPermutation(response: Response, recipe: Recipe, xs: seq<Record>, ys: seq<Record>)
    requires multiset(xs) == multiset(ys) && RowsValid(response, recipe, xs)
    ensures RowsValid(response, recipe, ys)
  {
    assert RefsUnique(xs);
    UniqueUnderPermutation(xs, ys);
    forall i | 0 <= i < |ys| ensures Shaped(response, recipe, ys[i]) {
      assert ys[i] in multiset(xs);
    }
  }

  /** Projecting any permutation of the rows gives the identical outcome: the same batch, names
      and value included, or the same error. */
  lemma RowOrderDoesNotMatter(names: Identity -> Names, reg: Registry, response: Response, inputs: Inputs,
                              crosswalk: map<string, string>, rows: seq<Record>)
    requires multiset(rows) == multiset(response.rows)
    ensures Project(names, reg, response.(rows := rows), inputs, crosswalk) == Project(names, reg, response, inputs, crosswalk)
  {
    var other := response.(rows := rows);
    assert |rows| == |multiset(rows)| == |response.rows|;
    if inputs.metric in reg.definitions && RecipeFor(inputs.metric).Some? {
      var recipe := RecipeFor(inputs.metric).value;
      assert HeaderProblem(other, recipe, inputs) == HeaderProblem(response, recipe, inputs);
      ValidBothWays(response, other, recipe);
      if RowsValid(response, recipe, response.rows) { SortsAgree(response.rows, rows); }
    }
  }

  lemma ValidBothWays(response: Response, other: Response, recipe: Recipe)
    requires multiset(other.rows) == multiset(response.rows) && other == response.(rows := other.rows)
    ensures RowsValid(other, recipe, other.rows) <==> RowsValid(response, recipe, response.rows)
  {
    assert forall r :: Shaped(other, recipe, r) <==> Shaped(response, recipe, r);
    if RowsValid(response, recipe, response.rows) { ValidUnderPermutation(response, recipe, response.rows, other.rows); }
    if RowsValid(other, recipe, other.rows) { ValidUnderPermutation(other, recipe, other.rows, response.rows); }
  }

  lemma SortsAgree(xs: seq<Record>, ys: seq<Record>)
    requires RefsUnique(xs) && multiset(xs) == multiset(ys)
    ensures Sort(xs) == Sort(ys)
  {
    SortSorts(xs);
    SortSorts(ys);
    UniqueUnderPermutation(xs, Sort(xs));
    SortedIsUnique(Sort(xs), Sort(ys));
  }

  // ---- meaning --------------------------------------------------------------------------------

  /** The reference meaning: the sum of the recipe's field over all rows, in response order. */
  function FieldSum(recipe: Recipe, rows: seq<Record>): real {
    if rows == [] then 0.0 else AmountOf(recipe, rows[0]) + FieldSum(recipe, rows[1..])
  }

  lemma {:induction false} InsertKeepsSum(recipe: Recipe, r: Record, rows: seq<Record>)
    ensures FieldSum(recipe, Insert(r, rows)) == AmountOf(recipe, r) + FieldSum(recipe, rows)
    decreases |rows|
  {
    if rows != [] && !StrLe(RefOf(r), RefOf(rows[0])) {
      InsertKeepsSum(recipe, r, rows[1..]);
      assert ([rows[0]] + Insert(r, rows[1..]))[1..] == Insert(r, rows[1..]);
    } else {
      assert ([r] + rows)[1..] == rows;
    }
  }

  lemma {:induction false} SortKeepsSum(recipe: Recipe, rows: seq<Record>)
    ensures FieldSum(recipe, Sort(rows)) == FieldSum(recipe, rows)
    decreases |rows|
  {
    if rows != [] {
      SortKeepsSum(recipe, rows[1..]);
      InsertKeepsSum(recipe, rows[0], Sort(rows[1..]));
    }
  }

  lemma {:induction false} FieldSumSnoc(recipe: Recipe, rows: seq<Record>, r: Record)
    ensures FieldSum(recipe, rows + [r]) == FieldSum(recipe, rows) + AmountOf(recipe, r)
    decreases |rows|
  {
    if rows != [] {
      assert (rows + [r])[1..] == rows[1..] + [r];
      FieldSumSnoc(recipe, rows[1..], r);
    } else {
      assert (rows + [r])[1..] == [];
    }
  }

  lemma {:induction false} ResolvedIsAll(crosswalk: map<string, string>, refs: seq<string>)
    ensures |Resolved(crosswalk, refs)| <= |refs|
    ensures |Resolved(crosswalk, refs)| == |refs| ==> forall i :: 0 <= i < |refs| ==> Resolves(crosswalk, refs[i])
    decreases |refs|
  {
    if refs != [] {
      ResolvedIsAll(crosswalk, refs[..|refs|-1]);
    }
  }

  lemma {:induction false} AllResolvedSum(recipe: Recipe, crosswalk: map<string, string>, rows: seq<Record>)
    requires forall i :: 0 <= i < |rows| ==> Resolves(crosswalk, RefOf(rows[i]))
    ensures ResolvedSum(recipe, crosswalk, rows) == FieldSum(recipe, rows)
    decreases |rows|
  {
    if rows != [] {
      var n := |rows| - 1;
      AllResolvedSum(recipe, crosswalk, rows[..n]);
      FieldSumSnoc(recipe, rows[..n], rows[n]);
      assert rows == rows[..n] + [rows[n]];
    }
  }

  lemma SortedLength(rows: seq<Record>)
    ensures |Sort(rows)| == |rows|
  {
    SortSorts(rows);
    assert |multiset(Sort(rows))| == |multiset(rows)|;
  }

  /** A valid response never trips the row constructor's `included <= total` check. */
  lemma IncludedFitsTotal(recipe: Recipe, response: Response, inputs: Inputs, crosswalk: map<string, string>)
    requires Problem(response, recipe, inputs).None?
    ensures |Resolved(crosswalk, Refs(Sort(response.rows)))| <= inputs.total
  {
    SortedLength(response.rows);
    ResolvedIsAll(crosswalk, Refs(Sort(response.rows)));
  }

  /** A validated response is projected exactly when its references and its site are acceptable. */
  lemma ProjectionFailsOnlyOnText(names: Identity -> Names, recipe: Recipe, mode: SourceMode, response: Response,
                                  inputs: Inputs, crosswalk: map<string, string>)
    requires Problem(response, recipe, inputs).None?
    ensures Projected(names, recipe, mode, response, inputs, crosswalk).Ok? <==>
      SiteId(response.site) && forall i :: 0 <= i < |response.rows| ==> SourceRef(RefOf(response.rows[i]))
  {
    IncludedFitsTotal(recipe, response, inputs, crosswalk);
    var rows, ordered := response.rows, Sort(response.rows);
    SortSorts(rows);
    SortedLength(rows);
    assert RefsUnique(rows);
    UniqueUnderPermutation(rows, ordered);
    RefsOfPermutation(rows, ordered);
    AcceptedRefs(ordered);
  }

  lemma AcceptedRefs(rows: seq<Record>)
    requires rows != [] && RefsUnique(rows)
    ensures RefsAccepted(Refs(rows)) <==> forall i :: 0 <= i < |rows| ==> SourceRef(RefOf(rows[i]))
  {
    var refs := Refs(rows);
    forall i | 0 <= i < |rows| ensures refs[i] == RefOf(rows[i]) {}
    assert Distinct(refs);
    if RefsAccepted(refs) {
      forall i | 0 <= i < |rows| ensures SourceRef(RefOf(rows[i])) { assert SourceRef(refs[i]); }
    }
  }

  lemma RefsOfPermutation(xs: seq<Record>, ys: seq<Record>)
    requires multiset(xs) == multiset(ys)
    ensures (forall i :: 0 <= i < |xs| ==> SourceRef(RefOf(xs[i]))) <==> (forall i :: 0 <= i < |ys| ==> SourceRef(RefOf(ys[i])))
  {
    forall i | 0 <= i < |xs| ensures xs[i] in ys { assert xs[i] in multiset(ys); }
    forall i | 0 <= i < |ys| ensures ys[i] in xs { assert ys[i] in multiset(xs); }
  }

  /** What a projected batch says: one row, one reference per response row, and when the row is
      governed its value is the exact sum of the recipe's field over the whole response. */
  lemma GovernedValueIsTheWholeSum(names: Identity -> Names, reg: Registry, response: Response, inputs: Inputs,
                                   crosswalk: map<string, string>)
    requires Project(names, reg, response, inputs, crosswalk).Ok?
    ensures RecipeFor(inputs.metric).Some?
    ensures var batch := Project(names, reg, response, inputs, crosswalk).value;
      && batch.site == response.site && |batch.rows| == 1
      && var row := batch.rows[0];
      && row.metric == inputs.metric && row.windowStart == inputs.windowStart && row.windowEnd == inputs.windowEnd
      && multiset(row.refs) == multiset(Refs(response.rows)) && Distinct(row.refs)
      && row.included <= row.total
      && (row.governed ==>
            && row.value == FieldSum(RecipeFor(inputs.metric).value, response.rows)
            && row.included == |response.rows|)
  {
    var recipe := RecipeFor(inputs.metric).value;
    var rows, ordered := response.rows, Sort(response.rows);
    var refs := Refs(ordered);
    SortSorts(rows);
    SortedLength(rows);
    RefsKeepMultiset(rows);
    ResolvedIsAll(crosswalk, refs);
    if |Resolved(crosswalk, refs)| == |refs| {
      forall i | 0 <= i < |ordered| ensures Resolves(crosswalk, RefOf(ordered[i])) { assert refs[i] == RefOf(ordered[i]); }
      AllResolvedSum(recipe, crosswalk, ordered);
      SortKeepsSum(recipe, rows);
    }
  }

  lemma RefsAppend(xs: seq<Record>, ys: seq<Record>)
    ensures Refs(xs + ys) == Refs(xs) + Refs(ys)
  {
  }

  lemma {:induction false} InsertRefs(r: Record, rows: seq<Record>)
    ensures multiset(Refs(Insert(r, rows))) == multiset{RefOf(r)} + multiset(Refs(rows))
    decreases |rows|
  {
    if rows == [] {
      assert Refs([r]) == [RefOf(r)];
    } else if StrLe(RefOf(r), RefOf(rows[0])) {
      RefsAppend([r], rows);
      assert Refs([r]) == [RefOf(r)];
    } else {
      InsertRefs(r, rows[1..]);
      RefsAppend([rows[0]], Insert(r, rows[1..]));
      RefsAppend([rows[0]], rows[1..]);
      assert rows == [rows[0]] + rows[1..];
    }
  }

  lemma {:induction false} RefsKeepMultiset(rows: seq<Record>)
    ensures multiset(Refs(Sort(rows))) == multiset(Refs(rows))
    decreases |rows|
  {
    if rows != [] {
      RefsKeepMultiset(rows[1..]);
      InsertRefs(rows[0], Sort(rows[1..]));
      RefsAppend([rows[0]], rows[1..]);
      assert rows == [rows[0]] + rows[1..];
      assert Refs([rows[0]]) == [RefOf(rows[0])];
    }
  }
}
