/** Keyset paging over the drafts of a site. */
module DraftPaging {
  import opened Wrappers
  import opened Ordering
  import opened TaskModel
  import opened DraftCursor

  datatype Draft = Draft(
    site: string, id: string, createdAt: int, action: ActionType, review: ReviewStatus, subject: string, revision: int)

  /** ORDER BY created_at DESC, proposal_id DESC: `a` comes strictly after `b`. */
  predicate Below(a: Draft, at: int, id: string) {
    a.createdAt < at || (a.createdAt == at && StrLt(a.id, id))
  }

  predicate After(a: Draft, b: Draft) { Below(a, b.createdAt, b.id) }

  lemma AfterIsStrict(a: Draft, b: Draft, c: Draft)
    ensures !After(a, a)
    ensures After(a, b) && After(b, c) ==> After(a, c)
    ensures After(a, b) ==> !After(b, a)
    ensures a.createdAt != b.createdAt || a.id != b.id ==> After(a, b) || After(b, a)
  {
    StrLeTotal(a.id, b.id);
    if StrLe(a.id, b.id) && StrLe(b.id, c.id) {
      StrLeTransitive(a.id, b.id, c.id);
      if a.id == c.id { StrLeAntisymmetric(a.id, b.id); }
    }
    if StrLe(a.id, b.id) && StrLe(b.id, a.id) { StrLeAntisymmetric(a.id, b.id); }
  }

  type Table = set<Draft>

  /** The primary key of the proposals table. */
  ghost predicate Keyed(t: Table) {
    forall a, b :: a in t && b in t && a.site == b.site && a.id == b.id ==> a == b
  }

  // ---- one page -------------------------------------------------------------------------------

  datatype Filter = Filter(site: string, status: Option<ReviewStatus>)

  /** The action types that have a draft kind. */
  predicate Listed(action: ActionType) {
    action == WorkItemPropose || action == ReviewCasePropose || action == AiDraftPropose
  }

  predicate Wanted(f: Filter, d: Draft) {
    d.site == f.site && Listed(d.action) && (f.status.Some? ==> d.review == f.status.value)
  }

  predicate Past(d: Draft, from: Option<(int, string)>) { from.Some? ==> Below(d, from.value.0, from.value.1) }

  function Selected(t: Table, f: Filter, from: Option<(int, string)>): set<Draft> {
    set d | d in t && Wanted(f, d) && Past(d, from)
  }

  predicate Descending(xs: seq<Draft>) {
    forall i, j :: 0 <= i < j < |xs| ==> After(xs[j], xs[i])
  }

  ghost predicate Lists(xs: seq<Draft>, ds: set<Draft>) {
    Descending(xs) && forall d :: d in xs <==> d in ds
  }

  lemma {:induction false} FirstOf(ds: set<Draft>) returns (top: Draft)
    requires ds != {} && forall a, b :: a in ds && b in ds && a.createdAt == b.createdAt && a.id == b.id ==> a == b
    ensures top in ds && forall d :: d in ds && d != top ==> After(d, top)
    decreases |ds|
  {
    top :| top in ds;
    var rest := ds - {top};
    assert forall d :: d in ds && d != top ==> d in rest;
    if rest != {} {
      var t := FirstOf(rest);
      AfterIsStrict(top, t, t);
      AfterIsStrict(t, top, top);
      var was := top;
      if After(top, t) { top := t; }
      forall d | d in ds && d != top ensures After(d, top) {
        if d != was && d != t {
          assert d in rest;
          AfterIsStrict(d, t, was);
        }
      }
    }
  }

  lemma {:induction false} ListingExists(ds: set<Draft>)
    requires forall a, b :: a in ds && b in ds && a.createdAt == b.createdAt && a.id == b.id ==> a == b
    ensures exists xs :: Lists(xs, ds)
    decreases |ds|
  {
    if ds == {} {
      assert Lists([], ds);
    } else {
      var top := FirstOf(ds);
      ListingExists(ds - {top});
      var xs :| Lists(xs, ds - {top});
      forall i | 0 <= i < |xs| ensures After(xs[i], top) { assert xs[i] in ds - {top}; }
      assert Lists([top] + xs, ds);
    }
  }

  /** Only one listing of a set exists. */
  lemma {:induction false} ListingIsUnique(xs: seq<Draft>, ys: seq<Draft>, ds: set<Draft>)
    requires Lists(xs, ds) && Lists(ys, ds)
    ensures xs == ys
    decreases |xs|
  {
    assert ys != [] ==> ys[0] in ds;
    if xs != [] {
      assert xs[0] in ys && ys != [];
      assert ys[0] in xs;
      var i :| 0 <= i < |ys| && ys[i] == xs[0];
      var j :| 0 <= j < |xs| && xs[j] == ys[0];
      AfterIsStrict(xs[0], ys[0], xs[0]);
      assert xs[0] == ys[0];
      TailLists(xs, ds);
      TailLists(ys, ds);
      ListingIsUnique(xs[1..], ys[1..], ds - {xs[0]});
      assert xs == [xs[0]] + xs[1..] && ys == [ys[0]] + ys[1..];
    }
  }

  lemma TailLists(xs: seq<Draft>, ds: set<Draft>)
    requires Lists(xs, ds) && xs != []
    ensures Lists(xs[1..], ds - {xs[0]})
  {
    forall d ensures d in xs[1..] <==> d in ds - {xs[0]} {
      if d in xs[1..] {
        var i :| 0 < i < |xs| && xs[i] == d;
        AfterIsStrict(d, d, d);
      }
    }
  }

  /** The query's ORDER BY. */
  ghost function Ordered(t: Table, f: Filter, from: Option<(int, string)>): seq<Draft>
    requires Keyed(t)
  {
    ListingExists(Selected(t, f, from));
    var xs :| Lists(xs, Selected(t, f, from));
    xs
  }

  lemma OrderedLists(t: Table, f: Filter, from: Option<(int, string)>)
    requires Keyed(t)
    ensures Lists(Ordered(t, f, from), Selected(t, f, from))
  {
    ListingExists(Selected(t, f, from));
  }

  datatype Page = Page(drafts: seq<Draft>, next: Option<string>)

  function PageOf(json: JsonCodec, rows: seq<Draft>, size: nat): Page
    requires size >= 1
  {
    if |rows| > size then Page(rows[..size], Some(EncodeCursor(json, rows[size-1].createdAt, rows[size-1].id)))
    else Page(rows, None)
  }

  /** list_drafts: fetch one row more than the page shows. */
  ghost function ListDrafts(json: JsonCodec, t: Table, f: Filter, cursor: Option<string>, size: int): Result<Page, ()>
    requires Keyed(t)
  {
    if f.site == "" || |f.site| > 140 || !(1 <= size <= 50) || !(f.status in {None, Some(AIDraft), Some(Pending)}) then Err(())
    else
      var from := if cursor.None? then Ok(None) else match DecodeCursor(json, cursor.value) case Err(e) => Err(e) case Ok(p) => Ok(Some(p));
      match from
      case Err(e) => Err(e)
      case Ok(bound) =>
        var all := Ordered(t, f, bound);
        Ok(PageOf(json, if |all| > size + 1 then all[..size+1] else all, size))
  }

  // ---- following next_cursor ------------------------------------------------------------------

  datatype Outcome = Finished(drafts: seq<Draft>) | Unfinished(drafts: seq<Draft>) | Refused(drafts: seq<Draft>) {
    function Prepend(xs: seq<Draft>): Outcome { this.(drafts := xs + drafts) }
  }

  /** A client's walk: request i sees the table as it is then, and the walk ends at the first page
      without a cursor. */
  ghost function Walk(json: JsonCodec, tables: seq<Table>, f: Filter, cursor: Option<string>, size: int): Outcome
    requires forall i :: 0 <= i < |tables| ==> Keyed(tables[i])
    decreases |tables|
  {
    if tables == [] then Unfinished([])
    else match ListDrafts(json, tables[0], f, cursor, size)
      case Err(_) => Refused([])
      case Ok(page) =>
        if page.next.None? then Finished(page.drafts)
        else Walk(json, tables[1..], f, page.next, size).Prepend(page.drafts)
  }

  /** Proposals are never removed or changed, only inserted. */
  ghost predicate OnlyInserts(tables: seq<Table>) {
    && (forall i :: 0 <= i < |tables| ==> Keyed(tables[i]))
    && (forall i :: 0 < i < |tables| ==> tables[i-1] <= tables[i])
  }

  /** Where a walk stands: the beginning, or a cursor that was decoded. */
  predicate At(json: JsonCodec, cursor: Option<string>, from: Option<(int, string)>) {
    if cursor.None? then from.None? else from.Some? && DecodeCursor(json, cursor.value) == Ok(from.value)
  }

  predicate GoodRequest(f: Filter, size: int) {
    1 <= |f.site| <= 140 && 1 <= size <= 50 && f.status in {None, Some(AIDraft), Some(Pending)}
  }

  /** What one page is, in terms of the whole listing. */
  lemma PageIs(json: JsonCodec, t: Table, f: Filter, cursor: Option<string>, from: Option<(int, string)>, size: int)
    requires Keyed(t) && GoodRequest(f, size) && At(json, cursor, from)
    ensures ListDrafts(json, t, f, cursor, size).Ok?
    ensures var all := Ordered(t, f, from);
      ListDrafts(json, t, f, cursor, size).value ==
        if |all| <= size then Page(all, None)
        else Page(all[..size], Some(EncodeCursor(json, all[size-1].createdAt, all[size-1].id)))
  {
  }

  /** What lies after a page's last draft is the rest of the listing. */
  lemma RestIsNext(t: Table, f: Filter, from: Option<(int, string)>, size: nat)
    requires Keyed(t) && 1 <= size < |Ordered(t, f, from)|
    ensures var all := Ordered(t, f, from); var last := all[size-1];
      Ordered(t, f, Some((last.createdAt, last.id))) == all[size..]
  {
    var all := Ordered(t, f, from);
    var last := all[size-1];
    var next := Some((last.createdAt, last.id));
    OrderedLists(t, f, from);
    OrderedLists(t, f, next);
    forall d ensures d in all[size..] <==> d in Selected(t, f, next) {
      RestMember(t, f, from, all, size, d);
    }
    ListingIsUnique(Ordered(t, f, next), all[size..], Selected(t, f, next));
  }

  lemma RestMember(t: Table, f: Filter, from: Option<(int, string)>, all: seq<Draft>, size: nat, d: Draft)
    requires Lists(all, Selected(t, f, from)) && 1 <= size < |all|
    ensures var last := all[size-1]; d in all[size..] <==> d in Selected(t, f, Some((last.createdAt, last.id)))
  {
    var last := all[size-1];
    if d in all[size..] {
      var i :| size <= i < |all| && all[i] == d;
      assert After(all[i], last);
      assert d in Selected(t, f, from);
    }
    if d in Selected(t, f, Some((last.createdAt, last.id))) {
      assert last in Selected(t, f, from);
      PastIsTransitive(d, last, from);
      assert d in Selected(t, f, from) && d in all;
      var i :| 0 <= i < |all| && all[i] == d;
      AfterIsStrict(d, last, d);
      assert i >= size;
      assert all[size..][i-size] == d;
    }
  }

  lemma PastIsTransitive(d: Draft, last: Draft, from: Option<(int, string)>)
    requires After(d, last) && Past(last, from)
    ensures Past(d, from)
  {
    if from.Some? {
      var bound := last.(createdAt := from.value.0, id := from.value.1);
      AfterIsStrict(d, last, bound);
    }
  }

  // ---- the order and the selection in plain terms ---------------------------------------------

  /** Newest first; of drafts created at once, the greatest id first. */
  predicate NewestFirst(xs: seq<Draft>) {
    forall i, j :: 0 <= i < j < |xs| ==>
      && xs[j].createdAt <= xs[i].createdAt
      && (xs[j].createdAt == xs[i].createdAt ==> StrLe(xs[j].id, xs[i].id) && xs[j].id != xs[i].id)
  }

  /** Created before the cursor's draft, or with it and a smaller id. */
  predicate OlderThan(d: Draft, at: int, id: string) {
    d.createdAt <= at && (d.createdAt == at ==> StrLe(d.id, id) && d.id != id)
  }

  /** Of the site, of one of the three kinds, and of the status if one is asked for. */
  predicate AskedFor(d: Draft, site: string, status: Option<ReviewStatus>) {
    && d.site == site && d.action in {AiDraftPropose, WorkItemPropose, ReviewCasePropose}
    && (status.None? || d.review == status.value)
  }

  lemma DescendingIsNewestFirst(xs: seq<Draft>)
    ensures Descending(xs) <==> NewestFirst(xs)
  {
    if NewestFirst(xs) {
      forall i, j | 0 <= i < j < |xs| ensures After(xs[j], xs[i]) {}
    }
    if Descending(xs) {
      forall i, j | 0 <= i < j < |xs|
        ensures xs[j].createdAt <= xs[i].createdAt && (xs[j].createdAt == xs[i].createdAt ==> StrLe(xs[j].id, xs[i].id) && xs[j].id != xs[i].id)
      {
        assert After(xs[j], xs[i]);
      }
    }
  }

  /** The listing of a table from a cursor: exactly the drafts asked for that are older than the cursor,
      newest first. */
  lemma OrderedIs(t: Table, f: Filter, from: Option<(int, string)>)
    requires Keyed(t)
    ensures var xs := Ordered(t, f, from);
      && NewestFirst(xs)
      && forall d :: d in xs <==>
           d in t && AskedFor(d, f.site, f.status) && (from.Some? ==> OlderThan(d, from.value.0, from.value.1))
  {
    OrderedLists(t, f, from);
    DescendingIsNewestFirst(Ordered(t, f, from));
  }

  /** A page shows the newest drafts asked for that are older than its cursor, as many as fit, and a
      cursor to the last of them exactly if there are more. */
  lemma PageShows(json: JsonCodec, t: Table, f: Filter, cursor: Option<string>, from: Option<(int, string)>, size: int)
    requires Keyed(t) && GoodRequest(f, size) && At(json, cursor, from)
    ensures ListDrafts(json, t, f, cursor, size).Ok?
    ensures var page := ListDrafts(json, t, f, cursor, size).value;
      && NewestFirst(page.drafts) && |page.drafts| <= size
      && (forall d :: d in page.drafts ==>
            d in t && AskedFor(d, f.site, f.status) && (from.Some? ==> OlderThan(d, from.value.0, from.value.1)))
      && (page.next.None? ==> forall d :: d in t && AskedFor(d, f.site, f.status) && (from.Some? ==> OlderThan(d, from.value.0, from.value.1)) ==> d in page.drafts)
      && (page.next.Some? ==>
            && |page.drafts| == size
            && var last := page.drafts[size-1];
            && page.next == Some(EncodeCursor(json, last.createdAt, last.id))
            && (forall d :: d in t && AskedFor(d, f.site, f.status) && (from.Some? ==> OlderThan(d, from.value.0, from.value.1)) ==>
                  d in page.drafts || OlderThan(d, last.createdAt, last.id))
            && exists d :: d in t && AskedFor(d, f.site, f.status) && OlderThan(d, last.createdAt, last.id))
  {
    PageIs(json, t, f, cursor, from, size);
    OrderedIs(t, f, from);
    var all := Ordered(t, f, from);
    if |all| > size {
      assert OlderThan(all[size], all[size-1].createdAt, all[size-1].id) && all[size] in all;
      forall d | d in all ensures d in all[..size] || OlderThan(d, all[size-1].createdAt, all[size-1].id) {
        var i :| 0 <= i < |all| && all[i] == d;
        if i < size { assert all[..size][i] == d; }
      }
    }
  }

  // ---- a fixed table --------------------------------------------------------------------------

  /** Every draft at the end of a full page, with more to come, can be resumed from. */
  predicate BoundariesResume(json: JsonCodec, xs: seq<Draft>, size: nat)
    requires size >= 1
    decreases |xs|
  {
    |xs| > size ==> Resumable(json, xs[size-1].createdAt, xs[size-1].id) && BoundariesResume(json, xs[size..], size)
  }

  /** The pages a listing needs. */
  function PageCount(n: nat, size: nat): nat
    requires size >= 1
    decreases n
  {
    if n <= size then 1 else 1 + PageCount(n - size, size)
  }

  ghost predicate Unchanging(tables: seq<Table>, t: Table) {
    forall i :: 0 <= i < |tables| ==> tables[i] == t
  }

  /** The outcome is the whole listing if the boundaries allow it, and a refusal otherwise. */
  predicate Decides(o: Outcome, all: seq<Draft>, resumes: bool) {
    (o == Finished(all) <==> resumes) && (!resumes ==> o.Refused?)
  }

  lemma DecidesRest(o: Outcome, all: seq<Draft>, size: nat, resumes: bool)
    requires size <= |all| && Decides(o, all[size..], resumes)
    ensures Decides(o.Prepend(all[..size]), all, resumes)
  {
    Prepended(o, all, size);
  }

  /** On a fixed table the walk returns the whole listing in order, in exactly the pages it needs,
      if and only if every page boundary can be resumed from. */
  lemma {:induction false} FixedWalk(json: JsonCodec, tables: seq<Table>, f: Filter, cursor: Option<string>,
                                     from: Option<(int, string)>, size: int, t: Table)
    requires Faithful(json) && Keyed(t) && GoodRequest(f, size) && At(json, cursor, from)
    requires Unchanging(tables, t) && |tables| >= PageCount(|Ordered(t, f, from)|, size)
    ensures Decides(Walk(json, tables, f, cursor, size), Ordered(t, f, from), BoundariesResume(json, Ordered(t, f, from), size))
    decreases |tables|
  {
    var all := Ordered(t, f, from);
    if |all| > size && Resumable(json, all[size-1].createdAt, all[size-1].id) {
      var last := all[size-1];
      var next := EncodeCursor(json, last.createdAt, last.id);
      CursorRoundTripIff(json, last.createdAt, last.id);
      RestIsNext(t, f, from, size);
      assert Unchanging(tables[1..], t);
      FixedWalk(json, tables[1..], f, Some(next), Some((last.createdAt, last.id)), size, t);
    }
    FixedStep(json, tables, f, cursor, from, size);
  }

  /** One page of a walk, given how the rest goes. */
  lemma FixedStep(json: JsonCodec, tables: seq<Table>, f: Filter, cursor: Option<string>, from: Option<(int, string)>, size: int)
    requires Faithful(json) && GoodRequest(f, size) && At(json, cursor, from)
    requires |tables| >= 1 && (forall i :: 0 <= i < |tables| ==> Keyed(tables[i]))
    requires var all := Ordered(tables[0], f, from);
      |all| > size ==>
        var last := all[size-1];
        && |tables| > 1
        && (Resumable(json, last.createdAt, last.id) ==>
              Decides(Walk(json, tables[1..], f, Some(EncodeCursor(json, last.createdAt, last.id)), size), all[size..],
                      BoundariesResume(json, all[size..], size)))
    ensures var all := Ordered(tables[0], f, from); Decides(Walk(json, tables, f, cursor, size), all, BoundariesResume(json, all, size))
  {
    var all := Ordered(tables[0], f, from);
    WalkStep(json, tables, f, cursor, from, size);
    if |all| > size {
      var last, rest := all[size-1], tables[1..];
      var next := EncodeCursor(json, last.createdAt, last.id);
      CursorRoundTripIff(json, last.createdAt, last.id);
      if Resumable(json, last.createdAt, last.id) {
        DecidesRest(Walk(json, rest, f, Some(next), size), all, size, BoundariesResume(json, all[size..], size));
      } else {
        RefusedNext(json, rest, f, next, size);
      }
    }
  }

  lemma Prepended(o: Outcome, all: seq<Draft>, size: nat)
    requires size <= |all|
    ensures o.Prepend(all[..size]) == Finished(all) <==> o == Finished(all[size..])
    ensures o.Refused? ==> o.Prepend(all[..size]).Refused?
  {
    assert all == all[..size] + all[size..];
    if o.Finished? && all[..size] + o.drafts == all {
      assert all[size..] == o.drafts;
    }
  }

  /** One request of a walk. */
  lemma WalkStep(json: JsonCodec, tables: seq<Table>, f: Filter, cursor: Option<string>, from: Option<(int, string)>, size: int)
    requires tables != [] && (forall i :: 0 <= i < |tables| ==> Keyed(tables[i]))
    requires GoodRequest(f, size) && At(json, cursor, from)
    ensures var all := Ordered(tables[0], f, from);
      Walk(json, tables, f, cursor, size) ==
        if |all| <= size then Finished(all)
        else Walk(json, tables[1..], f, Some(EncodeCursor(json, all[size-1].createdAt, all[size-1].id)), size).Prepend(all[..size])
  {
    PageIs(json, tables[0], f, cursor, from, size);
  }

  lemma RefusedNext(json: JsonCodec, tables: seq<Table>, f: Filter, next: string, size: int)
    requires tables != [] && (forall i :: 0 <= i < |tables| ==> Keyed(tables[i])) && DecodeCursor(json, next).Err?
    ensures Walk(json, tables, f, Some(next), size) == Refused([])
  {
  }

  // ---- inserts between pages ------------------------------------------------------------------

  /** With inserts between the pages, a walk that finishes is strictly descending, so without
      duplicates, and holds every wanted draft that was there when it started. */
  lemma {:induction false} InsertsDoNotHideDrafts(json: JsonCodec, tables: seq<Table>, f: Filter, cursor: Option<string>,
                                                  from: Option<(int, string)>, size: int)
    requires Faithful(json) && OnlyInserts(tables) && GoodRequest(f, size) && At(json, cursor, from)
    requires Walk(json, tables, f, cursor, size).Finished?
    ensures var xs := Walk(json, tables, f, cursor, size).drafts;
      && Descending(xs) && (forall d :: d in xs ==> Past(d, from))
      && (forall d :: d in Selected(tables[0], f, from) ==> d in xs)
    decreases |tables|
  {
    var t := tables[0];
    var all := Ordered(t, f, from);
    WalkStep(json, tables, f, cursor, from, size);
    OrderedLists(t, f, from);
    forall d | d in all ensures Past(d, from) { assert d in Selected(t, f, from); }
    if |all| > size {
      var last := all[size-1];
      var next := EncodeCursor(json, last.createdAt, last.id);
      var from' := Some((last.createdAt, last.id));
      CursorRoundTripIff(json, last.createdAt, last.id);
      RefusedOrEmpty(json, tables[1..], f, next, size);
      InsertsDoNotHideDrafts(json, tables[1..], f, Some(next), from', size);
      Joined(all, size, Walk(json, tables[1..], f, Some(next), size).drafts, from);
      forall d | d in Selected(t, f, from) ensures d in all[..size] + Walk(json, tables[1..], f, Some(next), size).drafts {
        NotHidden(tables, f, from, all, size, d);
      }
    }
  }

  /** From the start: the drafts of a finished walk come newest first and hold every draft asked for that
      was there when the walk began, once. */
  lemma FinishedWalkShowsAll(json: JsonCodec, tables: seq<Table>, f: Filter, size: int)
    requires Faithful(json) && OnlyInserts(tables) && GoodRequest(f, size) && Walk(json, tables, f, None, size).Finished?
    ensures var xs := Walk(json, tables, f, None, size).drafts;
      && tables != [] && NewestFirst(xs)
      && forall d :: d in tables[0] && AskedFor(d, f.site, f.status) ==> d in xs
  {
    InsertsDoNotHideDrafts(json, tables, f, None, None, size);
    DescendingIsNewestFirst(Walk(json, tables, f, None, size).drafts);
    forall d | d in tables[0] && AskedFor(d, f.site, f.status) ensures d in Selected(tables[0], f, None) {}
  }

  /** And nothing else: every draft of a walk was asked for and was in one of the tables. */
  lemma {:induction false} WalkShowsOnlyAsked(json: JsonCodec, tables: seq<Table>, f: Filter, cursor: Option<string>, size: int, d: Draft)
    requires (forall i :: 0 <= i < |tables| ==> Keyed(tables[i])) && d in Walk(json, tables, f, cursor, size).drafts
    ensures AskedFor(d, f.site, f.status) && exists i :: 0 <= i < |tables| && d in tables[i]
    decreases |tables|
  {
    if tables != [] && ListDrafts(json, tables[0], f, cursor, size).Ok? {
      var page := ListDrafts(json, tables[0], f, cursor, size).value;
      if d in page.drafts {
        PageIsAsked(json, tables[0], f, cursor, size, d);
      } else {
        WalkShowsOnlyAsked(json, tables[1..], f, page.next, size, d);
        var i :| 0 <= i < |tables[1..]| && d in tables[1..][i];
        assert d in tables[i + 1];
      }
    }
  }

  lemma PageIsAsked(json: JsonCodec, t: Table, f: Filter, cursor: Option<string>, size: int, d: Draft)
    requires Keyed(t) && ListDrafts(json, t, f, cursor, size).Ok? && d in ListDrafts(json, t, f, cursor, size).value.drafts
    ensures AskedFor(d, f.site, f.status) && d in t
  {
    var from := if cursor.None? then None else Some(DecodeCursor(json, cursor.value).value);
    PageShows(json, t, f, cursor, from, size);
  }

  lemma RefusedOrEmpty(json: JsonCodec, tables: seq<Table>, f: Filter, next: string, size: int)
    requires forall i :: 0 <= i < |tables| ==> Keyed(tables[i])
    ensures DecodeCursor(json, next).Err? ==> !Walk(json, tables, f, Some(next), size).Finished?
  {
  }

  lemma NotHidden(tables: seq<Table>, f: Filter, from: Option<(int, string)>, all: seq<Draft>, size: nat, d: Draft)
    requires OnlyInserts(tables) && tables != [] && Lists(all, Selected(tables[0], f, from)) && 1 <= size < |all|
    requires d in Selected(tables[0], f, from)
    ensures d in all[..size] || |tables| == 1 || d in Selected(tables[1], f, Some((all[size-1].createdAt, all[size-1].id)))
  {
    assert d in all;
    var i :| 0 <= i < |all| && all[i] == d;
    if i < size {
      assert all[..size][i] == d;
    } else {
      assert After(all[i], all[size-1]);
      if |tables| > 1 { assert tables[0] <= tables[1]; }
    }
  }

  lemma Joined(all: seq<Draft>, size: nat, rest: seq<Draft>, from: Option<(int, string)>)
    requires 1 <= size < |all| && Descending(all) && Descending(rest) && Past(all[size-1], from)
    requires forall d :: d in rest ==> After(d, all[size-1])
    ensures Descending(all[..size] + rest) && forall d :: d in rest ==> Past(d, from)
  {
    var xs := all[..size] + rest;
    forall i, j | 0 <= i < j < |xs| ensures After(xs[j], xs[i]) {
      if i < size <= j {
        assert xs[j] in rest;
        if i < size - 1 { AfterIsStrict(xs[j], all[size-1], all[i]); }
      } else if i >= size {
        assert xs[i] == rest[i-size] && xs[j] == rest[j-size];
      }
    }
    forall d | d in rest ensures Past(d, from) { PastIsTransitive(d, all[size-1], from); }
  }
}
