/**
 Keyset pagination over `property_listings`, ordered by (created_at, id) descending: what one page is,
 what a walk over all pages returns while the writers keep changing the table between the pages, and
 its agreement with limit/offset pages on a table that stays fixed.
 */
module KeysetPagination {
  import opened Prelude
  import opened Sql
  import opened ListingProjection
  import opened ListingQueries
  import ProjectionConvergence

  /** The position a `ListCursor` carries. */
  datatype Position = Position(createdAt: Instant, id: Uuid)

  /** `p` comes strictly after `q` in the page order. */
  predicate After(p: Position, q: Position) {
    p.createdAt < q.createdAt || (p.createdAt == q.createdAt && p.id < q.id)
  }

  function At(t: Table, id: Uuid): Position
    requires id in t
  {
    Position(Created(t[id]), id)
  }

  /** The OR-expanded row comparison `(created_at, id) < (cursor.created_at, cursor.id)`. */
  function CursorCondition(c: Position): Condition {
    Or(Compare(CreatedAt, Lt, Time(c.createdAt)),
       And(Compare(CreatedAt, Eq, Time(c.createdAt)), Compare(Id, Lt, Uid(c.id))))
  }

  function KeysetQuery(f: PropertyFilters, cursor: Option<Position>): seq<Condition> {
    ActiveQuery(f) + if cursor.Some? then [CursorCondition(cursor.value)] else []
  }

  predicate PastCursor(p: Position, cursor: Option<Position>) {
    cursor.Some? ==> After(p, cursor.value)
  }

  /** Primary key and map key are the same thing. */
  ghost predicate Keyed(t: Table) {
    forall id :: id in t ==> t[id][Id] == Uid(id)
  }

  ghost function PageIds(t: Table, f: PropertyFilters, cursor: Option<Position>): (ids: set<Uuid>)
    ensures ids <= t.Keys
  {
    SelectedIds(t, KeysetQuery(f, cursor))
  }

  lemma CursorExact(t: Table, c: Position, id: Uuid)
    requires id in t && t[id][Id] == Uid(id)
    ensures Eval(CursorCondition(c), t[id]) == True <==> After(At(t, id), c)
  {
    var r, at := t[id], Time(c.createdAt);
    assert r[CreatedAt] == Time(Created(r));
    assert Eval(Compare(CreatedAt, Lt, at), r) == OfBoolean(Created(r) < c.createdAt);
    assert Eval(And(Compare(CreatedAt, Eq, at), Compare(Id, Lt, Uid(c.id))), r)
        == And3(OfBoolean(Created(r) == c.createdAt), OfBoolean(id < c.id));
  }

  lemma KeysetQueryExact(t: Table, f: PropertyFilters, cursor: Option<Position>, id: Uuid)
    requires Keyed(t)
    ensures id in PageIds(t, f, cursor) <==> id in t && Matches(t[id], f) && PastCursor(At(t, id), cursor)
  {
    hide ActiveQuery, Matches, Eval, After;
    if id in t {
      ActiveQueryExact(f, t[id]);
      if cursor.Some? {
        SelectsConcat(ActiveQuery(f), [CursorCondition(cursor.value)], t[id]);
        SelectsOne(CursorCondition(cursor.value), t[id]);
        CursorExact(t, cursor.value, id);
      } else {
        assert ActiveQuery(f) + [] == ActiveQuery(f);
      }
    }
  }

  // ---------- ORDER BY created_at DESC, id DESC ----------

  ghost predicate IsFirst(t: Table, ids: set<Uuid>, m: Uuid)
    requires ids <= t.Keys
  {
    m in ids && forall x :: x in ids && x != m ==> After(At(t, x), At(t, m))
  }

  lemma {:induction false} FirstExists(t: Table, ids: set<Uuid>)
    requires ids <= t.Keys && ids != {}
    ensures exists m :: IsFirst(t, ids, m)
  {
    var a :| a in ids;
    if ids - {a} != {} {
      FirstExists(t, ids - {a});
      var b :| IsFirst(t, ids - {a}, b);
      assert IsFirst(t, ids, if After(At(t, a), At(t, b)) then b else a);
    } else {
      assert ids == {a};
      assert IsFirst(t, ids, a);
    }
  }

  ghost function Sorted(t: Table, ids: set<Uuid>): seq<Uuid>
    requires ids <= t.Keys
    decreases |ids|
  {
    if ids == {} then []
    else
      FirstExists(t, ids);
      var m :| IsFirst(t, ids, m);
      [m] + Sorted(t, ids - {m})
  }

  ghost predicate Ordered(t: Table, s: seq<Uuid>) {
    && (forall i :: 0 <= i < |s| ==> s[i] in t)
    && (forall i, j :: 0 <= i < j < |s| ==> After(At(t, s[j]), At(t, s[i])))
  }

  lemma {:induction false} SortedIsOrdered(t: Table, ids: set<Uuid>)
    requires ids <= t.Keys
    ensures Ordered(t, Sorted(t, ids)) && |Sorted(t, ids)| == |ids|
    ensures forall id :: id in Sorted(t, ids) <==> id in ids
    decreases |ids|
  {
    hide After, Ordered;
    if ids == {} {
      NothingIsOrdered(t);
    } else {
      FirstExists(t, ids);
      var m := Sorted(t, ids)[0];
      assert IsFirst(t, ids, m) && Sorted(t, ids) == [m] + Sorted(t, ids - {m});
      SortedIsOrdered(t, ids - {m});
      ConsOrdered(t, m, Sorted(t, ids - {m}));
    }
  }

  lemma NothingIsOrdered(t: Table)
    ensures Ordered(t, [])
  {
  }

  lemma ConsOrdered(t: Table, m: Uuid, rest: seq<Uuid>)
    requires m in t && Ordered(t, rest) && forall x :: x in rest ==> After(At(t, x), At(t, m))
    ensures Ordered(t, [m] + rest)
  {
    hide After;
  }

  /** There is only one way to order a set of rows. */
  lemma {:induction false} OrderedIsUnique(t: Table, a: seq<Uuid>, b: seq<Uuid>)
    requires Ordered(t, a) && Ordered(t, b) && forall id :: id in a <==> id in b
    ensures a == b
  {
    assert |a| > 0 ==> a[0] in a;
    assert |b| > 0 ==> b[0] in b;
    if a != [] && b != [] {
      assert a[0] in b && b[0] in a;
      assert a[0] == b[0];
      forall id ensures id in a[1..] <==> id in b[1..] {
        assert id in a[1..] ==> id in a && id != a[0];
        assert id in b[1..] ==> id in b && id != b[0];
        assert id in a <==> id == a[0] || id in a[1..];
        assert id in b <==> id == b[0] || id in b[1..];
      }
      OrderedIsUnique(t, a[1..], b[1..]);
    }
  }

  // ---------- One page ----------

  function Min(a: nat, b: nat): nat { if a < b then a else b }

  datatype Page = Page(items: seq<Uuid>, hasMore: bool)

  /** `list_active_keyset`: fetch limit + 1 rows, keep limit, and report whether the extra one was there. */
  ghost function KeysetPage(t: Table, f: PropertyFilters, cursor: Option<Position>, limit: nat): Page {
    var all := Sorted(t, PageIds(t, f, cursor));
    var rows := all[..Min(limit + 1, |all|)];
    Page(rows[..Min(limit, |rows|)], |rows| > limit)
  }

  lemma PrefixOrdered(t: Table, s: seq<Uuid>, k: nat)
    requires Ordered(t, s) && k <= |s|
    ensures Ordered(t, s[..k])
  {
    hide After;
  }

  lemma PageFacts(t: Table, f: PropertyFilters, cursor: Option<Position>, limit: nat)
    requires Keyed(t)
    ensures var p := KeysetPage(t, f, cursor, limit); var all := Sorted(t, PageIds(t, f, cursor));
      && Ordered(t, all) && p.items == all[..Min(limit, |all|)]
      && (p.hasMore <==> |all| > limit)
      && |all| == |PageIds(t, f, cursor)|
      && Ordered(t, p.items)
      && (forall id :: id in all <==> id in t && Matches(t[id], f) && PastCursor(At(t, id), cursor))
  {
    hide Matches, KeysetQuery, PageIds, Sorted, PastCursor, Ordered;
    var all := Sorted(t, PageIds(t, f, cursor));
    SortedIsOrdered(t, PageIds(t, f, cursor));
    PrefixOrdered(t, all, Min(limit, |all|));
    forall id ensures id in PageIds(t, f, cursor) <==> id in t && Matches(t[id], f) && PastCursor(At(t, id), cursor) {
      KeysetQueryExact(t, f, cursor, id);
    }
  }

  // What the walk needs to know about a page.

  lemma PageItem(t: Table, f: PropertyFilters, cursor: Option<Position>, limit: nat, id: Uuid)
    requires Keyed(t) && id in KeysetPage(t, f, cursor, limit).items
    ensures id in t && Matches(t[id], f) && PastCursor(At(t, id), cursor)
  {
    hide KeysetPage, Sorted, PageIds, Matches, Ordered;
    PageFacts(t, f, cursor, limit);
    assert id in Sorted(t, PageIds(t, f, cursor));
  }

  lemma PageIsOrdered(t: Table, f: PropertyFilters, cursor: Option<Position>, limit: nat)
    requires Keyed(t)
    ensures Ordered(t, KeysetPage(t, f, cursor, limit).items)
    ensures |KeysetPage(t, f, cursor, limit).items| <= limit
    ensures KeysetPage(t, f, cursor, limit).hasMore ==> |KeysetPage(t, f, cursor, limit).items| == limit
  {
    hide KeysetPage, Sorted, PageIds, Matches, Ordered;
    PageFacts(t, f, cursor, limit);
  }

  /** A row the page leaves out although it qualifies lies after the page's last item. */
  lemma PageMisses(t: Table, f: PropertyFilters, cursor: Option<Position>, limit: nat, id: Uuid)
    requires Keyed(t) && limit >= 1 && id in t && Matches(t[id], f) && PastCursor(At(t, id), cursor)
    requires id !in KeysetPage(t, f, cursor, limit).items
    ensures var p := KeysetPage(t, f, cursor, limit);
      p.hasMore && |p.items| == limit && p.items[limit - 1] in t && After(At(t, id), At(t, p.items[limit - 1]))
  {
    hide KeysetPage, Sorted, PageIds, Matches;
    PageFacts(t, f, cursor, limit);
    var all := Sorted(t, PageIds(t, f, cursor));
    var items := KeysetPage(t, f, cursor, limit).items;
    var k :| 0 <= k < |all| && all[k] == id;
    assert items == all[..|items|];
    assert forall j :: 0 <= j < |items| ==> all[j] in items;
  }

  lemma PageSize(t: Table, f: PropertyFilters, cursor: Option<Position>, limit: nat)
    requires Keyed(t)
    ensures KeysetPage(t, f, cursor, limit).hasMore <==> |PageIds(t, f, cursor)| > limit
  {
    hide KeysetPage, Sorted, PageIds, Matches, Ordered;
    PageFacts(t, f, cursor, limit);
  }

  // ---------- Walking the pages while the table changes ----------

  datatype Visit = Visit(ids: seq<Uuid>, finished: bool)

  /** The cursor of the next page: the position of this page's last item. */
  ghost function NextCursor(t: Table, items: seq<Uuid>): Option<Position>
    requires items != [] && items[|items| - 1] in t
  {
    Some(At(t, items[|items| - 1]))
  }

  /** A client fetches page after page; `batches[k]` is what the writers do between page k and page k + 1. */
  ghost function Walk(t: Table, f: PropertyFilters, cursor: Option<Position>, limit: nat, batches: seq<seq<Op>>): Visit
    requires Keyed(t) && limit >= 1
    decreases |batches|
  {
    PageIsOrdered(t, f, cursor, limit);
    var p := KeysetPage(t, f, cursor, limit);
    if !p.hasMore then Visit(p.items, true)
    else if batches == [] then Visit(p.items, false)
    else
      KeyedRun(t, batches[0]);
      var rest := Walk(Run(t, batches[0]), f, NextCursor(t, p.items), limit, batches[1..]);
      Visit(p.items + rest.ids, rest.finished)
  }

  lemma {:induction false} KeyedRun(t: Table, ops: seq<Op>)
    requires Keyed(t)
    ensures Keyed(Run(t, ops))
  {
    hide Step, StepRow;
    if ops != [] {
      var before, op := ops[..|ops| - 1], ops[|ops| - 1];
      KeyedRun(t, before);
      forall id | id in Run(t, ops) ensures Run(t, ops)[id][Id] == Uid(id) {
        StepTouchesOnlyItsTarget(Run(t, before), op, id);
        if id == Target(op) {
          IdCell(Lookup(Run(t, before), id), op);
        }
      }
    }
  }

  lemma IdCell(r: Option<Row>, op: Op)
    requires StepRow(r, op).Some? && (r.Some? ==> r.value[Id] == Uid(Target(op)))
    ensures StepRow(r, op).value[Id] == Uid(Target(op))
  {
    hide EventRow, Cell, Inserted, Overwritten, Relocated, Indexed;
    match op
    case Upsert(e, at, agency, now) =>
      EventCell(e, at, agency, Id);
      IdOfEvent(e, at, agency);
      InsertedCell(EventRow(e, at, agency), now, Id);
      if r.Some? {
        OverwrittenCell(r.value, EventRow(e, at, agency), now, Id);
      }
    case UpdateLocation(_, p, now) => RelocatedCell(r.value, p, now, Id);
    case SetEmbeddingIndexed(_, h, v, m, at) => IndexedCell(r.value, h, v, m, at, Id);
    case _ =>
  }

  lemma IdOfEvent(e: EventData, at: Instant, agency: Option<AgencyContact>)
    ensures Cell(e, at, agency, Id) == Some(Uid(e.id)) && Cell(e, at, agency, CreatedAt).None?
  {
    hide EventRow, RowOf;
    RowDictColumns(e, at, agency);
    TypedCells(e, at, agency);
  }

  ghost predicate CreatedUpTo(t: Table, start: Instant) {
    forall id :: id in t ==> Created(t[id]) <= start
  }

  /** The clock moves on: nothing is inserted with a `created_at` from before the walk. */
  ghost predicate WritesAfter(ops: seq<Op>, start: Instant) {
    forall op :: op in ops && op.Upsert? ==> op.now > start
  }

  ghost predicate AllWriteAfter(batches: seq<seq<Op>>, start: Instant) {
    forall k :: 0 <= k < |batches| ==> WritesAfter(batches[k], start)
  }

  /** A row keeps its place in the order as long as it lives; a new row gets its place from the clock. */
  lemma {:induction false} PlaceKept(t: Table, ops: seq<Op>, id: Uuid, start: Instant)
    requires WritesAfter(ops, start)
    ensures id in Run(t, ops) ==> (id in t && At(Run(t, ops), id) == At(t, id)) || Created(Run(t, ops)[id]) > start
  {
    hide Step, StepRow;
    if ops != [] {
      var before, op := ops[..|ops| - 1], ops[|ops| - 1];
      assert op in ops && forall o :: o in before ==> o in ops;
      PlaceKept(t, before, id, start);
      StepTouchesOnlyItsTarget(Run(t, before), op, id);
      if id in Run(t, before) && id in Run(t, ops) {
        ProjectionConvergence.LivingRow(Run(t, before), op, id);
      } else if id in Run(t, ops) {
        InsertionTime(op);
      }
    }
  }

  lemma InsertionTime(op: Op)
    ensures StepRow(None, op).Some? ==> op.Upsert? && Created(StepRow(None, op).value) == op.now
  {
    hide EventRow, Cell, Inserted;
    if op.Upsert? {
      var row := EventRow(op.event, op.occurredAt, op.agency);
      EventCell(op.event, op.occurredAt, op.agency, CreatedAt);
      TypedCells(op.event, op.occurredAt, op.agency);
      InsertedCell(row, op.now, CreatedAt);
    }
  }

  /** Present at every moment between two pages. */
  ghost predicate Persists(t: Table, ops: seq<Op>, id: Uuid) {
    forall k :: 0 <= k <= |ops| ==> id in Run(t, ops[..k])
  }

  lemma {:induction false} PersistentPlace(t: Table, ops: seq<Op>, id: Uuid)
    requires Persists(t, ops, id)
    ensures id in t && id in Run(t, ops) && At(Run(t, ops), id) == At(t, id)
  {
    hide Step, StepRow;
    assert ops[..0] == [] && ops[..|ops|] == ops;
    assert id in Run(t, ops[..0]);
    assert id in Run(t, ops[..|ops|]);
    if ops != [] {
      var before, op := ops[..|ops| - 1], ops[|ops| - 1];
      forall k | 0 <= k <= |before| ensures id in Run(t, before[..k]) {
        assert before[..k] == ops[..k];
      }
      PersistentPlace(t, before, id);
      ProjectionConvergence.LivingRow(Run(t, before), op, id);
    }
  }

  /** Present and matching throughout the walk. */
  ghost predicate Throughout(t: Table, f: PropertyFilters, id: Uuid, batches: seq<seq<Op>>)
    decreases |batches|
  {
    && id in t && Matches(t[id], f)
    && (batches != [] ==> Persists(t, batches[0], id) && Throughout(Run(t, batches[0]), f, id, batches[1..]))
  }

  ghost predicate CursorFrom(t: Table, cursor: Option<Position>, start: Instant) {
    match cursor
    case None => CreatedUpTo(t, start)
    case Some(c) => c.createdAt <= start
  }

  lemma NextCursorFrom(t: Table, f: PropertyFilters, cursor: Option<Position>, limit: nat, start: Instant)
    requires Keyed(t) && limit >= 1 && CursorFrom(t, cursor, start)
    requires KeysetPage(t, f, cursor, limit).hasMore
    ensures var items := KeysetPage(t, f, cursor, limit).items;
      |items| == limit && items[limit - 1] in t && At(t, items[limit - 1]).createdAt <= start
      && PastCursor(At(t, items[limit - 1]), cursor)
  {
    hide Matches, KeysetPage;
    PageIsOrdered(t, f, cursor, limit);
    PageItem(t, f, cursor, limit, KeysetPage(t, f, cursor, limit).items[limit - 1]);
  }

  /** An id at or before the cursor is never visited again, whatever is deleted and re-inserted meanwhile. */
  lemma {:induction false} NeverRevisited(
      t: Table, f: PropertyFilters, c: Position, limit: nat, batches: seq<seq<Op>>, start: Instant, id: Uuid)
    requires Keyed(t) && limit >= 1 && c.createdAt <= start && AllWriteAfter(batches, start)
    requires id in t ==> !After(At(t, id), c)
    ensures id !in Walk(t, f, Some(c), limit, batches).ids
    decreases |batches|
  {
    hide Matches, KeysetPage, Run;
    var p := KeysetPage(t, f, Some(c), limit);
    if id in p.items {
      PageItem(t, f, Some(c), limit, id);
    }
    if p.hasMore && batches != [] {
      NextCursorFrom(t, f, Some(c), limit, start);
      KeyedRun(t, batches[0]);
      PlaceKept(t, batches[0], id, start);
      NeverRevisited(Run(t, batches[0]), f, At(t, p.items[limit - 1]), limit, batches[1..], start, id);
    }
  }

  lemma DistinctConcat(a: seq<Uuid>, b: seq<Uuid>)
    requires Distinct(a)
    requires Distinct(b)
    requires forall i :: 0 <= i < |a| ==> a[i] !in b
    ensures Distinct(a + b)
  {
  }

  lemma NotAfterLast(t: Table, s: seq<Uuid>, i: nat)
    requires Ordered(t, s) && i < |s|
    ensures s[i] in t && s[|s| - 1] in t && !After(At(t, s[i]), At(t, s[|s| - 1]))
  {
  }

  lemma NotOnLaterPages(
      t: Table, f: PropertyFilters, limit: nat, ops: seq<Op>, t': Table, c: Position,
      batches: seq<seq<Op>>, start: Instant, id: Uuid)
    requires Keyed(t) && limit >= 1 && c.createdAt <= start && AllWriteAfter([ops] + batches, start)
    requires t' == Run(t, ops) && Keyed(t')
    requires id in t && At(t, id).createdAt <= start && !After(At(t, id), c)
    ensures id !in Walk(t', f, Some(c), limit, batches).ids
  {
    hide Run, Walk, Keyed;
    assert ([ops] + batches)[0] == ops && ([ops] + batches)[1..] == batches;
    PlaceKept(t, ops, id, start);
    NeverRevisited(t', f, c, limit, batches, start, id);
  }

  lemma {:induction false} NoIdTwice(
      t: Table, f: PropertyFilters, cursor: Option<Position>, limit: nat, batches: seq<seq<Op>>, start: Instant)
    requires Keyed(t) && limit >= 1 && CursorFrom(t, cursor, start) && AllWriteAfter(batches, start)
    ensures Distinct(Walk(t, f, cursor, limit, batches).ids)
    decreases |batches|
  {
    hide Matches, KeysetPage, Run, PageIds, Distinct, Ordered;
    PageIsOrdered(t, f, cursor, limit);
    var p := KeysetPage(t, f, cursor, limit);
    OrderedIsDistinct(t, p.items);
    if p.hasMore && batches != [] {
      NextCursorFrom(t, f, cursor, limit, start);
      KeyedRun(t, batches[0]);
      var t' := Run(t, batches[0]);
      var next := At(t, p.items[limit - 1]);
      NoIdTwice(t', f, Some(next), limit, batches[1..], start);
      var rest := Walk(t', f, Some(next), limit, batches[1..]).ids;
      assert Walk(t, f, cursor, limit, batches).ids == p.items + rest;
      forall i | 0 <= i < |p.items| ensures p.items[i] !in rest {
        PageItem(t, f, cursor, limit, p.items[i]);
        assert [batches[0]] + batches[1..] == batches;
        NotAfterLast(t, p.items, i);
        NotOnLaterPages(t, f, limit, batches[0], t', next, batches[1..], start, p.items[i]);
      }
      DistinctConcat(p.items, rest);
    }
  }

  lemma {:induction false} StayersAreVisited(
      t: Table, f: PropertyFilters, cursor: Option<Position>, limit: nat, batches: seq<seq<Op>>, id: Uuid)
    requires Keyed(t) && limit >= 1
    requires Throughout(t, f, id, batches) && PastCursor(At(t, id), cursor)
    requires Walk(t, f, cursor, limit, batches).finished
    ensures id in Walk(t, f, cursor, limit, batches).ids
    decreases |batches|
  {
    hide Matches, KeysetPage, Run;
    var p := KeysetPage(t, f, cursor, limit);
    if id !in p.items {
      PageMisses(t, f, cursor, limit, id);
      KeyedRun(t, batches[0]);
      PersistentPlace(t, batches[0], id);
      StayersAreVisited(Run(t, batches[0]), f, NextCursor(t, p.items), limit, batches[1..], id);
    }
  }

  /** Present and matching at the moment of some page. */
  ghost predicate MatchesAtSomePage(t: Table, f: PropertyFilters, id: Uuid, batches: seq<seq<Op>>)
    decreases |batches|
  {
    || (id in t && Matches(t[id], f))
    || (batches != [] && MatchesAtSomePage(Run(t, batches[0]), f, id, batches[1..]))
  }

  lemma {:induction false} VisitedMatched(
      t: Table, f: PropertyFilters, cursor: Option<Position>, limit: nat, batches: seq<seq<Op>>, id: Uuid)
    requires Keyed(t) && limit >= 1 && id in Walk(t, f, cursor, limit, batches).ids
    ensures MatchesAtSomePage(t, f, id, batches)
    decreases |batches|
  {
    hide Matches, KeysetPage, Run;
    var p := KeysetPage(t, f, cursor, limit);
    PageIsOrdered(t, f, cursor, limit);
    if id in p.items {
      PageItem(t, f, cursor, limit, id);
    } else {
      KeyedRun(t, batches[0]);
      VisitedMatched(Run(t, batches[0]), f, NextCursor(t, p.items), limit, batches[1..], id);
    }
  }

  /** The rows a walk still has before it, matching or not. */
  ghost function Ahead(t: Table, cursor: Option<Position>): set<Uuid> {
    set id | id in t && PastCursor(At(t, id), cursor)
  }

  lemma {:induction false} Terminates(
      t: Table, f: PropertyFilters, cursor: Option<Position>, limit: nat, batches: seq<seq<Op>>, start: Instant)
    requires Keyed(t) && limit >= 1 && CursorFrom(t, cursor, start) && AllWriteAfter(batches, start)
    requires |Ahead(t, cursor)| <= limit * (|batches| + 1)
    ensures Walk(t, f, cursor, limit, batches).finished
    decreases |batches|
  {
    hide Matches, KeysetPage, Run, PageIds, Ahead;
    var p := KeysetPage(t, f, cursor, limit);
    PageSize(t, f, cursor, limit);
    PageIsAhead(t, f, cursor);
    if p.hasMore && batches != [] {
      NextCursorFrom(t, f, cursor, limit, start);
      KeyedRun(t, batches[0]);
      AheadShrinks(t, f, cursor, limit, batches[0], start);
      assert limit * (|batches| + 1) - limit == limit * (|batches[1..]| + 1);
      Terminates(Run(t, batches[0]), f, NextCursor(t, p.items), limit, batches[1..], start);
    }
  }

  lemma PageIsAhead(t: Table, f: PropertyFilters, cursor: Option<Position>)
    requires Keyed(t)
    ensures |PageIds(t, f, cursor)| <= |Ahead(t, cursor)|
  {
    hide PageIds, Matches;
    forall id | id in PageIds(t, f, cursor) ensures id in Ahead(t, cursor) {
      KeysetQueryExact(t, f, cursor, id);
    }
    SubsetSize(PageIds(t, f, cursor), Ahead(t, cursor));
  }

  lemma AheadShrinks(t: Table, f: PropertyFilters, cursor: Option<Position>, limit: nat, ops: seq<Op>, start: Instant)
    requires Keyed(t) && limit >= 1 && CursorFrom(t, cursor, start) && WritesAfter(ops, start)
    requires KeysetPage(t, f, cursor, limit).hasMore
    ensures var items := KeysetPage(t, f, cursor, limit).items;
      |items| == limit && items[limit - 1] in t
      && |Ahead(Run(t, ops), NextCursor(t, items))| <= |Ahead(t, cursor)| - limit
  {
    hide Matches, KeysetPage, Run;
    PageIsOrdered(t, f, cursor, limit);
    NextCursorFrom(t, f, cursor, limit, start);
    var items := KeysetPage(t, f, cursor, limit).items;
    var before, after := Ahead(t, cursor), Ahead(Run(t, ops), NextCursor(t, items));
    forall id | id in items ensures id in before {
      PageItem(t, f, cursor, limit, id);
    }
    OrderedIsDistinct(t, items);
    forall id | id in after ensures id in before {
      PlaceKept(t, ops, id, start);
    }
    forall k | 0 <= k < |items| ensures items[k] !in after {
      PlaceKept(t, ops, items[k], start);
    }
    assert after !! Elements(items);
    assert |before - Elements(items)| == |before| - limit by {
      assert Elements(items) <= before;
    }
    SubsetSize(after, before - Elements(items));
  }

  lemma OrderedIsDistinct(t: Table, s: seq<Uuid>)
    requires Ordered(t, s)
    ensures |Elements(s)| == |s|
    ensures Distinct(s)
  {
    forall i, j | 0 <= i < j < |s| ensures s[i] != s[j] {
      assert After(At(t, s[j]), At(t, s[i]));
    }
    DistinctLength(s);
  }

  /**
   The walk under concurrent writes: no id is returned twice, every row returned matched when its page was
   read, every row present and matching throughout is returned, and the walk ends after at most |t| / limit
   further pages.
   */
  lemma KeysetWalk(t: Table, f: PropertyFilters, limit: nat, batches: seq<seq<Op>>, start: Instant)
    requires Keyed(t) && limit >= 1 && CreatedUpTo(t, start) && AllWriteAfter(batches, start)
    ensures var v := Walk(t, f, None, limit, batches);
      && Distinct(v.ids)
      && (forall id :: id in v.ids ==> MatchesAtSomePage(t, f, id, batches))
      && (v.finished ==> forall id :: Throughout(t, f, id, batches) ==> id in v.ids)
      && (|t| <= limit * (|batches| + 1) ==> v.finished)
  {
    hide Walk, Matches, Throughout, MatchesAtSomePage;
    forall id | id in Walk(t, f, None, limit, batches).ids ensures MatchesAtSomePage(t, f, id, batches) {
      VisitedMatched(t, f, None, limit, batches, id);
    }
    NoIdTwice(t, f, None, limit, batches, start);
    forall id | Throughout(t, f, id, batches) && Walk(t, f, None, limit, batches).finished
      ensures id in Walk(t, f, None, limit, batches).ids
    {
      ThroughoutIsPresent(t, f, id, batches);
      StayersAreVisited(t, f, None, limit, batches, id);
    }
    if |t| <= limit * (|batches| + 1) {
      assert Ahead(t, None) == t.Keys;
      Terminates(t, f, None, limit, batches, start);
    }
  }

  lemma ThroughoutIsPresent(t: Table, f: PropertyFilters, id: Uuid, batches: seq<seq<Op>>)
    requires Throughout(t, f, id, batches)
    ensures id in t
  {
  }

  // ---------- A fixed table ----------

  ghost function Listed(t: Table, f: PropertyFilters): seq<Uuid> {
    Sorted(t, SelectedIds(t, ActiveQuery(f)))
  }

  /** `count_active`. */
  ghost function CountActive(t: Table, f: PropertyFilters): nat {
    |SelectedIds(t, ActiveQuery(f))|
  }

  /** `list_active`: ORDER BY ... LIMIT ... OFFSET. */
  ghost function OffsetPage(t: Table, f: PropertyFilters, limit: nat, offset: nat): seq<Uuid> {
    var all := Listed(t, f);
    var from := all[Min(offset, |all|)..];
    from[..Min(limit, |from|)]
  }

  /** Where page number `page` starts. */
  function Offset(limit: nat, page: nat): nat {
    if page == 0 then 0 else Offset(limit, page - 1) + limit
  }

  lemma {:induction false} OffsetIsProduct(limit: nat, page: nat)
    ensures Offset(limit, page) == limit * page
  {
    if page > 0 {
      OffsetIsProduct(limit, page - 1);
      assert limit * page == limit * (page - 1) + limit;
    }
  }

  ghost function OffsetPages(t: Table, f: PropertyFilters, limit: nat, pages: nat): seq<Uuid> {
    if pages == 0 then []
    else OffsetPages(t, f, limit, pages - 1) + OffsetPage(t, f, limit, Offset(limit, pages - 1))
  }

  function Quiet(pages: nat): seq<seq<Op>> {
    seq(pages, i => [])
  }

  /** The rows past a page's last item are what the sorted list holds after it. */
  lemma RestOfTheList(t: Table, f: PropertyFilters, cursor: Option<Position>, k: nat)
    requires Keyed(t) && k >= 1
    requires k <= |Sorted(t, PageIds(t, f, cursor))|
    ensures var all := Sorted(t, PageIds(t, f, cursor));
      all[k - 1] in t && Sorted(t, PageIds(t, f, Some(At(t, all[k - 1])))) == all[k..]
  {
    hide Matches, PageIds, Sorted, KeysetPage, At;
    PageFacts(t, f, cursor, 0);
    var all := Sorted(t, PageIds(t, f, cursor));
    var c := Some(At(t, all[k - 1]));
    PageFacts(t, f, c, 0);
    assert forall i :: 0 <= i < |all[k..]| ==> all[k..][i] == all[i + k];
    forall id ensures id in all[k..] <==> id in Sorted(t, PageIds(t, f, c)) {
      if id in all[k..] {
        var i :| 0 <= i < |all[k..]| && all[k..][i] == id;
        assert id == all[i + k] && id in all;
      }
      if id in Sorted(t, PageIds(t, f, c)) {
        assert all[k - 1] in all;
        assert id in all;
        var i :| 0 <= i < |all| && all[i] == id;
        assert i >= k;
        assert all[k..][i - k] == id;
      }
    }
    OrderedIsUnique(t, all[k..], Sorted(t, PageIds(t, f, c)));
  }

  lemma {:induction false} QuietWalk(t: Table, f: PropertyFilters, cursor: Option<Position>, limit: nat, pages: nat)
    requires Keyed(t) && limit >= 1
    ensures var all := Sorted(t, PageIds(t, f, cursor)); var v := Walk(t, f, cursor, limit, Quiet(pages));
      v.ids == all[..Min(Offset(limit, pages + 1), |all|)] && (v.finished <==> |all| <= Offset(limit, pages + 1))
    decreases pages
  {
    hide Matches, KeysetPage, PageIds, Sorted, Ordered, PastCursor, Step;
    PageFacts(t, f, cursor, limit);
    var p := KeysetPage(t, f, cursor, limit);
    var all := Sorted(t, PageIds(t, f, cursor));
    if p.hasMore && pages > 0 {
      assert Quiet(pages)[0] == [] && Quiet(pages)[1..] == Quiet(pages - 1);
      RestOfTheList(t, f, cursor, limit);
      QuietWalk(t, f, NextCursor(t, p.items), limit, pages - 1);
      PrefixAfterPage(all, limit, Offset(limit, pages));
    }
  }

  lemma PrefixAfterPage(s: seq<Uuid>, limit: nat, more: nat)
    requires |s| > limit
    ensures s[..limit] + s[limit..][..Min(more, |s| - limit)] == s[..Min(limit + more, |s|)]
  {
    TwoPrefixes(s, limit, Min(more, |s| - limit));
  }

  lemma TwoPrefixes(s: seq<Uuid>, a: nat, b: nat)
    requires a + b <= |s|
    ensures s[..a] + s[a..][..b] == s[..a + b]
  {
  }

  lemma {:induction false} OffsetPagesArePrefixes(t: Table, f: PropertyFilters, limit: nat, pages: nat)
    ensures OffsetPages(t, f, limit, pages) == Listed(t, f)[..Min(Offset(limit, pages), |Listed(t, f)|)]
  {
    hide Listed;
    var all := Listed(t, f);
    if pages > 0 {
      OffsetPagesArePrefixes(t, f, limit, pages - 1);
      var a := Min(Offset(limit, pages - 1), |all|);
      TwoPrefixes(all, a, Min(limit, |all| - a));
    }
  }

  /**
   On a fixed table the keyset pages, the limit/offset pages and the sorted filtered list are the same
   sequence, as long as `count_active` says.
   */
  lemma PaginationRefinement(t: Table, f: PropertyFilters, limit: nat, pages: nat)
    requires Keyed(t) && limit >= 1
    ensures var v := Walk(t, f, None, limit, Quiet(pages));
      && v.ids == OffsetPages(t, f, limit, pages + 1)
      && (v.finished <==> CountActive(t, f) <= limit * (pages + 1))
      && (v.finished ==> v.ids == Listed(t, f))
      && |Listed(t, f)| == CountActive(t, f)
  {
    hide Walk, ActiveQuery, OffsetPages;
    assert ActiveQuery(f) + [] == ActiveQuery(f);
    assert PageIds(t, f, None) == SelectedIds(t, ActiveQuery(f));
    QuietWalk(t, f, None, limit, pages);
    OffsetPagesArePrefixes(t, f, limit, pages + 1);
    OffsetIsProduct(limit, pages + 1);
    SortedIsOrdered(t, SelectedIds(t, ActiveQuery(f)));
  }
}
