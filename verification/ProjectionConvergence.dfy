/**
 Convergence of the projection under at-least-once, unordered delivery, with the other writers of the
 row interleaved anywhere. There is no tombstone, so deletes are stated exactly as the code treats them.
 */
module ProjectionConvergence {
  import opened Prelude
  import opened Sql
  import opened ListingProjection

  /** The row shows event `e`: every projector column, and the POIs when the event carries them. */
  ghost predicate Shows(r: Row, e: EventData, occurredAt: Instant) {
    && (forall c: Column :: Owner(c) == Projector ==> Cell(e, occurredAt, None, c) == Some(r[c]))
    && (e.pois.Some? ==> Cell(e, occurredAt, None, Pois) == Some(r[Pois]))
  }

  ghost predicate UpsertOn(op: Op, id: Uuid) { op.Upsert? && op.event.id == id }

  /** Redeliveries repeat the payload: for one property it is a function of the version. */
  ghost predicate PayloadByVersion(ops: seq<Op>, id: Uuid) {
    forall i, j :: 0 <= i < |ops| && 0 <= j < |ops| && UpsertOn(ops[i], id) && UpsertOn(ops[j], id)
      && ops[i].event.aggregateVersion == ops[j].event.aggregateVersion
      ==> ops[i].event == ops[j].event && ops[i].occurredAt == ops[j].occurredAt
  }

  lemma UpsertCell(r: Option<Row>, op: Op, c: Column)
    requires op.Upsert? && (r.Some? ==> Version(r.value) < op.event.aggregateVersion)
    requires Owner(c) == Projector || (c == Pois && op.event.pois.Some?)
    ensures StepRow(r, op).Some? && Cell(op.event, op.occurredAt, None, c) == Some(StepRow(r, op).value[c])
  {
    hide EventRow, Cell;
    var row := EventRow(op.event, op.occurredAt, op.agency);
    CellWithoutAgency(op.event, op.occurredAt, op.agency, c);
    EventCell(op.event, op.occurredAt, op.agency, c);
    InsertedCell(row, op.now, c);
    if r.Some? {
      OverwrittenCell(r.value, row, op.now, c);
    }
  }

  lemma CellWithoutAgency(e: EventData, at: Instant, agency: Option<AgencyContact>, c: Column)
    requires Owner(c) == Projector || (c == Pois && e.pois.Some?)
    ensures Cell(e, at, agency, c).Some? && Cell(e, at, agency, c) == Cell(e, at, None, c)
    ensures !NotInSet(c) && c != UpdatedAt
  {
    hide RowOf, IdentityPart, PlacePart, RoomsPart, FeaturesPart, ContentPart, DescriptionPart, BookkeepingPart;
    hide AgencyPart, PoisPart;
    RowSection(e, at, agency, c);
    RowSection(e, at, None, c);
    RowDictKeys(e, at, agency, c);
  }

  lemma UpsertShows(r: Option<Row>, op: Op)
    requires op.Upsert? && (r.Some? ==> Version(r.value) < op.event.aggregateVersion)
    ensures StepRow(r, op).Some? && Shows(StepRow(r, op).value, op.event, op.occurredAt)
    ensures Version(StepRow(r, op).value) == op.event.aggregateVersion
  {
    hide StepRow, Cell;
    VersionCell(op);
    forall c: Column | Owner(c) == Projector || (c == Pois && op.event.pois.Some?)
      ensures StepRow(r, op).Some? && Cell(op.event, op.occurredAt, None, c) == Some(StepRow(r, op).value[c])
    {
      UpsertCell(r, op, c);
    }
    UpsertCell(r, op, SourceAggregateVersion);
  }

  lemma VersionCell(op: Op)
    requires op.Upsert?
    ensures Cell(op.event, op.occurredAt, None, SourceAggregateVersion) == Some(Int(op.event.aggregateVersion))
    ensures op.event.pois.Some? ==> Cell(op.event, op.occurredAt, None, Pois) == Some(PoiList(op.event.pois.value))
  {
    hide RowOf, IdentityPart, PlacePart, RoomsPart, FeaturesPart, ContentPart, DescriptionPart, BookkeepingPart;
    TypedCells(op.event, op.occurredAt, None);
    RowSection(op.event, op.occurredAt, None, Pois);
  }

  /** The guards of the writers. */
  lemma Guards(r: Option<Row>, op: Op)
    ensures op.Upsert? && r.Some? && op.event.aggregateVersion <= Version(r.value) ==> StepRow(r, op) == r
    ensures op.Delete? ==> StepRow(r, op) == if r.Some? && Version(r.value) < op.version then None else r
    ensures !op.Upsert? && r.None? ==> StepRow(r, op).None?
    ensures !op.Delete? && r.Some? ==> StepRow(r, op).Some?
  {
    hide EventRow, Cell;
  }

  lemma OtherCell(r: Row, op: Op, c: Column)
    requires !op.Upsert? && StepRow(Some(r), op).Some?
    requires Owner(c) == Projector || c == Pois || c == CreatedAt
    ensures StepRow(Some(r), op).value[c] == r[c]
  {
    hide EventRow, Cell, Relocated, Indexed;
    match op
    case UpdateLocation(_, p, now) => RelocatedCell(r, p, now, c);
    case SetEmbeddingIndexed(_, h, t, m, at) => IndexedCell(r, h, t, m, at, c);
    case _ =>
  }

  lemma OthersKeepShowing(r: Row, op: Op, e: EventData, at: Instant)
    requires Shows(r, e, at) && !op.Upsert? && StepRow(Some(r), op).Some?
    ensures Shows(StepRow(Some(r), op).value, e, at)
    ensures Version(StepRow(Some(r), op).value) == Version(r)
  {
    hide StepRow, Cell;
    forall c: Column | Owner(c) == Projector || c == Pois
      ensures StepRow(Some(r), op).value[c] == r[c]
    {
      OtherCell(r, op, c);
    }
    OtherCell(r, op, SourceAggregateVersion);
  }

  lemma VersionKept(r: Row, op: Op)
    requires !op.Upsert? && StepRow(Some(r), op).Some?
    ensures Version(StepRow(Some(r), op).value) == Version(r)
  {
    hide StepRow;
    OtherCell(r, op, SourceAggregateVersion);
  }

  // ---------- What a delivery sequence leaves behind ----------

  /** The upserts on `id` delivered since the last delete that took effect. */
  ghost function SinceDelete(ops: seq<Op>, id: Uuid): seq<Op> {
    if ops == [] then []
    else
      var before := ops[..|ops| - 1];
      var op := ops[|ops| - 1];
      if UpsertOn(op, id) then SinceDelete(before, id) + [op]
      else if id in Run(map[], before) && id !in Run(map[], ops) then []
      else SinceDelete(before, id)
  }

  ghost predicate Highest(op: Op, among: seq<Op>) {
    && op in among && op.Upsert?
    && forall o :: o in among && o.Upsert? ==> o.event.aggregateVersion <= op.event.aggregateVersion
  }

  lemma {:induction false} SinceDeleteIsDelivered(ops: seq<Op>, id: Uuid)
    ensures forall o :: o in SinceDelete(ops, id) ==> o in ops && UpsertOn(o, id)
  {
    if ops != [] {
      SinceDeleteIsDelivered(ops[..|ops| - 1], id);
    }
  }

  lemma PayloadOfPrefix(ops: seq<Op>, id: Uuid)
    requires ops != [] && PayloadByVersion(ops, id)
    ensures PayloadByVersion(ops[..|ops| - 1], id)
  {
    var before := ops[..|ops| - 1];
    assert forall i :: 0 <= i < |before| ==> before[i] == ops[i];
  }

  lemma SameVersionSamePayload(ops: seq<Op>, id: Uuid, a: Op, b: Op)
    requires PayloadByVersion(ops, id) && a in ops && b in ops && UpsertOn(a, id) && UpsertOn(b, id)
    requires a.event.aggregateVersion == b.event.aggregateVersion
    ensures a.event == b.event && a.occurredAt == b.occurredAt
  {
    var i :| 0 <= i < |ops| && ops[i] == a;
    var j :| 0 <= j < |ops| && ops[j] == b;
  }

  /**
   Projection: after any delivery sequence the row is absent exactly when no upsert was delivered since
   the last effective delete; otherwise it shows the highest-version upsert among those.
   */
  lemma {:induction false} Projection(ops: seq<Op>, id: Uuid)
    requires PayloadByVersion(ops, id)
    ensures id in Run(map[], ops) <==> SinceDelete(ops, id) != []
    ensures id in Run(map[], ops) ==> exists o :: Highest(o, SinceDelete(ops, id))
    ensures forall o :: id in Run(map[], ops) && Highest(o, SinceDelete(ops, id)) ==>
      Shows(Run(map[], ops)[id], o.event, o.occurredAt) && Version(Run(map[], ops)[id]) == o.event.aggregateVersion
  {
    if ops != [] {
      var before, op := ops[..|ops| - 1], ops[|ops| - 1];
      PayloadOfPrefix(ops, id);
      Projection(before, id);
      StepTouchesOnlyItsTarget(Run(map[], before), op, id);
      SinceDeleteIsDelivered(ops, id);
      ProjectionStep(ops, id);
    }
  }

  lemma ProjectionStep(ops: seq<Op>, id: Uuid)
    requires ops != [] && PayloadByVersion(ops, id)
    requires var before := ops[..|ops| - 1];
      && (id in Run(map[], before) <==> SinceDelete(before, id) != [])
      && (id in Run(map[], before) ==> exists o :: Highest(o, SinceDelete(before, id)))
      && (forall o :: id in Run(map[], before) && Highest(o, SinceDelete(before, id)) ==>
          Shows(Run(map[], before)[id], o.event, o.occurredAt)
          && Version(Run(map[], before)[id]) == o.event.aggregateVersion)
    ensures id in Run(map[], ops) <==> SinceDelete(ops, id) != []
    ensures id in Run(map[], ops) ==> exists o :: Highest(o, SinceDelete(ops, id))
    ensures forall o :: id in Run(map[], ops) && Highest(o, SinceDelete(ops, id)) ==>
      Shows(Run(map[], ops)[id], o.event, o.occurredAt) && Version(Run(map[], ops)[id]) == o.event.aggregateVersion
  {
    hide StepRow, EventRow, Cell, Shows;
    var before, op := ops[..|ops| - 1], ops[|ops| - 1];
    var r := Lookup(Run(map[], before), id);
    Guards(r, op);
    var r' := Lookup(Run(map[], ops), id);
    var since, since' := SinceDelete(before, id), SinceDelete(ops, id);
    StepTouchesOnlyItsTarget(Run(map[], before), op, id);
    SinceDeleteIsDelivered(ops, id);
    if UpsertOn(op, id) {
      assert since' == since + [op];
      assert op in since';
      if r.None? || Version(r.value) < op.event.aggregateVersion {
        UpsertShows(r, op);
        assert Highest(op, since');
      } else {
        var h :| Highest(h, since);
        assert Highest(h, since');
      }
      forall o | Highest(o, since')
        ensures Shows(r'.value, o.event, o.occurredAt) && Version(r'.value) == o.event.aggregateVersion
      {
        var w := if r.None? || Version(r.value) < op.event.aggregateVersion then op else var h :| Highest(h, since); h;
        assert Highest(w, since');
        SameVersionSamePayload(ops, id, o, w);
      }
    } else if r.Some? && r'.Some? {
      forall o | Highest(o, since)
        ensures Shows(r'.value, o.event, o.occurredAt) && Version(r'.value) == o.event.aggregateVersion
      {
        if Target(op) == id {
          OthersKeepShowing(r.value, op, o.event, o.occurredAt);
        }
      }
    }
  }

  // ---------- Convergence ----------

  /**
   An upsert no other delivery for the property outranks: no upsert carries a higher version, and no
   delete carries a version above it (a delete at the same version is dropped by its guard).
   */
  ghost predicate Outranks(w: Op, ops: seq<Op>) {
    && w in ops && w.Upsert?
    && forall o :: o in ops && Target(o) == w.event.id ==>
        (o.Upsert? ==> o.event.aggregateVersion <= w.event.aggregateVersion)
        && (o.Delete? ==> o.version <= w.event.aggregateVersion)
  }

  /** If some upsert outranks the rest, it wins: any order, any duplicates, any stale deletes, any other writers. */
  lemma {:induction false} HighestUpsertWins(ops: seq<Op>, w: Op)
    requires Outranks(w, ops) && PayloadByVersion(ops, w.event.id)
    ensures w.event.id in Run(map[], ops)
    ensures Shows(Run(map[], ops)[w.event.id], w.event, w.occurredAt)
    ensures Version(Run(map[], ops)[w.event.id]) == w.event.aggregateVersion
  {
    hide StepRow, EventRow, Cell, Shows, Step;
    var before, op := ops[..|ops| - 1], ops[|ops| - 1];
    var id := w.event.id;
    assert ops == before + [op];
    var r := Lookup(Run(map[], before), id);
    StepTouchesOnlyItsTarget(Run(map[], before), op, id);
    Guards(r, op);
    PayloadOfPrefix(ops, id);
    VersionBoundedByDeliveries(before, id, w.event.aggregateVersion);
    if w in before {
      HighestUpsertWins(before, w);
      if UpsertOn(op, id) {
        assert op in ops && op.event.aggregateVersion <= w.event.aggregateVersion;
      } else if Target(op) == id {
        assert op in ops;
        OthersKeepShowing(r.value, op, w.event, w.occurredAt);
      }
    } else {
      assert op == w;
      if r.Some? && Version(r.value) == w.event.aggregateVersion {
        VersionWasDelivered(before, id);
        var o :| o in before && UpsertOn(o, id) && o.event.aggregateVersion == Version(r.value);
        SameVersionSamePayload(ops, id, o, w);
        OutranksInPrefix(ops, o, w);
        HighestUpsertWins(before, o);
      } else {
        UpsertShows(r, op);
      }
    }
  }

  lemma OutranksInPrefix(ops: seq<Op>, o: Op, w: Op)
    requires ops != [] && Outranks(w, ops) && o in ops[..|ops| - 1] && o.Upsert? && o.event == w.event
    ensures Outranks(o, ops[..|ops| - 1])
  {
    forall x | x in ops[..|ops| - 1] ensures x in ops { }
  }

  lemma {:induction false} VersionWasDelivered(ops: seq<Op>, id: Uuid)
    ensures id in Run(map[], ops) ==>
      exists o :: o in ops && UpsertOn(o, id) && o.event.aggregateVersion == Version(Run(map[], ops)[id])
  {
    hide StepRow, EventRow, Cell, Shows, Step;
    if ops != [] {
      var before, op := ops[..|ops| - 1], ops[|ops| - 1];
      var r := Lookup(Run(map[], before), id);
      VersionWasDelivered(before, id);
      Guards(r, op);
      if UpsertOn(op, id) && (r.None? || Version(r.value) < op.event.aggregateVersion) {
        UpsertShows(r, op);
      } else if r.Some? && !op.Upsert? && StepRow(r, op).Some? {
        VersionKept(r.value, op);
      }
      StepTouchesOnlyItsTarget(Run(map[], before), op, id);
      assert op in ops && forall o :: o in before ==> o in ops;
    }
  }

  lemma VersionBoundedByDeliveries(ops: seq<Op>, id: Uuid, bound: int)
    requires forall o :: o in ops && UpsertOn(o, id) ==> o.event.aggregateVersion <= bound
    ensures id in Run(map[], ops) ==> Version(Run(map[], ops)[id]) <= bound
  {
    VersionWasDelivered(ops, id);
  }

  /** Two deliveries of the same messages agree on every projector column. */
  lemma Convergence(a: seq<Op>, b: seq<Op>, w: Op)
    requires forall o :: o in a <==> o in b
    requires Outranks(w, a) && PayloadByVersion(a, w.event.id)
    ensures w.event.id in Run(map[], a) && w.event.id in Run(map[], b)
    ensures forall c: Column :: Owner(c) == Projector ==> Run(map[], a)[w.event.id][c] == Run(map[], b)[w.event.id][c]
    ensures w.event.pois.Some? ==> Run(map[], a)[w.event.id][Pois] == Run(map[], b)[w.event.id][Pois]
  {
    var id := w.event.id;
    forall i, j | 0 <= i < |b| && 0 <= j < |b| && UpsertOn(b[i], id) && UpsertOn(b[j], id)
      && b[i].event.aggregateVersion == b[j].event.aggregateVersion
      ensures b[i].event == b[j].event && b[i].occurredAt == b[j].occurredAt
    {
      assert b[i] in a && b[j] in a;
      SameVersionSamePayload(a, id, b[i], b[j]);
    }
    HighestUpsertWins(a, w);
    HighestUpsertWins(b, w);
  }

  /**
   Deletes have no tombstone. After the last upsert of a property, its row is gone exactly when some
   later delete carries a version above the one the row had then; earlier deletes do not count.
   */
  lemma {:induction false} DeleteStands(t: Table, rest: seq<Op>, id: Uuid)
    requires id in t && forall o :: o in rest ==> !UpsertOn(o, id)
    ensures id !in Run(t, rest) <==> exists o :: o in rest && o.Delete? && o.id == id && o.version > Version(t[id])
    ensures id in Run(t, rest) ==> Version(Run(t, rest)[id]) == Version(t[id])
  {
    hide StepRow, EventRow, Cell, Step;
    if rest != [] {
      var before, op := rest[..|rest| - 1], rest[|rest| - 1];
      assert rest == before + [op];
      DeleteStands(t, before, id);
      var r := Lookup(Run(t, before), id);
      Guards(r, op);
      if r.Some? && !op.Upsert? && StepRow(r, op).Some? {
        VersionKept(r.value, op);
      }
      StepTouchesOnlyItsTarget(Run(t, before), op, id);
      assert op in rest && forall o :: o in rest <==> o in before || o == op;
    }
  }

  /** POIs converge only when the winning event carries them: without the key, delivery order decides. */
  lemma PoisWithoutKeyDiverge(older: Op, newer: Op)
    requires older.Upsert? && newer.Upsert? && older.event.id == newer.event.id
    requires older.event.aggregateVersion < newer.event.aggregateVersion
    requires older.event.pois.Some? && newer.event.pois.None?
    ensures Run(map[], [older, newer])[older.event.id][Pois] == PoiList(older.event.pois.value)
    ensures Run(map[], [newer, older])[older.event.id][Pois] == PoiList([])
  {
    hide StepRow, EventRow, Cell, Step, Run;
    RunTwo(map[], older, newer);
    RunTwo(map[], newer, older);
    var id := older.event.id;
    StepTouchesOnlyItsTarget(map[], older, id);
    StepTouchesOnlyItsTarget(Run(map[], [older]), newer, id);
    StepTouchesOnlyItsTarget(map[], newer, id);
    StepTouchesOnlyItsTarget(Run(map[], [newer]), older, id);
    UpsertShows(None, older);
    UpsertShows(None, newer);
    VersionCell(older);
    UpsertWithoutPois(Some(Run(map[], [older])[id]), newer);
    UpsertWithoutPois(None, newer);
    Guards(Some(Run(map[], [newer])[id]), older);
  }

  lemma UpsertWithoutPois(r: Option<Row>, op: Op)
    requires op.Upsert? && op.event.pois.None? && (r.Some? ==> Version(r.value) < op.event.aggregateVersion)
    ensures StepRow(r, op).Some?
    ensures StepRow(r, op).value[Pois] == if r.Some? then r.value[Pois] else PoiList([])
  {
    hide EventRow;
    var row := EventRow(op.event, op.occurredAt, op.agency);
    RowDictKeys(op.event, op.occurredAt, op.agency, Pois);
    InsertedCell(row, op.now, Pois);
    if r.Some? {
      OverwrittenCell(r.value, row, op.now, Pois);
    }
  }

  /** While a row lives its version never decreases and its `created_at` never moves. */
  lemma LivingRow(t: Table, op: Op, id: Uuid)
    requires id in t && id in Step(t, op)
    ensures Version(t[id]) <= Version(Step(t, op)[id])
    ensures Created(Step(t, op)[id]) == Created(t[id])
  {
    hide StepRow, EventRow, Cell, Step;
    StepTouchesOnlyItsTarget(t, op, id);
    if Target(op) == id {
      Guards(Some(t[id]), op);
      if op.Upsert? && Version(t[id]) < op.event.aggregateVersion {
        UpsertShows(Some(t[id]), op);
        UpsertKeepsCreated(t[id], op);
      } else if !op.Upsert? {
        VersionKept(t[id], op);
        OtherCell(t[id], op, CreatedAt);
      }
    }
  }

  lemma UpsertKeepsCreated(r: Row, op: Op)
    requires op.Upsert? && Version(r) < op.event.aggregateVersion
    ensures StepRow(Some(r), op).Some? && Created(StepRow(Some(r), op).value) == Created(r)
  {
    hide EventRow;
    OverwrittenCell(r, EventRow(op.event, op.occurredAt, op.agency), op.now, CreatedAt);
  }
}
