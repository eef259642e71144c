/**
 Three handlers share one row. Each writes its own columns and decides only on its own columns, so what
 a handler leaves behind does not depend on how the others are interleaved with it.
 */
module WriterNonInterference {
  import opened Prelude
  import opened Sql
  import opened ListingProjection

  datatype Handler = PropertyEvents | AddressEnrichment | Embedding

  function By(op: Op): Handler {
    match op
    case Upsert(_, _, _, _) | Delete(_, _) => PropertyEvents
    case UpdateLocation(_, _, _) | IncrementAttempts(_) => AddressEnrichment
    case SetEmbeddingIndexed(_, _, _, _, _) | SetEmbeddingStatus(_, _) => Embedding
  }

  predicate Writes(h: Handler, c: Column) {
    match h
    case PropertyEvents => Owner(c) in {Projector, ProjectorIfSupplied, ProjectorClock}
    case AddressEnrichment => Owner(c) == Enricher
    case Embedding => Owner(c) == Embedder
  }

  ghost predicate Agree(a: Row, b: Row, h: Handler) {
    forall c: Column :: Writes(h, c) ==> a[c] == b[c]
  }

  /** The SET clause leaves out exactly the columns of the other handlers and of the insertion. */
  lemma SetClauseIsTheProjectorsColumns(c: Column)
    ensures NotInSet(c) <==> !Writes(PropertyEvents, c)
  {
  }

  lemma LeavesOthersAlone(r: Row, op: Op, c: Column)
    requires !op.Delete? && !Writes(By(op), c)
    ensures StepRow(Some(r), op).Some? && StepRow(Some(r), op).value[c] == r[c]
  {
    hide EventRow, Cell, Relocated, Indexed, Overwritten;
    match op
    case Upsert(e, at, agency, now) =>
      SetClauseIsTheProjectorsColumns(c);
      OverwrittenCell(r, EventRow(e, at, agency), now, c);
    case UpdateLocation(_, p, now) => RelocatedCell(r, p, now, c);
    case SetEmbeddingIndexed(_, h, t, m, at) => IndexedCell(r, h, t, m, at, c);
    case _ =>
  }

  lemma RelocatedFrom(a: Row, b: Row, p: ParsedAddress, now: Instant, c: Column)
    requires Owner(c) == Enricher && a[LocationEnrichmentAttempts] == b[LocationEnrichmentAttempts]
    ensures Relocated(a, p, now)[c] == Relocated(b, p, now)[c]
  {
  }

  lemma IndexedFrom(a: Row, b: Row, h: string, t: string, m: string, at: Instant, c: Column)
    requires Owner(c) == Embedder
    ensures Indexed(a, h, t, m, at)[c] == Indexed(b, h, t, m, at)[c]
  {
  }

  lemma ReadsOnlyItsOwn(a: Row, b: Row, op: Op, c: Column)
    requires !op.Delete? && Agree(a, b, By(op)) && Writes(By(op), c)
    ensures StepRow(Some(a), op).Some? && StepRow(Some(b), op).Some?
    ensures StepRow(Some(a), op).value[c] == StepRow(Some(b), op).value[c]
  {
    hide EventRow, Cell, Overwritten, Relocated, Indexed;
    match op
    case Upsert(e, at, agency, now) =>
      assert Writes(By(op), SourceAggregateVersion);
      OverwrittenCell(a, EventRow(e, at, agency), now, c);
      OverwrittenCell(b, EventRow(e, at, agency), now, c);
    case UpdateLocation(_, p, now) =>
      assert Writes(By(op), LocationEnrichmentAttempts);
      RelocatedFrom(a, b, p, now, c);
    case SetEmbeddingIndexed(_, h, t, m, at) =>
      IndexedFrom(a, b, h, t, m, at, c);
    case IncrementAttempts(_) =>
      assert Writes(By(op), LocationEnrichmentAttempts);
    case _ =>
  }

  lemma AgreementKept(a: Row, b: Row, op: Op, h: Handler)
    requires !op.Delete? && Agree(a, b, h)
    ensures StepRow(Some(a), op).Some? && StepRow(Some(b), op).Some?
    ensures By(op) == h ==> Agree(StepRow(Some(a), op).value, StepRow(Some(b), op).value, h)
    ensures By(op) != h ==> Agree(StepRow(Some(a), op).value, b, h)
  {
    hide StepRow;
    LeavesOthersAlone(a, op, Id);
    LeavesOthersAlone(b, op, Id);
    forall c: Column | Writes(h, c)
      ensures By(op) == h ==> StepRow(Some(a), op).value[c] == StepRow(Some(b), op).value[c]
      ensures By(op) != h ==> StepRow(Some(a), op).value[c] == b[c]
    {
      if By(op) == h {
        ReadsOnlyItsOwn(a, b, op, c);
      } else {
        OneHandlerPerColumn(c, h, By(op));
        LeavesOthersAlone(a, op, c);
      }
    }
  }

  lemma OneHandlerPerColumn(c: Column, h: Handler, other: Handler)
    requires Writes(h, c) && h != other
    ensures !Writes(other, c)
  {
  }

  // ---------- Steps of different handlers commute ----------

  lemma WritersCommute(r: Row, a: Op, b: Op)
    requires By(a) != By(b) && !a.Delete? && !b.Delete?
    ensures StepRow(StepRow(Some(r), a), b) == StepRow(StepRow(Some(r), b), a)
  {
    hide StepRow;
    LeavesOthersAlone(r, a, Id);
    LeavesOthersAlone(r, b, Id);
    var ra, rb := StepRow(Some(r), a).value, StepRow(Some(r), b).value;
    LeavesOthersAlone(ra, b, Id);
    LeavesOthersAlone(rb, a, Id);
    var ab, ba := StepRow(Some(ra), b).value, StepRow(Some(rb), a).value;
    forall c: Column ensures ab[c] == ba[c] {
      CellsCommute(r, a, b, c);
    }
    assert ab == ba;
  }

  lemma CellsCommute(r: Row, a: Op, b: Op, c: Column)
    requires By(a) != By(b) && !a.Delete? && !b.Delete?
    ensures var ra, rb := StepRow(Some(r), a), StepRow(Some(r), b);
      ra.Some? && rb.Some? && StepRow(ra, b).Some? && StepRow(rb, a).Some?
      && StepRow(ra, b).value[c] == StepRow(rb, a).value[c]
  {
    hide StepRow;
    AgreementKept(r, r, a, By(b));
    AgreementKept(r, r, b, By(a));
    var ra, rb := StepRow(Some(r), a).value, StepRow(Some(r), b).value;
    AgreementKept(ra, r, b, By(b));
    AgreementKept(rb, r, a, By(a));
    if !Writes(By(a), c) && !Writes(By(b), c) {
      LeavesOthersAlone(r, a, c);
      LeavesOthersAlone(r, b, c);
      LeavesOthersAlone(ra, b, c);
      LeavesOthersAlone(rb, a, c);
    } else if Writes(By(a), c) {
      OneHandlerPerColumn(c, By(a), By(b));
      LeavesOthersAlone(ra, b, c);
    } else {
      LeavesOthersAlone(rb, a, c);
    }
  }

  // ---------- Whole runs ----------

  function OnlyBy(ops: seq<Op>, h: Handler): seq<Op> {
    if ops == [] then []
    else
      var rest := OnlyBy(ops[..|ops| - 1], h);
      if By(ops[|ops| - 1]) == h then rest + [ops[|ops| - 1]] else rest
  }

  /** While the row lives, erasing every other handler's steps changes nothing in this handler's columns. */
  lemma {:induction false} NonInterference(t: Table, ops: seq<Op>, id: Uuid, h: Handler)
    requires id in t && forall o :: o in ops ==> !(o.Delete? && o.id == id)
    ensures id in Run(t, ops) && id in Run(t, OnlyBy(ops, h))
    ensures Agree(Run(t, ops)[id], Run(t, OnlyBy(ops, h))[id], h)
  {
    hide StepRow, Step;
    if ops != [] {
      var before, op := ops[..|ops| - 1], ops[|ops| - 1];
      assert forall o :: o in before ==> o in ops;
      NonInterference(t, before, id, h);
      var kept := OnlyBy(before, h);
      StepTouchesOnlyItsTarget(Run(t, before), op, id);
      assert (kept + [op])[..|kept + [op]| - 1] == kept;
      StepTouchesOnlyItsTarget(Run(t, kept), op, id);
      if Target(op) == id {
        assert op in ops;
        AgreementKept(Run(t, before)[id], Run(t, kept)[id], op, h);
      }
    }
  }

  // ---------- The attempts counter ----------

  predicate CountsAsAttempt(op: Op, id: Uuid) {
    (op.UpdateLocation? || op.IncrementAttempts?) && op.id == id
  }

  /** Location writes and failed attempts on `id` since its row was last inserted. */
  ghost function AttemptsSinceInsert(ops: seq<Op>, id: Uuid): nat {
    if ops == [] then 0
    else
      var before, op := ops[..|ops| - 1], ops[|ops| - 1];
      if id !in Run(map[], before) then 0
      else AttemptsSinceInsert(before, id) + if CountsAsAttempt(op, id) then 1 else 0
  }

  lemma {:induction false} AttemptsAreCounted(ops: seq<Op>, id: Uuid)
    ensures id in Run(map[], ops) ==> Attempts(Run(map[], ops)[id]) == AttemptsSinceInsert(ops, id)
  {
    hide StepRow, Step;
    if ops != [] {
      var before, op := ops[..|ops| - 1], ops[|ops| - 1];
      AttemptsAreCounted(before, id);
      StepTouchesOnlyItsTarget(Run(map[], before), op, id);
      if Target(op) == id {
        AttemptsStep(Lookup(Run(map[], before), id), op);
      }
    }
  }

  lemma AttemptsStep(r: Option<Row>, op: Op)
    ensures StepRow(r, op).Some? ==>
      Attempts(StepRow(r, op).value) ==
        if r.None? then 0 else Attempts(r.value) + if CountsAsAttempt(op, Target(op)) then 1 else 0
  {
    hide EventRow, Cell, Overwritten, Inserted, Indexed;
    match op
    case Upsert(e, at, agency, now) =>
      var row := EventRow(e, at, agency);
      EventCell(e, at, agency, LocationEnrichmentAttempts);
      TypedCells(e, at, agency);
      InsertedCell(row, now, LocationEnrichmentAttempts);
      if r.Some? {
        OverwrittenCell(r.value, row, now, LocationEnrichmentAttempts);
      }
    case SetEmbeddingIndexed(_, h, t, m, at) =>
      if r.Some? {
        IndexedCell(r.value, h, t, m, at, LocationEnrichmentAttempts);
      }
    case _ =>
  }
}
