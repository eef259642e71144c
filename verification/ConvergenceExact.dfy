/**
 When delivery order decides, and when it does not: over all orders of one collection of messages, with
 duplicates and with the other writers of the row among them.
 */
module ConvergenceExact {
  import opened Prelude
  import opened Sql
  import opened ListingProjection
  import opened ProjectionConvergence

  ghost predicate SameMessages(a: seq<Op>, b: seq<Op>) { multiset(a) == multiset(b) }

  /** The table a delivery sequence leaves behind. */
  function After(ops: seq<Op>): Table { Run(map[], ops) }

  ghost predicate OrdersAgreeOnPresence(ops: seq<Op>, id: Uuid) {
    forall a, b | SameMessages(a, ops) && SameMessages(b, ops) :: id in After(a) <==> id in After(b)
  }

  ghost predicate OrdersAgreeOnPois(ops: seq<Op>, id: Uuid) {
    forall a, b | SameMessages(a, ops) && SameMessages(b, ops) && id in After(a) && id in After(b) ::
      After(a)[id][Pois] == After(b)[id][Pois]
  }

  ghost predicate DeleteOn(op: Op, id: Uuid) { op.Delete? && op.id == id }

  /** A delete that carries a version above every upsert's. */
  ghost predicate DeletesThemAll(d: Op, ops: seq<Op>, id: Uuid) {
    && d in ops && DeleteOn(d, id)
    && forall u :: u in ops && UpsertOn(u, id) ==> u.event.aggregateVersion < d.version
  }

  // ---------- Rearranging messages ----------

  lemma SameElements(a: seq<Op>, b: seq<Op>)
    requires SameMessages(a, b)
    ensures forall x :: x in a <==> x in b
  {
    forall x ensures x in a <==> x in b {
      assert x in a <==> multiset(a)[x] > 0;
      assert x in b <==> multiset(b)[x] > 0;
    }
  }

  /** The upserts on `id`, and everything else, each in its order. */
  function Upserts(ops: seq<Op>, id: Uuid): seq<Op> {
    if ops == [] then []
    else (if ops[0].Upsert? && ops[0].event.id == id then [ops[0]] else []) + Upserts(ops[1..], id)
  }

  function Others(ops: seq<Op>, id: Uuid): seq<Op> {
    if ops == [] then []
    else (if ops[0].Upsert? && ops[0].event.id == id then [] else [ops[0]]) + Others(ops[1..], id)
  }

  lemma {:induction false} Partition(ops: seq<Op>, id: Uuid)
    ensures multiset(Upserts(ops, id)) + multiset(Others(ops, id)) == multiset(ops)
    ensures forall x :: x in Upserts(ops, id) ==> UpsertOn(x, id)
    ensures forall x :: x in Others(ops, id) ==> !UpsertOn(x, id)
  {
    if ops != [] {
      Partition(ops[1..], id);
      assert ops == [ops[0]] + ops[1..];
    }
  }

  lemma {:induction false} TakeOut(ops: seq<Op>, x: Op) returns (rest: seq<Op>)
    requires x in ops
    ensures multiset([x] + rest) == multiset(ops)
  {
    var i :| 0 <= i < |ops| && ops[i] == x;
    rest := ops[..i] + ops[i + 1..];
    assert ops == ops[..i] + [ops[i]] + ops[i + 1..];
  }

  // ---------- Presence ----------

  lemma {:induction false} AbsentWithoutUpsert(ops: seq<Op>, id: Uuid)
    requires forall o :: o in ops ==> !UpsertOn(o, id)
    ensures id !in After(ops)
  {
    hide StepRow, Step;
    if ops != [] {
      var before, op := ops[..|ops| - 1], ops[|ops| - 1];
      assert forall o :: o in before ==> o in ops;
      assert op in ops;
      AbsentWithoutUpsert(before, id);
      Guards(None, op);
      StepTouchesOnlyItsTarget(After(before), op, id);
    }
  }

  /** Nothing but upserts on `id`: after the first one the row is there to stay. */
  lemma {:induction false} PresentAfterUpserts(t: Table, ups: seq<Op>, id: Uuid)
    requires ups != [] && forall o :: o in ups ==> UpsertOn(o, id)
    ensures id in Run(t, ups)
  {
    hide StepRow, Step;
    var before, op := ups[..|ups| - 1], ups[|ups| - 1];
    assert op in ups && forall o :: o in before ==> o in ups;
    if before != [] {
      PresentAfterUpserts(t, before, id);
    }
    var r := Lookup(Run(t, before), id);
    Guards(r, op);
    if r.None? || Version(r.value) < op.event.aggregateVersion {
      UpsertShows(r, op);
    }
    StepTouchesOnlyItsTarget(Run(t, before), op, id);
  }

  /** Upserts up to version `top`, one of them at it, and no delete above it: the row is there, at `top`. */
  lemma {:induction false} TopVersionStays(ops: seq<Op>, id: Uuid, top: int)
    requires exists u :: u in ops && UpsertOn(u, id) && u.event.aggregateVersion == top
    requires forall u :: u in ops && UpsertOn(u, id) ==> u.event.aggregateVersion <= top
    requires forall d :: d in ops && DeleteOn(d, id) ==> d.version <= top
    ensures id in After(ops) && Version(After(ops)[id]) == top
  {
    hide StepRow, Step;
    var before, op := ops[..|ops| - 1], ops[|ops| - 1];
    assert ops == before + [op];
    var r := Lookup(After(before), id);
    VersionBoundedByDeliveries(before, id, top);
    Guards(r, op);
    StepTouchesOnlyItsTarget(After(before), op, id);
    if u :| u in before && UpsertOn(u, id) && u.event.aggregateVersion == top {
      TopVersionStays(before, id, top);
      if Target(op) == id && !op.Upsert? {
        assert op in ops && DeleteOn(op, id) ==> op.version <= top;
        VersionKept(r.value, op);
      }
    } else {
      assert UpsertOn(op, id) && op.event.aggregateVersion == top;
      if r.None? || Version(r.value) < top {
        UpsertShows(r, op);
      }
    }
  }

  lemma {:induction false} TopVersion(ops: seq<Op>, id: Uuid) returns (u: Op)
    requires exists o :: o in ops && UpsertOn(o, id)
    ensures u in ops && UpsertOn(u, id)
    ensures forall o :: o in ops && UpsertOn(o, id) ==> o.event.aggregateVersion <= u.event.aggregateVersion
  {
    var before, op := ops[..|ops| - 1], ops[|ops| - 1];
    assert ops == before + [op];
    if exists o :: o in before && UpsertOn(o, id) {
      u := TopVersion(before, id);
      if UpsertOn(op, id) && op.event.aggregateVersion > u.event.aggregateVersion {
        u := op;
      }
    } else {
      u := op;
    }
  }

  /** The order "upserts first" loses the row to such a delete, the order "upserts last" keeps it. */
  lemma TwoOrdersDisagree(ops: seq<Op>, id: Uuid, d: Op) returns (lost: seq<Op>, kept: seq<Op>)
    requires DeletesThemAll(d, ops, id) && HasUpsert(ops, id)
    ensures SameMessages(lost, ops) && SameMessages(kept, ops)
    ensures id !in After(lost) && id in After(kept)
  {
    var ups, rest := Upserts(ops, id), Others(ops, id);
    Partition(ops, id);
    lost, kept := ups + rest, rest + ups;
    SameElements(lost, ops);
    var u :| u in ops && UpsertOn(u, id);
    assert u in lost && d in lost;
    assert u in ups && d in rest;
    RunConcat(map[], ups, rest);
    RunConcat(map[], rest, ups);
    PresentAfterUpserts(map[], ups, id);
    PresentAfterUpserts(After(rest), ups, id);
    forall o | o in ups ensures o.event.aggregateVersion < d.version {
      assert o in lost;
    }
    VersionBoundedByDeliveries(ups, id, d.version - 1);
    DeleteStands(After(ups), rest, id);
  }

  ghost predicate HasUpsert(ops: seq<Op>, id: Uuid) { exists u :: u in ops && UpsertOn(u, id) }

  /**
   All delivery orders agree on whether the row exists exactly when there is no upsert among the messages, or no
   delete carries a version above every upsert's.
   */
  lemma PresenceIsOrderFreeIff(ops: seq<Op>, id: Uuid)
    ensures OrdersAgreeOnPresence(ops, id) <==> (HasUpsert(ops, id) ==> !exists d :: DeletesThemAll(d, ops, id))
    ensures OrdersAgreeOnPresence(ops, id) ==>
      forall a :: SameMessages(a, ops) ==> (id in After(a) <==> HasUpsert(ops, id))
  {
    hide Run;
    if !HasUpsert(ops, id) {
      forall a | SameMessages(a, ops) ensures id !in After(a) {
        SameElements(a, ops);
        AbsentWithoutUpsert(a, id);
      }
    } else if d :| DeletesThemAll(d, ops, id) {
      var lost, kept := TwoOrdersDisagree(ops, id, d);
      assert !OrdersAgreeOnPresence(ops, id);
    } else {
      var u := TopVersion(ops, id);
      var top := u.event.aggregateVersion;
      forall a | SameMessages(a, ops) ensures id in After(a) {
        SameElements(a, ops);
        assert u in a;
        forall d | d in a && DeleteOn(d, id) ensures d.version <= top {
          assert !DeletesThemAll(d, ops, id);
        }
        TopVersionStays(a, id, top);
      }
    }
  }

  /** All orders leave the same row behind, as far as the projector's columns go, or all leave none. */
  ghost predicate OrdersAgree(ops: seq<Op>, id: Uuid) {
    && OrdersAgreeOnPresence(ops, id)
    && forall a, b | SameMessages(a, ops) && SameMessages(b, ops) && id in After(a) && id in After(b) ::
         SameProjection(After(a)[id], After(b)[id])
  }

  ghost predicate SameProjection(r: Row, q: Row) {
    forall c: Column :: Owner(c) == Projector ==> r[c] == q[c]
  }

  lemma SameFacts(ops: seq<Op>, a: seq<Op>, w: Op)
    requires SameMessages(a, ops) && Outranks(w, ops) && PayloadByVersion(ops, w.event.id)
    ensures Outranks(w, a) && PayloadByVersion(a, w.event.id)
  {
    SameElements(a, ops);
    var id := w.event.id;
    forall i, j | 0 <= i < |a| && 0 <= j < |a| && UpsertOn(a[i], id) && UpsertOn(a[j], id)
      && a[i].event.aggregateVersion == a[j].event.aggregateVersion
      ensures a[i].event == a[j].event && a[i].occurredAt == a[j].occurredAt
    {
      assert a[i] in ops && a[j] in ops;
      SameVersionSamePayload(ops, id, a[i], a[j]);
    }
  }

  /**
   Convergence, exactly: all delivery orders agree on presence and on every projector column if and only if there
   is no upsert among the messages, or no delete carries a version above every upsert's.
   */
  lemma ConvergenceIff(ops: seq<Op>, id: Uuid)
    requires PayloadByVersion(ops, id)
    ensures OrdersAgree(ops, id) <==> (HasUpsert(ops, id) ==> !exists d :: DeletesThemAll(d, ops, id))
  {
    hide Run, PayloadByVersion;
    PresenceIsOrderFreeIff(ops, id);
    if HasUpsert(ops, id) && !exists d :: DeletesThemAll(d, ops, id) {
      var w := TopVersion(ops, id);
      forall d | d in ops && DeleteOn(d, id) ensures d.version <= w.event.aggregateVersion {
        assert !DeletesThemAll(d, ops, id);
      }
      assert Outranks(w, ops);
      forall a, b | SameMessages(a, ops) && SameMessages(b, ops)
        ensures id in After(a) && id in After(b) && SameProjection(After(a)[id], After(b)[id])
      {
        SameFacts(ops, a, w);
        SameElements(a, b);
        Convergence(a, b, w);
      }
    }
  }

  // ---------- Points of interest ----------

  /** An upsert without the POI key, or with an empty list. */
  predicate NoPois(op: Op)
    requires op.Upsert?
  {
    op.event.pois.None? || op.event.pois == Some([])
  }

  lemma UpsertPois(r: Option<Row>, op: Op)
    requires op.Upsert? && (r.Some? ==> Version(r.value) < op.event.aggregateVersion)
    ensures StepRow(r, op).Some?
    ensures StepRow(r, op).value[Pois] ==
      if op.event.pois.Some? then PoiList(op.event.pois.value) else if r.Some? then r.value[Pois] else PoiList([])
  {
    hide StepRow, Cell;
    UpsertShows(r, op);
    VersionCell(op);
    if op.event.pois.None? {
      UpsertWithoutPois(r, op);
    }
  }

  lemma {:induction false} PoisStayEmpty(ops: seq<Op>, id: Uuid)
    requires forall u :: u in ops && UpsertOn(u, id) ==> NoPois(u)
    ensures id in After(ops) ==> After(ops)[id][Pois] == PoiList([])
  {
    hide StepRow, Step;
    if ops != [] {
      var before, op := ops[..|ops| - 1], ops[|ops| - 1];
      assert op in ops && forall o :: o in before ==> o in ops;
      PoisStayEmpty(before, id);
      StepTouchesOnlyItsTarget(After(before), op, id);
      if Target(op) == id {
        PoisAfterStep(Lookup(After(before), id), op);
      }
    }
  }

  lemma PoisAfterStep(r: Option<Row>, op: Op)
    requires op.Upsert? ==> NoPois(op)
    requires r.Some? ==> r.value[Pois] == PoiList([])
    ensures StepRow(r, op).Some? ==> StepRow(r, op).value[Pois] == PoiList([])
  {
    hide StepRow;
    Guards(r, op);
    if op.Upsert? {
      if r.None? || Version(r.value) < op.event.aggregateVersion {
        UpsertPois(r, op);
      }
    } else if r.Some? && StepRow(r, op).Some? {
      OtherCell(r.value, op, Pois);
    }
  }

  /** Once a row is at version `top` and nothing delivered later outranks it, its POIs stay. */
  lemma {:induction false} PoisFrozen(t: Table, rest: seq<Op>, id: Uuid, top: int)
    requires id in t && Version(t[id]) == top
    requires forall u :: u in rest && UpsertOn(u, id) ==> u.event.aggregateVersion <= top
    requires forall d :: d in rest && DeleteOn(d, id) ==> d.version <= top
    ensures id in Run(t, rest) && Version(Run(t, rest)[id]) == top && Run(t, rest)[id][Pois] == t[id][Pois]
  {
    hide StepRow, Step;
    if rest != [] {
      var before, op := rest[..|rest| - 1], rest[|rest| - 1];
      assert op in rest && forall o :: o in before ==> o in rest;
      PoisFrozen(t, before, id, top);
      var r := Run(t, before)[id];
      StepTouchesOnlyItsTarget(Run(t, before), op, id);
      Guards(Some(r), op);
      if Target(op) == id && !op.Upsert? {
        OtherCell(r, op, Pois);
        VersionKept(r, op);
      }
    }
  }

  lemma Unbeaten(w: Op, ops: seq<Op>, rest: seq<Op>)
    requires Outranks(w, ops) && forall o :: o in rest ==> o in ops
    ensures forall u :: u in rest && UpsertOn(u, w.event.id) ==> u.event.aggregateVersion <= w.event.aggregateVersion
    ensures forall d :: d in rest && DeleteOn(d, w.event.id) ==> d.version <= w.event.aggregateVersion
  {
  }

  /** An older upsert with POIs, and the winner without the key: which of the two comes first decides. */
  lemma TwoOrdersDifferInPois(ops: seq<Op>, w: Op, o: Op) returns (a: seq<Op>, b: seq<Op>)
    requires Outranks(w, ops) && PayloadByVersion(ops, w.event.id)
    requires w.event.pois.None? && o in ops && UpsertOn(o, w.event.id) && !NoPois(o)
    ensures SameMessages(a, ops) && SameMessages(b, ops)
    ensures w.event.id in After(a) && w.event.id in After(b)
    ensures After(a)[w.event.id][Pois] != After(b)[w.event.id][Pois]
  {
    var id := w.event.id;
    if o.event.aggregateVersion == w.event.aggregateVersion {
      SameVersionSamePayload(ops, id, o, w);
      assert false;
    }
    var others := TakeOut(ops, o);
    SameElements([o] + others, ops);
    assert w in others;
    var rest := TakeOut(others, w);
    a, b := [o, w] + rest, [w, o] + rest;
    assert multiset(a) == multiset{o} + multiset([w] + rest) == multiset([o] + others);
    assert multiset(b) == multiset{o} + multiset([w] + rest);
    SameElements(a, ops);
    assert forall x :: x in rest ==> x in a;
    Unbeaten(w, ops, rest);
    RunConcat(map[], [o, w], rest);
    RunConcat(map[], [w, o], rest);
    FirstTwo(o, w);
    PoisFrozen(After([o, w]), rest, id, w.event.aggregateVersion);
    PoisFrozen(After([w, o]), rest, id, w.event.aggregateVersion);
  }

  lemma FirstTwo(older: Op, newer: Op)
    requires older.Upsert? && newer.Upsert? && older.event.id == newer.event.id
    requires older.event.aggregateVersion < newer.event.aggregateVersion
    requires older.event.pois.Some? && newer.event.pois.None?
    ensures var id := newer.event.id;
      && id in After([older, newer]) && Version(After([older, newer])[id]) == newer.event.aggregateVersion
      && id in After([newer, older]) && Version(After([newer, older])[id]) == newer.event.aggregateVersion
      && After([older, newer])[id][Pois] == PoiList(older.event.pois.value)
      && After([newer, older])[id][Pois] == PoiList([])
  {
    hide Run;
    PoisWithoutKeyDiverge(older, newer);
    TopVersionStays([older, newer], newer.event.id, newer.event.aggregateVersion);
    TopVersionStays([newer, older], newer.event.id, newer.event.aggregateVersion);
  }

  /**
   With an upsert `w` that outranks the rest: all delivery orders agree on the POIs exactly when `w` carries
   the key, or no upsert of the property carries a POI at all.
   */
  lemma PoisAreOrderFreeIff(ops: seq<Op>, w: Op)
    requires Outranks(w, ops) && PayloadByVersion(ops, w.event.id)
    ensures OrdersAgreeOnPois(ops, w.event.id) <==>
      w.event.pois.Some? || forall u :: u in ops && UpsertOn(u, w.event.id) ==> NoPois(u)
  {
    hide Run, PayloadByVersion;
    var id := w.event.id;
    if w.event.pois.Some? {
      forall a, b | SameMessages(a, ops) && SameMessages(b, ops)
        ensures id in After(a) && id in After(b) && After(a)[id][Pois] == After(b)[id][Pois]
      {
        SameFacts(ops, a, w);
        SameElements(a, b);
        Convergence(a, b, w);
      }
    } else if forall u :: u in ops && UpsertOn(u, id) ==> NoPois(u) {
      forall a | SameMessages(a, ops) && id in After(a) ensures After(a)[id][Pois] == PoiList([]) {
        SameElements(a, ops);
        PoisStayEmpty(a, id);
      }
    } else {
      var o :| o in ops && UpsertOn(o, id) && !NoPois(o);
      var a, b := TwoOrdersDifferInPois(ops, w, o);
      assert !OrdersAgreeOnPois(ops, id);
    }
  }
}
