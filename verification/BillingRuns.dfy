/**
 Properties of whole runs of the billing context: retries collapse, and the plan/price invariant holds
 across seeding, checkout and webhooks.
 */
module BillingRuns {
  import opened Prelude
  import opened Billing
  import opened BillingMeaning

  // ---------- Retries ----------

  ghost function DeliverAll(c: PriceCatalog, g: Gateway, db: Db, log: seq<Attempt>): Db {
    if log == [] then db else Deliver(c, g, DeliverAll(c, g, db, log[..|log| - 1]), log[|log| - 1])
  }

  /** The events whose effects reached the rows, each once, in the order they first did. */
  ghost function Landed(c: PriceCatalog, g: Gateway, db: Db, log: seq<Attempt>): seq<Event> {
    if log == [] then []
    else
      var before, a := log[..|log| - 1], log[|log| - 1];
      var landed := Landed(c, g, db, before);
      if Effective(c, g, DeliverAll(c, g, db, before), a) && a.event !in landed then landed + [a.event] else landed
  }

  /** Applying each event of a list once. */
  ghost function ApplyEach(c: PriceCatalog, g: Gateway, rows: Rows, events: seq<Event>): Option<Rows> {
    if events == [] then Some(rows)
    else
      match ApplyEach(c, g, rows, events[..|events| - 1])
      case None => None
      case Some(r) => ApplyEvent(c, g, r, events[|events| - 1])
  }

  /** The row an event is about already shows it: what the handler would write is there, kind by kind. */
  predicate RowShows(c: PriceCatalog, g: Gateway, r: Row, e: Event) {
    match e.eventType
    case CheckoutCompleted =>
      !Truthy(e.subscription) || (g(e.subscription.value).Some? && Reflects(c, r, g(e.subscription.value).value))
    case SubscriptionUpserted => Reflects(c, r, e.object_)
    case SubscriptionDeleted => r.status == Cancelled
    case PaymentFailed => r.status == PastDue
    case InvoicePaid => r.status != PastDue
    case OtherType => true
  }

  /** A row that agrees with a Stripe subscription: applying it leaves the row as it is. */
  predicate Reflects(c: PriceCatalog, r: Row, s: StripeSubscription) {
    && HasSoldPrice(c, s) && r.priceId == s.items[0].priceId && IsSold(c, s.items[0].priceId.value, r.plan)
    && r.kind == Stripe && StatusMeans(s.status, r.status)
    && (s.id.Some? ==> r.subscriptionId == s.id)
    && BoundFrom(s.periodStart, s.periodEnd, s.items[0].periodStart, r.periodStart, r.periodStart)
    && BoundFrom(s.periodEnd, s.periodStart, s.items[0].periodEnd, r.periodEnd, r.periodEnd)
  }

  /** Nothing for the event to do: no customer, no row, or the customer's newest row already shows it. */
  ghost predicate AlreadyShown(c: PriceCatalog, g: Gateway, rows: Rows, e: Event) {
    e.eventType.OtherType? || !Truthy(e.customer) ||
    match Latest(rows, OfCustomer(rows, e.customer.value))
    case None => true
    case Some(id) => RowShows(c, g, rows[id], e)
  }

  /** The attempt at `k` applies an event that has already taken effect before. */
  ghost predicate IsRetry(c: PriceCatalog, g: Gateway, db: Db, log: seq<Attempt>, k: nat)
    requires k < |log|
  {
    Effective(c, g, DeliverAll(c, g, db, log[..k]), log[k]) && log[k].event in Landed(c, g, db, log[..k])
  }

  /** So far the rows are those of applying every event that took effect once. */
  ghost predicate Collapsed(c: PriceCatalog, g: Gateway, db: Db, log: seq<Attempt>) {
    ApplyEach(c, g, db.rows, Landed(c, g, db, log)) == Some(DeliverAll(c, g, db, log).rows)
  }

  ghost predicate RetriesFindTheirEvent(c: PriceCatalog, g: Gateway, db: Db, log: seq<Attempt>) {
    forall k | 0 <= k < |log| && IsRetry(c, g, db, log, k) ::
      AlreadyShown(c, g, DeliverAll(c, g, db, log[..k]).rows, log[k].event)
  }

  /** Between an attempt that took effect and the next one, no other event of the customer is handled. */
  ghost predicate RetriesAreContiguous(c: PriceCatalog, g: Gateway, db: Db, log: seq<Attempt>) {
    forall i, k | 0 <= i < k < |log| && log[i].event == log[k].event
      && Effective(c, g, DeliverAll(c, g, db, log[..i]), log[i]) :: Uninterrupted(c, g, db, log, i, k)
  }

  /** Either the record was already there at `k`, or only other customers' events came between `i` and `k`. */
  ghost predicate Uninterrupted(c: PriceCatalog, g: Gateway, db: Db, log: seq<Attempt>, i: nat, k: nat)
    requires i < k < |log|
  {
    || log[k].event.id in DeliverAll(c, g, db, log[..k]).processed
    || (forall j :: i <= j <= k ==> SameOrElsewhere(log[j].event, log[k].event))
  }

  predicate SameOrElsewhere(x: Event, e: Event) {
    x == e || x.customer != e.customer
  }

  lemma RowAfterTwice(c: PriceCatalog, g: Gateway, r: Row, e: Event)
    requires RowAfter(c, g, r, e).Some?
    ensures RowAfter(c, g, RowAfter(c, g, r, e).value, e) == RowAfter(c, g, r, e)
    ensures RowAfter(c, g, r, e).value.customerId == r.customerId
    ensures RowAfter(c, g, r, e).value.createdAt == r.createdAt
    ensures RowAfter(c, g, r, e).value.organizationId == r.organizationId
  {
    hide Periods;
    if e.eventType.CheckoutCompleted? && Truthy(e.subscription) {
      PatchTwice(r, PatchOf(c, g(e.subscription.value).value).value);
      PatchKeepsCustomer(c, g(e.subscription.value).value);
    } else if e.eventType.SubscriptionUpserted? {
      PatchTwice(r, PatchOf(c, e.object_).value);
      PatchKeepsCustomer(c, e.object_);
    }
  }

  lemma PatchTwice(r: Row, p: Patch)
    ensures Patched(Patched(r, p), p) == Patched(r, p)
  {
  }

  lemma PatchKeepsCustomer(c: PriceCatalog, s: StripeSubscription)
    ensures PatchOf(c, s).Some? ==> PatchOf(c, s).value.customerId.None?
  {
  }

  /** A lookup by customer does not notice a change of the other columns. */
  lemma SameLookup(rows: Rows, rows': Rows, customer: string)
    requires rows'.Keys == rows.Keys
    requires forall id :: id in rows ==>
      rows'[id].customerId == rows[id].customerId && rows'[id].createdAt == rows[id].createdAt
    ensures Latest(rows', OfCustomer(rows', customer)) == Latest(rows, OfCustomer(rows, customer))
  {
    assert OfCustomer(rows', customer) == OfCustomer(rows, customer);
    LatestAmongTheSame(rows, rows', OfCustomer(rows, customer));
  }

  /** Re-applying an event changes nothing. */
  lemma ApplyIsIdempotent(c: PriceCatalog, g: Gateway, rows: Rows, e: Event)
    requires ApplyEvent(c, g, rows, e).Some?
    ensures ApplyEvent(c, g, ApplyEvent(c, g, rows, e).value, e) == ApplyEvent(c, g, rows, e)
  {
    hide RowAfter;
    if !e.eventType.OtherType? && Truthy(e.customer) {
      var found := Latest(rows, OfCustomer(rows, e.customer.value));
      if found.Some? {
        var id := found.value;
        var rows' := ApplyEvent(c, g, rows, e).value;
        RowAfterTwice(c, g, rows[id], e);
        SameLookup(rows, rows', e.customer.value);
        assert rows'[id := rows'[id]] == rows';
      }
    }
  }

  // ---------- One retry ----------

  /** There is one row a subscription can make of a row. */
  lemma ProvisionedOnce(c: PriceCatalog, s: StripeSubscription, was: Row, a: Row, b: Row)
    requires Provisioned(c, s, was, a) && Provisioned(c, s, was, b)
    ensures a == b
  {
  }

  lemma ReflectsIsProvisioned(c: PriceCatalog, s: StripeSubscription, r: Row)
    ensures Reflects(c, r, s) <==> Provisioned(c, s, r, r)
  {
  }

  lemma ShownIsFixed(c: PriceCatalog, g: Gateway, r: Row, e: Event)
    requires RowAfter(c, g, r, e).Some?
    ensures RowAfter(c, g, r, e) == Some(r) <==> RowShows(c, g, r, e)
  {
    hide RowAfter, Provisioned, Reflects;
    var r' := RowAfter(c, g, r, e).value;
    RowMeans(c, g, r, e);
    if e.eventType.CheckoutCompleted? && Truthy(e.subscription) {
      Unchanged(c, g(e.subscription.value).value, r, r');
    } else if e.eventType.SubscriptionUpserted? {
      Unchanged(c, e.object_, r, r');
    }
  }

  lemma Unchanged(c: PriceCatalog, s: StripeSubscription, r: Row, r': Row)
    requires Provisioned(c, s, r, r')
    ensures r' == r <==> Reflects(c, r, s)
  {
    hide Provisioned, Reflects;
    ReflectsIsProvisioned(c, s, r);
    if Reflects(c, r, s) {
      ProvisionedOnce(c, s, r, r, r');
    }
  }

  /**
   Applying an event changes nothing exactly when the customer's newest row already shows it: for a failed
   payment iff it is past due, for a paid invoice iff it is not, for a deletion iff it is cancelled, for a
   provisioning event iff plan, price, status and what else the subscription carries are there.
   */
  lemma ApplyIsNeutralIff(c: PriceCatalog, g: Gateway, rows: Rows, e: Event)
    requires ApplyEvent(c, g, rows, e).Some?
    ensures ApplyEvent(c, g, rows, e) == Some(rows) <==> AlreadyShown(c, g, rows, e)
  {
    hide RowAfter, RowShows;
    if !e.eventType.OtherType? && Truthy(e.customer) {
      var found := Latest(rows, OfCustomer(rows, e.customer.value));
      if found.Some? {
        var id := found.value;
        ShownIsFixed(c, g, rows[id], e);
        var r := RowAfter(c, g, rows[id], e).value;
        assert rows[id := r][id] == r;
        assert rows[id := rows[id]] == rows;
      }
    }
  }

  /** An event of another customer leaves a fixed point a fixed point. */
  lemma ElsewhereKeepsFixed(c: PriceCatalog, g: Gateway, rows: Rows, e: Event, x: Event)
    requires ApplyEvent(c, g, rows, e) == Some(rows)
    requires x.customer != e.customer && ApplyEvent(c, g, rows, x).Some?
    ensures ApplyEvent(c, g, ApplyEvent(c, g, rows, x).value, e) == ApplyEvent(c, g, rows, x)
  {
    hide RowAfter;
    var rows' := ApplyEvent(c, g, rows, x).value;
    if !e.eventType.OtherType? && Truthy(e.customer) && !x.eventType.OtherType? && Truthy(x.customer) {
      var found := Latest(rows, OfCustomer(rows, e.customer.value));
      var touched := Latest(rows, OfCustomer(rows, x.customer.value));
      if touched.Some? {
        RowAfterTwice(c, g, rows[touched.value], x);
        SameLookup(rows, rows', e.customer.value);
        if found.Some? {
          assert rows'[found.value] == rows[found.value];
          assert RowAfter(c, g, rows[found.value], e) == Some(rows[found.value]) by {
            FixedRow(rows, found.value, RowAfter(c, g, rows[found.value], e).value);
          }
          assert rows'[found.value := rows'[found.value]] == rows';
        }
      }
    }
  }

  lemma FixedRow(rows: Rows, id: Uuid, r: Row)
    requires id in rows && rows[id := r] == rows
    ensures rows[id] == r
  {
    assert rows[id := r][id] == r;
  }

  lemma {:induction false} LandedWhen(c: PriceCatalog, g: Gateway, db: Db, log: seq<Attempt>, e: Event)
    ensures e in Landed(c, g, db, log) <==>
      exists i :: 0 <= i < |log| && log[i].event == e && Effective(c, g, DeliverAll(c, g, db, log[..i]), log[i])
  {
    hide Effective, Deliver;
    if log != [] {
      var before, a := log[..|log| - 1], log[|log| - 1];
      LandedWhen(c, g, db, before, e);
      assert log[..|log| - 1] == before;
      forall i | 0 <= i < |before| ensures before[i] == log[i] && before[..i] == log[..i] { }
      if e in Landed(c, g, db, before) {
        var i :| 0 <= i < |before| && before[i].event == e
          && Effective(c, g, DeliverAll(c, g, db, before[..i]), before[i]);
        assert log[i].event == e && Effective(c, g, DeliverAll(c, g, db, log[..i]), log[i]);
      }
    }
  }

  // ---------- All retries ----------

  lemma CollapseStep(c: PriceCatalog, g: Gateway, db: Db, log: seq<Attempt>)
    requires log != [] && Collapsed(c, g, db, log[..|log| - 1])
    ensures Collapsed(c, g, db, log) <==>
      (IsRetry(c, g, db, log, |log| - 1) ==>
         AlreadyShown(c, g, DeliverAll(c, g, db, log[..|log| - 1]).rows, log[|log| - 1].event))
  {
    hide ApplyEvent, AlreadyShown;
    var before, a := log[..|log| - 1], log[|log| - 1];
    var landed, was := Landed(c, g, db, before), DeliverAll(c, g, db, before);
    if Effective(c, g, was, a) {
      if a.event in landed {
        ApplyIsNeutralIff(c, g, was.rows, a.event);
      } else {
        assert (landed + [a.event])[..|landed|] == landed;
      }
    }
  }

  /**
   Retries collapse, exactly: over every log of failures, crashes and redeliveries, the rows are at every moment
   those of applying each event that took effect once, if and only if every retry of such an event finds the
   customer's newest row still showing it.
   */
  lemma {:induction false} CollapseIff(c: PriceCatalog, g: Gateway, db: Db, log: seq<Attempt>)
    ensures (forall n :: 0 <= n <= |log| ==> Collapsed(c, g, db, log[..n])) <==> RetriesFindTheirEvent(c, g, db, log)
    decreases |log|
  {
    hide AlreadyShown, Collapsed, IsRetry;
    if log == [] {
      NothingCollapsed(c, g, db);
      assert log[..0] == [];
    } else {
      var before := log[..|log| - 1];
      assert forall n :: 0 <= n <= |before| ==> before[..n] == log[..n];
      assert log[..|log|] == log;
      CollapseIff(c, g, db, before);
      forall k | 0 <= k < |before| ensures IsRetry(c, g, db, before, k) == IsRetry(c, g, db, log, k) {
        SameRetry(c, g, db, log, k);
      }
      assert before == before[..|before|];
      if Collapsed(c, g, db, before) {
        CollapseStep(c, g, db, log);
      }
    }
  }

  lemma NothingCollapsed(c: PriceCatalog, g: Gateway, db: Db)
    ensures Collapsed(c, g, db, [])
  {
  }

  lemma SameRetry(c: PriceCatalog, g: Gateway, db: Db, log: seq<Attempt>, k: nat)
    requires k < |log| - 1
    ensures IsRetry(c, g, db, log[..|log| - 1], k) == IsRetry(c, g, db, log, k)
  {
    hide Effective, Landed, DeliverAll;
    assert log[..|log| - 1][..k] == log[..k];
  }

  ghost predicate Once(events: seq<Event>) {
    forall i, j :: 0 <= i < j < |events| ==> events[i] != events[j]
  }

  lemma OnceMore(events: seq<Event>, e: Event)
    requires Once(events) && e !in events
    ensures Once(events + [e])
  {
  }

  lemma {:induction false} LandedOnce(c: PriceCatalog, g: Gateway, db: Db, log: seq<Attempt>)
    ensures Once(Landed(c, g, db, log))
    decreases |log|
  {
    hide Effective, DeliverAll, Once;
    if log == [] {
      NoneOnce();
    } else {
      var before, e := log[..|log| - 1], log[|log| - 1].event;
      LandedOnce(c, g, db, before);
      if e !in Landed(c, g, db, before) {
        OnceMore(Landed(c, g, db, before), e);
      }
    }
  }

  lemma NoneOnce()
    ensures Once([])
  {
  }

  /** After an event took effect at `i`, attempts at it and at other customers' events leave it a fixed point. */
  lemma {:induction false} StillFixed(c: PriceCatalog, g: Gateway, db: Db, log: seq<Attempt>, i: nat, e: Event)
    requires i < |log| && log[i].event == e && Effective(c, g, DeliverAll(c, g, db, log[..i]), log[i])
    requires forall j :: i <= j < |log| ==> SameOrElsewhere(log[j].event, e)
    ensures ApplyEvent(c, g, DeliverAll(c, g, db, log).rows, e) == Some(DeliverAll(c, g, db, log).rows)
    decreases |log|
  {
    hide ApplyEvent;
    var before, a := log[..|log| - 1], log[|log| - 1];
    var was := DeliverAll(c, g, db, before);
    if i == |log| - 1 {
      assert log[..i] == before;
      ApplyIsIdempotent(c, g, was.rows, e);
    } else {
      assert before[..i] == log[..i];
      StillFixed(c, g, db, before, i, e);
      if Effective(c, g, was, a) && a.event != e {
        ElsewhereKeepsFixed(c, g, was.rows, e, a.event);
      }
    }
  }

  /** A contiguous retry of an event that has landed but is not recorded finds it still shown. */
  lemma ContiguousRetry(c: PriceCatalog, g: Gateway, db: Db, log: seq<Attempt>, k: nat)
    requires RetriesAreContiguous(c, g, db, log) && k < |log| && IsRetry(c, g, db, log, k)
    ensures AlreadyShown(c, g, DeliverAll(c, g, db, log[..k]).rows, log[k].event)
  {
    var before, e := log[..k], log[k].event;
    LandedWhen(c, g, db, before, e);
    hide ApplyEvent, AlreadyShown, DeliverAll, Landed;
    var i :| 0 <= i < |before| && before[i].event == e && Effective(c, g, DeliverAll(c, g, db, before[..i]), before[i]);
    assert before[..i] == log[..i];
    assert Uninterrupted(c, g, db, log, i, k);
    assert forall j :: i <= j < |before| ==> before[j].event == log[j].event;
    StillFixed(c, g, db, before, i, e);
    ApplyIsNeutralIff(c, g, DeliverAll(c, g, db, before).rows, e);
  }

  /**
   Retries collapse: when no other event of the same customer comes between an attempt that took effect without
   being recorded and the next one (an attempt that raised without effect may be followed by anything),
   whatever fails, dies between apply and record, or is redelivered, and whatever other customers' events are
   interleaved, the rows end up as if each event that took effect had been applied exactly once.
   */
  lemma RetriesCollapse(c: PriceCatalog, g: Gateway, db: Db, log: seq<Attempt>)
    requires RetriesAreContiguous(c, g, db, log)
    ensures ApplyEach(c, g, db.rows, Landed(c, g, db, log)) == Some(DeliverAll(c, g, db, log).rows)
    ensures Once(Landed(c, g, db, log))
  {
    hide AlreadyShown, IsRetry, RetriesAreContiguous, DeliverAll, Landed, ApplyEach;
    forall k | 0 <= k < |log| && IsRetry(c, g, db, log, k)
      ensures AlreadyShown(c, g, DeliverAll(c, g, db, log[..k]).rows, log[k].event)
    {
      ContiguousRetry(c, g, db, log, k);
    }
    CollapseIff(c, g, db, log);
    LandedOnce(c, g, db, log);
    assert log[..|log|] == log;
    assert Collapsed(c, g, db, log[..|log|]);
  }

  /** An event that took effect, or was recorded, counts; one whose every attempt raised does not. */
  lemma {:induction false} RecordedHasLanded(c: PriceCatalog, g: Gateway, db: Db, log: seq<Attempt>, id: string)
    requires id in DeliverAll(c, g, db, log).processed && id !in db.processed
    ensures exists e :: e in Landed(c, g, db, log) && e.id == id
    decreases |log|
  {
    hide ApplyEvent;
    var before, a := log[..|log| - 1], log[|log| - 1];
    if id in DeliverAll(c, g, db, before).processed {
      RecordedHasLanded(c, g, db, before, id);
      var e :| e in Landed(c, g, db, before) && e.id == id;
      assert e in Landed(c, g, db, log);
    } else {
      assert a.event in Landed(c, g, db, log);
    }
  }

  /** The record holds exactly the ids that were there and those of the attempts recorded since. */
  lemma {:induction false} RecordIs(c: PriceCatalog, g: Gateway, db: Db, log: seq<Attempt>, id: string)
    ensures id in DeliverAll(c, g, db, log).processed <==>
      id in db.processed
      || exists k :: 0 <= k < |log| && log[k].event.id == id && log[k].fate.Recorded?
           && Effective(c, g, DeliverAll(c, g, db, log[..k]), log[k])
    decreases |log|
  {
    hide ApplyEvent, Effective;
    if log != [] {
      var before, a := log[..|log| - 1], log[|log| - 1];
      RecordIs(c, g, db, before, id);
      assert forall k :: 0 <= k < |before| ==> before[..k] == log[..k] && before[k] == log[k];
      assert log[..|before|] == before;
      if id in DeliverAll(c, g, db, log).processed && id !in DeliverAll(c, g, db, before).processed {
        assert log[|before|].event.id == id && Effective(c, g, DeliverAll(c, g, db, log[..|before|]), log[|before|]);
      }
    }
  }

  /** The failing side: a payment failure that died unrecorded and is retried after the payment undoes the payment. */
  lemma InterleavedRetryDiffers(c: PriceCatalog, g: Gateway, id: Uuid, r: Row, failed: Event, paid: Event)
    requires r.status == Active && Truthy(r.customerId) && failed.id != paid.id
    requires failed.eventType == PaymentFailed && paid.eventType == InvoicePaid
    requires failed.customer == paid.customer == r.customerId
    ensures var log := [Attempt(failed, RecordFails), Attempt(paid, Recorded), Attempt(failed, Recorded)];
      && Landed(c, g, Db(map[id := r], {}), log) == [failed, paid]
      && DeliverAll(c, g, Db(map[id := r], {}), log).rows == map[id := r.(status := PastDue)]
      && ApplyEach(c, g, map[id := r], [failed, paid]) == Some(map[id := r])
  {
    hide ApplyEvent;
    var late := r.(status := PastDue);
    OneRow(c, g, id, r, failed);
    OneRow(c, g, id, late, paid);
    assert late.(status := Active) == r;
    ThreeAttempts(c, g, Db(map[id := r], {}),
                  Attempt(failed, RecordFails), Attempt(paid, Recorded), Attempt(failed, Recorded));
    assert [failed, paid][..1] == [failed] && [failed][..0] == [];
    assert ApplyEach(c, g, map[id := r], [failed]) == Some(map[id := late]);
  }

  lemma OneRow(c: PriceCatalog, g: Gateway, id: Uuid, r: Row, e: Event)
    requires Truthy(e.customer) && r.customerId == e.customer && !e.eventType.OtherType?
    ensures ApplyEvent(c, g, map[id := r], e) ==
      match RowAfter(c, g, r, e) case None => None case Some(r') => Some(map[id := r'])
  {
    hide RowAfter;
    var rows := map[id := r];
    var ids := OfCustomer(rows, e.customer.value);
    assert id in ids;
    var found := Latest(rows, ids);
    assert found.Some? && found.value in rows;
    assert found == Some(id);
    forall r': Row ensures map[id := r][id := r'] == map[id := r'] { }
  }

  lemma ThreeAttempts(c: PriceCatalog, g: Gateway, db: Db, x: Attempt, y: Attempt, z: Attempt)
    ensures DeliverAll(c, g, db, [x, y, z]) == Deliver(c, g, Deliver(c, g, Deliver(c, g, db, x), y), z)
    ensures Landed(c, g, db, [x, y, z]) ==
      var one := Deliver(c, g, db, x); var two := Deliver(c, g, one, y);
      var a := if Effective(c, g, db, x) then [x.event] else [];
      var b := if Effective(c, g, one, y) && y.event !in a then a + [y.event] else a;
      if Effective(c, g, two, z) && z.event !in b then b + [z.event] else b
  {
    hide Deliver, Effective;
    assert [x, y, z][..2] == [x, y] && [x, y][..1] == [x] && [x][..0] == [];
    assert DeliverAll(c, g, db, [x]) == Deliver(c, g, db, x);
    assert DeliverAll(c, g, db, [x, y]) == Deliver(c, g, DeliverAll(c, g, db, [x]), y);
    assert Landed(c, g, db, [x]) == if Effective(c, g, db, x) then [x.event] else [];
  }

  // ---------- Two events provision the same plan ----------

  /** `checkout.session.completed` and `customer.subscription.*` lead to the same rows. */
  lemma EitherEventProvisions(c: PriceCatalog, g: Gateway, rows: Rows, checkout: Event, upsert: Event)
    requires checkout.eventType == CheckoutCompleted && upsert.eventType == SubscriptionUpserted
    requires checkout.customer == upsert.customer && Truthy(checkout.subscription)
    requires g(checkout.subscription.value) == Some(upsert.object_)
    ensures ApplyEvent(c, g, rows, checkout) == ApplyEvent(c, g, rows, upsert)
  {
    hide Patched, PatchOf;
  }

  // ---------- The invariant over all entry points ----------

  datatype Request =
    | Seed(id: Uuid, org: Uuid, now: Instant)
    | Checkout(id: Uuid, org: Uuid, plan: Plan, cadence: Cadence, customer: Option<string>, now: Instant)
    | Webhook(attempt: Attempt)

  ghost function Step(c: PriceCatalog, g: Gateway, db: Db, r: Request): Db {
    match r
    case Seed(id, org, now) => db.(rows := Seeded(db.rows, id, org, now))
    case Checkout(id, org, plan, cadence, customer, now) =>
      db.(rows := CheckedOut(db.rows, c, id, org, plan, cadence, customer, now))
    case Webhook(a) => Deliver(c, g, db, a)
  }

  ghost function Run(c: PriceCatalog, g: Gateway, db: Db, rs: seq<Request>): Db
    decreases |rs|
  {
    if rs == [] then db else Run(c, g, Step(c, g, db, rs[0]), rs[1..])
  }

  /** A set price implies a Stripe subscription on exactly the plan that price sells; a paid plan implies a price. */
  predicate RowOk(c: PriceCatalog, r: Row) {
    && (r.priceId.Some? ==> r.kind == Stripe && c.PlanFor(r.priceId.value) == Some(r.plan))
    && (r.plan != Freemium ==> r.priceId.Some?)
  }

  ghost predicate RowsOk(c: PriceCatalog, rows: Rows) {
    forall id :: id in rows ==> RowOk(c, rows[id])
  }

  ghost predicate CustomersUnique(rows: Rows) {
    forall a, b | a in rows && b in rows && Truthy(rows[a].customerId) ::
      rows[a].customerId == rows[b].customerId ==> a == b
  }

  /** The gateway answers `create_customer` with an id no row has. */
  ghost predicate FreshCustomer(rows: Rows, r: Request) {
    r.Checkout? && r.customer.Some? ==>
      Truthy(r.customer) && forall id :: id in rows ==> rows[id].customerId != r.customer
  }

  ghost predicate FreshRun(c: PriceCatalog, g: Gateway, db: Db, rs: seq<Request>)
    decreases |rs|
  {
    rs != [] ==> FreshCustomer(db.rows, rs[0]) && FreshRun(c, g, Step(c, g, db, rs[0]), rs[1..])
  }

  /** A customer id, once set, stays; rows are never removed. */
  ghost predicate CustomersKept(rows: Rows, rows': Rows) {
    forall id :: id in rows ==>
      id in rows' && (Truthy(rows[id].customerId) ==> rows'[id].customerId == rows[id].customerId)
  }

  lemma RowAfterOk(c: PriceCatalog, g: Gateway, r: Row, e: Event)
    requires RowOk(c, r) && RowAfter(c, g, r, e).Some?
    ensures RowOk(c, RowAfter(c, g, r, e).value)
  {
    hide Periods;
  }

  lemma ApplyKeeps(c: PriceCatalog, g: Gateway, rows: Rows, e: Event)
    requires ApplyEvent(c, g, rows, e).Some?
    ensures var rows' := ApplyEvent(c, g, rows, e).value;
      && (RowsOk(c, rows) ==> RowsOk(c, rows'))
      && rows'.Keys == rows.Keys
      && (forall id :: id in rows ==> rows'[id].customerId == rows[id].customerId)
  {
    hide RowAfter, RowOk;
    if !e.eventType.OtherType? && Truthy(e.customer) {
      var found := Latest(rows, OfCustomer(rows, e.customer.value));
      if found.Some? {
        var r := rows[found.value];
        RowAfterTwice(c, g, r, e);
        if RowsOk(c, rows) {
          assert RowOk(c, r);
          RowAfterOk(c, g, r, e);
        }
      }
    }
  }

  lemma StepKeeps(c: PriceCatalog, g: Gateway, db: Db, r: Request)
    ensures RowsOk(c, db.rows) ==> RowsOk(c, Step(c, g, db, r).rows)
    ensures CustomersKept(db.rows, Step(c, g, db, r).rows)
    ensures CustomersUnique(db.rows) && FreshCustomer(db.rows, r) ==> CustomersUnique(Step(c, g, db, r).rows)
  {
    hide ApplyEvent;
    match r
    case Webhook(a) =>
      if Effective(c, g, db, a) {
        ApplyKeeps(c, g, db.rows, a.event);
      }
    case _ =>
  }

  lemma {:induction false} RunKeeps(c: PriceCatalog, g: Gateway, db: Db, rs: seq<Request>)
    ensures RowsOk(c, db.rows) ==> RowsOk(c, Run(c, g, db, rs).rows)
    ensures CustomersKept(db.rows, Run(c, g, db, rs).rows)
    ensures CustomersUnique(db.rows) && FreshRun(c, g, db, rs) ==> CustomersUnique(Run(c, g, db, rs).rows)
    decreases |rs|
  {
    hide Step, RowOk;
    if rs != [] {
      StepKeeps(c, g, db, rs[0]);
      RunKeeps(c, g, Step(c, g, db, rs[0]), rs[1..]);
    }
  }

  /** Over every run of seeding, checkouts and webhooks, with failures and crashes anywhere. */
  lemma BillingInvariant(c: PriceCatalog, g: Gateway, before: seq<Request>, after: seq<Request>)
    ensures var mid := Run(c, g, Db(map[], {}), before);
      RowsOk(c, mid.rows) && CustomersKept(mid.rows, Run(c, g, mid, after).rows)
  {
    RunKeeps(c, g, Db(map[], {}), before);
    RunKeeps(c, g, Run(c, g, Db(map[], {}), before), after);
  }

  /** With fresh customer ids, an event changes at most the one row of its own customer. */
  lemma EventTouchesOneCustomer(c: PriceCatalog, g: Gateway, rs: seq<Request>, a: Attempt, own: Uuid)
    requires FreshRun(c, g, Db(map[], {}), rs)
    requires var rows := Run(c, g, Db(map[], {}), rs).rows;
      own in rows && Truthy(rows[own].customerId) && rows[own].customerId == a.event.customer
    ensures var db := Run(c, g, Db(map[], {}), rs);
      forall id :: id in db.rows && id != own ==>
        id in Deliver(c, g, db, a).rows && Deliver(c, g, db, a).rows[id] == db.rows[id]
  {
    hide RowAfter, RowOk;
    RunKeeps(c, g, Db(map[], {}), rs);
    var db := Run(c, g, Db(map[], {}), rs);
    assert CustomersUnique(db.rows);
    assert OfCustomer(db.rows, a.event.customer.value) == {own};
  }
}
