/**
 Subscriptions and the Stripe webhook: apply an event, and only then record it, so a failed apply is
 retried; the entry points that create rows (seeding and checkout); and the price catalog behind them.
 */
module Billing {
  import opened Prelude

  datatype Plan = Freemium | Pro | Enterprise
  datatype Kind = Stripe | Manual | Deposit
  datatype Status = Active | Cancelled | PastDue | Trialing | Inactive
  datatype Cadence = Monthly | Yearly

  // ---------- Price catalog ----------

  datatype PriceCatalog = PriceCatalog(
    proMonthly: string, proYearly: string, enterpriseMonthly: string, enterpriseYearly: string)
  {
    /** None stands for UnknownStripePriceError. */
    function PriceIdFor(plan: Plan, cadence: Cadence): Option<string> {
      match (plan, cadence)
      case (Pro, Monthly) => Some(proMonthly)
      case (Pro, Yearly) => Some(proYearly)
      case (Enterprise, Monthly) => Some(enterpriseMonthly)
      case (Enterprise, Yearly) => Some(enterpriseYearly)
      case _ => None
    }

    function PlanFor(priceId: string): Option<Plan> {
      if priceId == proMonthly || priceId == proYearly then Some(Pro)
      else if priceId == enterpriseMonthly || priceId == enterpriseYearly then Some(Enterprise)
      else None
    }
  }

  /** Selling a plan and reading its price back give the same plan, unless an enterprise price is also a pro price. */
  lemma CatalogRoundTrip(c: PriceCatalog, plan: Plan, cadence: Cadence)
    requires plan != Freemium
    ensures c.PriceIdFor(plan, cadence).Some?
    ensures c.PlanFor(c.PriceIdFor(plan, cadence).value) == Some(plan) <==>
      plan == Pro || c.PriceIdFor(plan, cadence).value !in {c.proMonthly, c.proYearly}
  {
  }

  // ---------- Rows ----------

  datatype Row = Row(
    organizationId: Uuid, plan: Plan, kind: Kind, status: Status,
    customerId: Option<string>, subscriptionId: Option<string>, priceId: Option<string>,
    periodStart: Option<int>, periodEnd: Option<int>, createdAt: Instant, updatedAt: Instant)

  type Rows = map<Uuid, Row>

  /** The keyword arguments of `Subscription.update`; None keeps the field. */
  datatype Patch = Patch(
    plan: Option<Plan> := None, kind: Option<Kind> := None, status: Option<Status> := None,
    customerId: Option<string> := None, subscriptionId: Option<string> := None, priceId: Option<string> := None,
    periodStart: Option<int> := None, periodEnd: Option<int> := None)

  function Keep<T>(new_: Option<T>, was: T): T { if new_.Some? then new_.value else was }
  function KeepSome<T>(new_: Option<T>, was: Option<T>): Option<T> { if new_.Some? then new_ else was }

  function Patched(r: Row, p: Patch): Row {
    Row(r.organizationId, Keep(p.plan, r.plan), Keep(p.kind, r.kind), Keep(p.status, r.status),
        KeepSome(p.customerId, r.customerId), KeepSome(p.subscriptionId, r.subscriptionId),
        KeepSome(p.priceId, r.priceId), KeepSome(p.periodStart, r.periodStart), KeepSome(p.periodEnd, r.periodEnd),
        r.createdAt, r.updatedAt)
  }

  /** The domain entity: loaded from a row, changed in place, written back. */
  class Subscription {
    var plan: Plan
    var kind: Kind
    var status: Status
    var customerId: Option<string>
    var subscriptionId: Option<string>
    var priceId: Option<string>
    var periodStart: Option<int>
    var periodEnd: Option<int>
    var updatedAt: Instant
    const organizationId: Uuid
    const createdAt: Instant

    constructor (r: Row)
      ensures Snapshot() == r
    {
      organizationId, plan, kind, status := r.organizationId, r.plan, r.kind, r.status;
      customerId, subscriptionId, priceId := r.customerId, r.subscriptionId, r.priceId;
      periodStart, periodEnd, createdAt, updatedAt := r.periodStart, r.periodEnd, r.createdAt, r.updatedAt;
    }

    function Snapshot(): Row
      reads this
    {
      Row(organizationId, plan, kind, status, customerId, subscriptionId, priceId, periodStart, periodEnd,
          createdAt, updatedAt)
    }

    method Update(p: Patch, now: Instant)
      modifies this
      ensures Snapshot() == Patched(old(Snapshot()), p).(updatedAt := now)
    {
      UpdateState(p);
      UpdateStripeIds(p);
      UpdatePeriods(p);
      updatedAt := now;
    }

    method UpdateState(p: Patch)
      modifies this`plan, this`kind, this`status
      ensures plan == Keep(p.plan, old(plan)) && kind == Keep(p.kind, old(kind))
      ensures status == Keep(p.status, old(status))
    {
      if p.plan.Some? { plan := p.plan.value; }
      if p.kind.Some? { kind := p.kind.value; }
      if p.status.Some? { status := p.status.value; }
    }

    method UpdateStripeIds(p: Patch)
      modifies this`customerId, this`subscriptionId, this`priceId
      ensures customerId == KeepSome(p.customerId, old(customerId))
      ensures subscriptionId == KeepSome(p.subscriptionId, old(subscriptionId))
      ensures priceId == KeepSome(p.priceId, old(priceId))
    {
      if p.customerId.Some? { customerId := p.customerId; }
      if p.subscriptionId.Some? { subscriptionId := p.subscriptionId; }
      if p.priceId.Some? { priceId := p.priceId; }
    }

    method UpdatePeriods(p: Patch)
      modifies this`periodStart, this`periodEnd
      ensures periodStart == KeepSome(p.periodStart, old(periodStart))
      ensures periodEnd == KeepSome(p.periodEnd, old(periodEnd))
    {
      if p.periodStart.Some? { periodStart := p.periodStart; }
      if p.periodEnd.Some? { periodEnd := p.periodEnd; }
    }
  }

  // ---------- Lookups: ORDER BY created_at DESC LIMIT 1, ties by id ----------

  predicate Newer(rows: Rows, a: Uuid, b: Uuid)
    requires a in rows && b in rows
  {
    rows[a].createdAt > rows[b].createdAt || (rows[a].createdAt == rows[b].createdAt && a > b)
  }

  predicate IsLatest(rows: Rows, ids: set<Uuid>, m: Uuid)
    requires ids <= rows.Keys
  {
    m in ids && forall x :: x in ids && x != m ==> Newer(rows, m, x)
  }

  lemma {:induction false} LatestExists(rows: Rows, ids: set<Uuid>)
    requires ids <= rows.Keys && ids != {}
    ensures exists m :: IsLatest(rows, ids, m)
  {
    var a :| a in ids;
    if ids == {a} {
      assert IsLatest(rows, ids, a);
    } else {
      LatestExists(rows, ids - {a});
      var b :| IsLatest(rows, ids - {a}, b);
      assert forall x :: x in ids ==> x == a || x == b || Newer(rows, b, x);
      assert a != b && (Newer(rows, a, b) || Newer(rows, b, a));
      assert IsLatest(rows, ids, if Newer(rows, a, b) then a else b);
    }
  }

  ghost function Latest(rows: Rows, ids: set<Uuid>): (o: Option<Uuid>)
    requires ids <= rows.Keys
    ensures o.None? <==> ids == {}
    ensures o.Some? ==> IsLatest(rows, ids, o.value)
  {
    if ids == {} then None
    else
      LatestExists(rows, ids);
      var m :| IsLatest(rows, ids, m);
      Some(m)
  }

  function OfCustomer(rows: Rows, c: string): set<Uuid> {
    set id | id in rows && rows[id].customerId == Some(c)
  }

  function OfOrganization(rows: Rows, org: Uuid): set<Uuid> {
    set id | id in rows && rows[id].organizationId == org
  }

  // ---------- Applying an event ----------

  datatype Item = Item(priceId: Option<string>, periodStart: Option<int>, periodEnd: Option<int>)

  datatype StripeSubscription = StripeSubscription(
    id: Option<string>, status: string, items: seq<Item>, periodStart: Option<int>, periodEnd: Option<int>)

  datatype EventType =
    | CheckoutCompleted | SubscriptionUpserted | SubscriptionDeleted | PaymentFailed | InvoicePaid | OtherType

  /** `subscription` is the id a checkout session carries; `object` the payload of a subscription event. */
  datatype Event = Event(
    id: string, eventType: EventType, customer: Option<string>, subscription: Option<string>,
    object_: StripeSubscription)

  /** The answers of `get_subscription`; None when the call raises. */
  type Gateway = string -> Option<StripeSubscription>

  predicate Truthy(o: Option<string>) { o.Some? && o.value != "" }

  function StatusFromStripe(s: string): Status {
    if s == "active" then Active
    else if s == "trialing" then Trialing
    else if s == "past_due" || s == "unpaid" then PastDue
    else if s == "canceled" then Cancelled
    else Inactive
  }

  /** Python's `a or b` on optional timestamps: 0 is falsy too. */
  function OrElse(a: Option<int>, b: Option<int>): Option<int> {
    if a.Some? && a.value != 0 then a else b
  }

  function Periods(s: StripeSubscription): (Option<int>, Option<int>) {
    if s.items != [] && (s.periodStart.None? || s.periodEnd.None?)
    then (OrElse(s.periodStart, s.items[0].periodStart), OrElse(s.periodEnd, s.items[0].periodEnd))
    else (s.periodStart, s.periodEnd)
  }

  /** None when `_apply_subscription` raises: no price, or a price that is not in the catalog. */
  function PatchOf(c: PriceCatalog, s: StripeSubscription): Option<Patch> {
    if s.items == [] || s.items[0].priceId.None? || c.PlanFor(s.items[0].priceId.value).None? then None
    else
      var (start, end) := Periods(s);
      Some(Patch(plan := c.PlanFor(s.items[0].priceId.value), kind := Some(Stripe),
                 status := Some(StatusFromStripe(s.status)), subscriptionId := s.id,
                 priceId := s.items[0].priceId, periodStart := start, periodEnd := end))
  }

  function StatusPatch(s: Status): Patch { Patch(status := Some(s)) }

  /** What the handlers do to the row of the event's customer; None when they raise. */
  function RowAfter(c: PriceCatalog, g: Gateway, r: Row, e: Event): Option<Row> {
    match e.eventType
    case CheckoutCompleted =>
      if !Truthy(e.subscription) then Some(r)
      else if g(e.subscription.value).None? || PatchOf(c, g(e.subscription.value).value).None? then None
      else Some(Patched(r, PatchOf(c, g(e.subscription.value).value).value))
    case SubscriptionUpserted =>
      if PatchOf(c, e.object_).None? then None else Some(Patched(r, PatchOf(c, e.object_).value))
    case SubscriptionDeleted => Some(Patched(r, StatusPatch(Cancelled)))
    case PaymentFailed => if r.status == PastDue then Some(r) else Some(Patched(r, StatusPatch(PastDue)))
    case InvoicePaid => if r.status != PastDue then Some(r) else Some(Patched(r, StatusPatch(Active)))
    case OtherType => Some(r)
  }

  ghost function ApplyEvent(c: PriceCatalog, g: Gateway, rows: Rows, e: Event): Option<Rows> {
    if e.eventType.OtherType? || !Truthy(e.customer) then Some(rows)
    else match Latest(rows, OfCustomer(rows, e.customer.value))
      case None => Some(rows)
      case Some(id) =>
        match RowAfter(c, g, rows[id], e)
        case None => None
        case Some(r) => Some(rows[id := r])
  }

  datatype Db = Db(rows: Rows, processed: set<string>)

  /** How far one delivery gets: applying raises; recording raises, or is never reached; or it is recorded. */
  datatype Fate = CallRaises | RecordFails | Recorded

  datatype Attempt = Attempt(event: Event, fate: Fate)

  ghost predicate Effective(c: PriceCatalog, g: Gateway, db: Db, a: Attempt) {
    a.event.id !in db.processed && !a.fate.CallRaises? && ApplyEvent(c, g, db.rows, a.event).Some?
  }

  ghost function Deliver(c: PriceCatalog, g: Gateway, db: Db, a: Attempt): Db {
    if !Effective(c, g, db, a) then db
    else Db(ApplyEvent(c, g, db.rows, a.event).value,
            if a.fate.Recorded? then db.processed + {a.event.id} else db.processed)
  }

  // ---------- The use cases ----------

  /** Subscription rows and recorded events, with the three use cases that write them. */
  class BillingService {
    var rows: Rows
    var processed: set<string>
    const catalog: PriceCatalog
    const gateway: Gateway

    constructor (catalog: PriceCatalog, gateway: Gateway)
      ensures View() == Db(map[], {}) && this.catalog == catalog && this.gateway == gateway
    {
      rows, processed := map[], {};
      this.catalog, this.gateway := catalog, gateway;
    }

    function View(): Db
      reads this
    {
      Db(rows, processed)
    }

    method FindByCustomer(customer: string) returns (found: Option<Uuid>)
      ensures found == Latest(rows, OfCustomer(rows, customer))
      ensures found.None? <==> forall x :: x in rows ==> rows[x].customerId != Some(customer)
      ensures found.Some? ==> found.value in rows && rows[found.value].customerId == Some(customer)
      ensures forall x :: x in rows && rows[x].customerId == Some(customer) ==>
        found.Some? && rows[x].createdAt <= rows[found.value].createdAt
    {
      var ids := OfCustomer(rows, customer);
      found := FindLatest(ids);
      forall x | x in rows && rows[x].customerId == Some(customer)
        ensures found.Some? && rows[x].createdAt <= rows[found.value].createdAt
      {
        assert x in ids;
        assert x != found.value ==> Newer(rows, found.value, x);
      }
    }

    method FindLatest(ids: set<Uuid>) returns (found: Option<Uuid>)
      requires ids <= rows.Keys
      ensures found == Latest(rows, ids)
    {
      if ids == {} {
        return None;
      }
      LatestExists(rows, ids);
      var m :| IsLatest(rows, ids, m);
      return Some(m);
    }

    /** `SubscriptionRepository.update`: every column but the two timestamps. */
    method Write(id: Uuid, sub: Subscription)
      requires id in rows && sub.createdAt == rows[id].createdAt
      modifies this`rows
      ensures rows == old(rows)[id := sub.Snapshot().(updatedAt := old(rows)[id].updatedAt)]
    {
      rows := rows[id := sub.Snapshot().(updatedAt := rows[id].updatedAt)];
    }

    method ApplySubscription(id: Uuid, s: StripeSubscription, dbRaises: bool, now: Instant) returns (raised: bool)
      requires id in rows
      modifies this`rows
      ensures raised <==> PatchOf(catalog, s).None? || dbRaises
      ensures rows == if raised then old(rows) else old(rows)[id := Patched(old(rows)[id], PatchOf(catalog, s).value)]
    {
      if s.items == [] || s.items[0].priceId.None? {
        return true;
      }
      var plan := catalog.PlanFor(s.items[0].priceId.value);
      if plan.None? {
        return true;
      }
      var periodStart, periodEnd := s.periodStart, s.periodEnd;
      if periodStart.None? || periodEnd.None? {
        periodStart := OrElse(periodStart, s.items[0].periodStart);
        periodEnd := OrElse(periodEnd, s.items[0].periodEnd);
      }
      var sub := new Subscription(rows[id]);
      sub.Update(Patch(plan := plan, kind := Some(Stripe), status := Some(StatusFromStripe(s.status)),
                       subscriptionId := s.id, priceId := s.items[0].priceId,
                       periodStart := periodStart, periodEnd := periodEnd), now);
      if dbRaises {
        return true;
      }
      Write(id, sub);
      return false;
    }

    method SetStatus(id: Uuid, status: Status, dbRaises: bool, now: Instant) returns (raised: bool)
      requires id in rows
      modifies this`rows
      ensures raised == dbRaises
      ensures rows == if raised then old(rows) else old(rows)[id := Patched(old(rows)[id], StatusPatch(status))]
    {
      var sub := new Subscription(rows[id]);
      sub.Update(StatusPatch(status), now);
      if dbRaises {
        return true;
      }
      Write(id, sub);
      return false;
    }

    /** The five `_on_*` handlers. */
    method Handle(e: Event, dbRaises: bool, now: Instant) returns (raised: bool)
      modifies this`rows
      ensures ApplyEvent(catalog, gateway, old(rows), e).None? ==> raised
      ensures raised ==> rows == old(rows) && (dbRaises || ApplyEvent(catalog, gateway, old(rows), e).None?)
      ensures !raised ==> ApplyEvent(catalog, gateway, old(rows), e) == Some(rows)
    {
      if e.eventType.OtherType? || !Truthy(e.customer) {
        return false;
      }
      var found := FindByCustomer(e.customer.value);
      if found.None? {
        return false;
      }
      var id := found.value;
      assert rows[id := rows[id]] == rows;
      match e.eventType
      case CheckoutCompleted =>
        if !Truthy(e.subscription) {
          raised := false;
        } else {
          var answer := gateway(e.subscription.value);
          if answer.None? {
            return true;
          }
          raised := ApplySubscription(id, answer.value, dbRaises, now);
        }
      case SubscriptionUpserted =>
        raised := ApplySubscription(id, e.object_, dbRaises, now);
      case SubscriptionDeleted =>
        raised := SetStatus(id, Cancelled, dbRaises, now);
      case PaymentFailed =>
        raised := false;
        if rows[id].status != PastDue {
          raised := SetStatus(id, PastDue, dbRaises, now);
        }
      case InvoicePaid =>
        raised := false;
        if rows[id].status == PastDue {
          raised := SetStatus(id, Active, dbRaises, now);
        }
    }

    /**
     `HandleStripeWebhookEvent.execute`. A recorded event is a no-op. A raise while applying changes neither the
     rows nor the record; a raise while recording (`recordFails`, or the process dying there) leaves the event
     applied and unrecorded.
     */
    method Execute(e: Event, dbRaises: bool, recordFails: bool, now: Instant) returns (raised: bool)
      modifies this
      ensures e.id in old(processed) ==> !raised && View() == old(View())
      ensures !raised ==> processed == old(processed) + {e.id}
      ensures !raised ==> View() == Deliver(catalog, gateway, old(View()), Attempt(e, Recorded))
      ensures raised ==> e.id !in old(processed) && processed == old(processed)
      ensures raised ==>
        || (View() == old(View()) && (dbRaises || ApplyEvent(catalog, gateway, old(rows), e).None?))
        || (recordFails && View() == Deliver(catalog, gateway, old(View()), Attempt(e, RecordFails)))
      ensures e.id !in old(processed) && (recordFails || ApplyEvent(catalog, gateway, old(rows), e).None?) ==> raised
    {
      if e.id in processed {
        return false;
      }
      raised := Handle(e, dbRaises, now);
      if raised {
        return true;
      }
      if recordFails {
        return true;                 // `try_mark_processed` raises, after the rows were written
      }
      processed := processed + {e.id};
    }

    method SeedFreemium(id: Uuid, org: Uuid, now: Instant)
      modifies this`rows
      ensures rows == Seeded(old(rows), id, org, now)
    {
      if id in rows {
        return;                      // the primary key rejects the INSERT
      }
      rows := rows[id := Row(org, Freemium, Manual, Active, None, None, None, Some(now), None, now, now)];
    }

    /**
     `StartCheckoutSession.execute`. `customer` is what `create_customer` answers, None when it raises;
     `refused` tells whether `create_checkout_session` raises, after the row was written and is there to stay.
     */
    method StartCheckout(id: Uuid, org: Uuid, plan: Plan, cadence: Cadence, customer: Option<string>, refused: bool,
                         now: Instant)
      returns (ok: bool)
      modifies this`rows
      ensures rows == CheckedOut(old(rows), catalog, id, org, plan, cadence, customer, now)
      ensures ok ==> plan != Freemium && !refused && (customer.Some? || HasCustomer(old(rows), org))
      ensures plan != Freemium && !refused ==>
        (HasCustomer(old(rows), org) || (customer.Some? && id !in old(rows)) ==> ok)
    {
      if catalog.PriceIdFor(plan, cadence).None? {
        return false;
      }
      var found := FindLatest(OfOrganization(rows, org));
      if found.Some? && Truthy(rows[found.value].customerId) {
        return !refused;
      }
      if customer.None? {
        return false;
      }
      if found.None? {
        if id in rows {
          return false;
        }
        rows := rows[id := Row(org, Freemium, Stripe, Inactive, customer, None, None, None, None, now, now)];
      } else {
        var sub := new Subscription(rows[found.value]);
        sub.Update(Patch(customerId := customer), now);
        Write(found.value, sub);
      }
      return !refused;
    }
  }

  function Seeded(rows: Rows, id: Uuid, org: Uuid, now: Instant): Rows {
    if id in rows then rows
    else rows[id := Row(org, Freemium, Manual, Active, None, None, None, Some(now), None, now, now)]
  }

  ghost predicate HasCustomer(rows: Rows, org: Uuid) {
    var found := Latest(rows, OfOrganization(rows, org));
    found.Some? && Truthy(rows[found.value].customerId)
  }

  ghost function CheckedOut(rows: Rows, c: PriceCatalog, id: Uuid, org: Uuid, plan: Plan, cadence: Cadence,
                            customer: Option<string>, now: Instant): Rows {
    if plan == Freemium || HasCustomer(rows, org) || customer.None? then rows
    else match Latest(rows, OfOrganization(rows, org))
      case None =>
        if id in rows then rows
        else rows[id := Row(org, Freemium, Stripe, Inactive, customer, None, None, None, None, now, now)]
      case Some(found) => rows[found := rows[found].(customerId := customer)]
  }

  lemma OnlyRowIsLatest(rows: Rows, ids: set<Uuid>, id: Uuid)
    requires ids <= rows.Keys && ids == {id}
    ensures Latest(rows, ids) == Some(id)
  {
    assert id in ids;
  }

  /** A lookup does not notice rows of others. */
  lemma LatestAmongTheSame(rows: Rows, rows': Rows, ids: set<Uuid>)
    requires ids <= rows.Keys && ids <= rows'.Keys
    requires forall id :: id in ids ==> rows'[id].createdAt == rows[id].createdAt
    ensures Latest(rows', ids) == Latest(rows, ids)
  {
    var a, b := Latest(rows, ids), Latest(rows', ids);
    if a.Some? {
      assert IsLatest(rows, ids, a.value) && IsLatest(rows', ids, b.value);
    }
  }

  /**
   Registration: an organization without a subscription is found afterwards with an active freemium one, no
   customer and no price, and no other organization's or customer's lookup notices.
   */
  lemma SeedingIsFound(rows: Rows, id: Uuid, org: Uuid, now: Instant, other: Uuid, customer: string)
    requires id !in rows && OfOrganization(rows, org) == {} && other != org
    ensures var rows' := Seeded(rows, id, org, now);
      && Latest(rows', OfOrganization(rows', org)) == Some(id)
      && rows'[id].plan == Freemium && rows'[id].status == Active && rows'[id].kind == Manual
      && rows'[id].priceId.None? && rows'[id].customerId.None? && rows'[id].subscriptionId.None?
      && rows'[id].periodStart == Some(now) && rows'[id].periodEnd.None?
      && !HasCustomer(rows', org)
      && Latest(rows', OfOrganization(rows', other)) == Latest(rows, OfOrganization(rows, other))
      && Latest(rows', OfCustomer(rows', customer)) == Latest(rows, OfCustomer(rows, customer))
  {
    var rows' := Seeded(rows, id, org, now);
    assert id in OfOrganization(rows', org);
    assert OfOrganization(rows', org) == {id};
    OnlyRowIsLatest(rows', OfOrganization(rows', org), id);
    assert OfOrganization(rows', other) == OfOrganization(rows, other);
    LatestAmongTheSame(rows, rows', OfOrganization(rows, other));
    assert OfCustomer(rows', customer) == OfCustomer(rows, customer);
    LatestAmongTheSame(rows, rows', OfCustomer(rows, customer));
  }

  /**
   Checkout: afterwards the organization has a customer exactly when it had one or the gateway's answer could be
   stored, whether or not the session was refused; and the plan is still the one it was on.
   */
  lemma CheckoutStoresTheCustomer(rows: Rows, c: PriceCatalog, id: Uuid, org: Uuid, plan: Plan, cadence: Cadence,
                                  customer: Option<string>, now: Instant)
    requires plan != Freemium && (OfOrganization(rows, org) == {} ==> id !in rows)
    ensures var rows' := CheckedOut(rows, c, id, org, plan, cadence, customer, now);
      && (HasCustomer(rows', org) <==> HasCustomer(rows, org) || Truthy(customer))
      && (forall x :: x in rows ==> x in rows' && rows'[x].plan == rows[x].plan && rows'[x].priceId == rows[x].priceId)
      && (forall x :: x in rows && rows'[x] != rows[x] ==>
            rows'[x] == rows[x].(customerId := customer) && rows[x].organizationId == org
            && !Truthy(rows[x].customerId))
      && (forall x | x in rows' && x !in rows ::
            && x == id && rows'[x].organizationId == org && rows'[x].customerId == customer
            && rows'[x].plan == Freemium && rows'[x].kind == Stripe && rows'[x].status == Inactive
            && rows'[x].subscriptionId.None? && rows'[x].priceId.None?
            && rows'[x].periodStart.None? && rows'[x].periodEnd.None?)
  {
    var rows' := CheckedOut(rows, c, id, org, plan, cadence, customer, now);
    if !HasCustomer(rows, org) && customer.Some? {
      if OfOrganization(rows, org) == {} {
        assert id in OfOrganization(rows', org);
        assert OfOrganization(rows', org) == {id};
        OnlyRowIsLatest(rows', OfOrganization(rows', org), id);
      } else {
        assert OfOrganization(rows', org) == OfOrganization(rows, org);
        LatestAmongTheSame(rows, rows', OfOrganization(rows, org));
      }
    }
  }
}
