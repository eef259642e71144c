/**
 What an event leaves in its customer's newest row, and what it leaves alone, told by the event's own fields:
 the table of Stripe statuses, the price that decides the plan, and where each period bound comes from.
 */
module BillingMeaning {
  import opened Prelude
  import opened Billing

  /** The status a Stripe status stands for. */
  predicate StatusMeans(stripe: string, s: Status) {
    && (s == Active <==> stripe == "active")
    && (s == Trialing <==> stripe == "trialing")
    && (s == PastDue <==> stripe in {"past_due", "unpaid"})
    && (s == Cancelled <==> stripe == "canceled")
  }

  predicate IsSold(c: PriceCatalog, price: string, plan: Plan) {
    match plan
    case Pro => price in {c.proMonthly, c.proYearly}
    case Enterprise => price in {c.enterpriseMonthly, c.enterpriseYearly} && price !in {c.proMonthly, c.proYearly}
    case Freemium => false
  }

  /** The price the payload's first item carries, when there is one and it is sold. */
  predicate HasSoldPrice(c: PriceCatalog, s: StripeSubscription) {
    && s.items != [] && s.items[0].priceId.Some?
    && s.items[0].priceId.value in {c.proMonthly, c.proYearly, c.enterpriseMonthly, c.enterpriseYearly}
  }

  /**
   A period bound: the top-level one when it is usable -- set, and not 0 unless the other bound is set too --
   else the first item's, else what the row had.
   */
  predicate BoundFrom(top: Option<int>, otherTop: Option<int>, item: Option<int>, was: Option<int>, now: Option<int>) {
    if top.Some? && (top.value != 0 || otherTop.Some?) then now == top
    else if item.Some? then now == item
    else now == was
  }

  /** The row after a Stripe subscription was applied to it. */
  predicate Provisioned(c: PriceCatalog, s: StripeSubscription, was: Row, now: Row) {
    && HasSoldPrice(c, s)
    && now.priceId == s.items[0].priceId && IsSold(c, s.items[0].priceId.value, now.plan)
    && now.kind == Stripe && StatusMeans(s.status, now.status)
    && now.subscriptionId == (if s.id.Some? then s.id else was.subscriptionId)
    && BoundFrom(s.periodStart, s.periodEnd, s.items[0].periodStart, was.periodStart, now.periodStart)
    && BoundFrom(s.periodEnd, s.periodStart, s.items[0].periodEnd, was.periodEnd, now.periodEnd)
    && SameOwner(was, now)
  }

  predicate SameOwner(was: Row, now: Row) {
    && now.organizationId == was.organizationId && now.customerId == was.customerId
    && now.createdAt == was.createdAt && now.updatedAt == was.updatedAt
  }

  /** The row after only its status was set. */
  predicate OnlyStatus(was: Row, now: Row, status: Status) {
    && now.status == status && SameOwner(was, now)
    && now.plan == was.plan && now.kind == was.kind
    && now.subscriptionId == was.subscriptionId && now.priceId == was.priceId
    && now.periodStart == was.periodStart && now.periodEnd == was.periodEnd
  }

  /** What each event does to the row of its customer. */
  predicate Means(c: PriceCatalog, g: Gateway, e: Event, was: Row, now: Row) {
    match e.eventType
    case CheckoutCompleted =>
      if Truthy(e.subscription) then
        g(e.subscription.value).Some? && Provisioned(c, g(e.subscription.value).value, was, now)
      else now == was
    case SubscriptionUpserted => Provisioned(c, e.object_, was, now)
    case SubscriptionDeleted => OnlyStatus(was, now, Cancelled)
    case PaymentFailed => OnlyStatus(was, now, PastDue)
    case InvoicePaid => OnlyStatus(was, now, if was.status == PastDue then Active else was.status)
    case OtherType => now == was
  }

  /** Handling it raises: nothing to apply, a gateway that does not answer, or a price that is not sold. */
  predicate Raises(c: PriceCatalog, g: Gateway, e: Event) {
    match e.eventType
    case CheckoutCompleted =>
      Truthy(e.subscription)
      && (g(e.subscription.value).None? || !HasSoldPrice(c, g(e.subscription.value).value))
    case SubscriptionUpserted => !HasSoldPrice(c, e.object_)
    case _ => false
  }

  /** Selling: the four prices, by plan and cadence; and back, a pro price first. */
  lemma CatalogTable(c: PriceCatalog, price: string, plan: Plan)
    ensures c.PriceIdFor(Pro, Monthly) == Some(c.proMonthly) && c.PriceIdFor(Pro, Yearly) == Some(c.proYearly)
    ensures c.PriceIdFor(Enterprise, Monthly) == Some(c.enterpriseMonthly)
    ensures c.PriceIdFor(Enterprise, Yearly) == Some(c.enterpriseYearly)
    ensures c.PriceIdFor(Freemium, Monthly).None? && c.PriceIdFor(Freemium, Yearly).None?
    ensures c.PlanFor(price) == Some(plan) <==> IsSold(c, price, plan)
  {
  }

  lemma StatusTable(stripe: string)
    ensures StatusMeans(stripe, StatusFromStripe(stripe))
  {
  }

  lemma PatchProvisions(c: PriceCatalog, s: StripeSubscription, r: Row)
    ensures PatchOf(c, s).Some? <==> HasSoldPrice(c, s)
    ensures PatchOf(c, s).Some? ==> Provisioned(c, s, r, Patched(r, PatchOf(c, s).value))
  {
    StatusTable(s.status);
    hide StatusFromStripe, StatusMeans;
  }

  lemma RowMeans(c: PriceCatalog, g: Gateway, r: Row, e: Event)
    ensures RowAfter(c, g, r, e).None? <==> Raises(c, g, e)
    ensures RowAfter(c, g, r, e).Some? ==> Means(c, g, e, r, RowAfter(c, g, r, e).value)
  {
    if e.eventType.CheckoutCompleted? && Truthy(e.subscription) && g(e.subscription.value).Some? {
      PatchProvisions(c, g(e.subscription.value).value, r);
    }
    PatchProvisions(c, e.object_, r);
    hide PatchOf, Provisioned, HasSoldPrice;
  }

  /** The newest of the customer's rows, when the event is about one. */
  predicate IsAbout(rows: Rows, e: Event, id: Uuid) {
    && !e.eventType.OtherType? && Truthy(e.customer)
    && id in rows && rows[id].customerId == e.customer
    && forall x :: x in rows && rows[x].customerId == e.customer ==>
         rows[x].createdAt < rows[id].createdAt || (rows[x].createdAt == rows[id].createdAt && x <= id)
  }

  /**
   Applying an event. It raises exactly when it is about a row and has nothing valid to apply; otherwise that
   row, the newest of its customer, becomes what the event means, and every other row stays as it was.
   */
  lemma EventMeaning(c: PriceCatalog, g: Gateway, rows: Rows, e: Event)
    ensures ApplyEvent(c, g, rows, e).None? <==> Raises(c, g, e) && exists id: Uuid :: IsAbout(rows, e, id)
    ensures ApplyEvent(c, g, rows, e).Some? ==>
      var rows' := ApplyEvent(c, g, rows, e).value;
      && rows'.Keys == rows.Keys
      && forall id :: id in rows ==>
           if IsAbout(rows, e, id) then Means(c, g, e, rows[id], rows'[id]) else rows'[id] == rows[id]
  {
    hide RowAfter, Means, Raises;
    if !e.eventType.OtherType? && Truthy(e.customer) {
      var ids := OfCustomer(rows, e.customer.value);
      var found := Latest(rows, ids);
      NewestIsAbout(rows, e);
      if found.Some? {
        RowMeans(c, g, rows[found.value], e);
      }
    }
  }

  lemma NewestIsAbout(rows: Rows, e: Event)
    requires !e.eventType.OtherType? && Truthy(e.customer)
    ensures forall id: Uuid :: IsAbout(rows, e, id) <==> Latest(rows, OfCustomer(rows, e.customer.value)) == Some(id)
  {
    var found := Latest(rows, OfCustomer(rows, e.customer.value));
    if found.Some? {
      LatestIsAbout(rows, e, found.value);
    }
    forall id: Uuid | IsAbout(rows, e, id) ensures found == Some(id) {
      assert id in OfCustomer(rows, e.customer.value);
    }
  }

  lemma LatestIsAbout(rows: Rows, e: Event, id: Uuid)
    requires !e.eventType.OtherType? && Truthy(e.customer)
    requires IsLatest(rows, OfCustomer(rows, e.customer.value), id)
    ensures IsAbout(rows, e, id)
  {
    forall x | x in rows && rows[x].customerId == e.customer && x != id
      ensures rows[x].createdAt < rows[id].createdAt || (rows[x].createdAt == rows[id].createdAt && x <= id)
    {
      assert x in OfCustomer(rows, e.customer.value) && Newer(rows, id, x);
    }
  }

  /** A delivery recorded once is a no-op ever after; recording adds this event's id and no other. */
  lemma DeliveryRecords(c: PriceCatalog, g: Gateway, db: Db, a: Attempt)
    ensures a.event.id in db.processed ==> Deliver(c, g, db, a) == db
    ensures var raises := Raises(c, g, a.event) && exists id: Uuid :: IsAbout(db.rows, a.event, id);
      && (a.event.id !in db.processed && a.fate.Recorded? && !raises ==>
            Deliver(c, g, db, a).processed == db.processed + {a.event.id})
      && (raises || !a.fate.Recorded? ==> Deliver(c, g, db, a).processed == db.processed)
      && (raises || a.fate.CallRaises? ==> Deliver(c, g, db, a) == db)
  {
    EventMeaning(c, g, db.rows, a.event);
    hide ApplyEvent, Raises, IsAbout;
  }
}
