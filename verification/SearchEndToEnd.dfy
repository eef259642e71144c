/**
 From messages to query results: which listings the list query and the search pre-filter return, told by the
 event that wins and by the place last written, without the table in between.
 */
module SearchEndToEnd {
  import opened Prelude
  import opened Sql
  import opened ListingProjection
  import opened ProjectionConvergence
  import opened WriterNonInterference
  import opened ListingQueries
  import opened AdapterRefinement

  // ---------- Criteria on the event ----------

  /** Unknown, or at least as much. */
  predicate AtLeast(value: Option<int>, wanted: Option<int>) {
    value.Some? && wanted.Some? ==> value.value >= wanted.value
  }

  /** The row keeps whole square metres, cut toward zero. */
  predicate AreaAtLeast(area: Option<real>, wanted: Option<int>) {
    area.Some? && wanted.Some? ==>
      if wanted.value > 0 then area.value >= wanted.value as real else area.value > wanted.value as real - 1.0
  }

  predicate AreaAtMost(area: Option<real>, wanted: Option<int>) {
    area.Some? && wanted.Some? ==>
      if wanted.value < 0 then area.value <= wanted.value as real else area.value < wanted.value as real + 1.0
  }

  predicate NotDenied(value: Option<bool>, wanted: Option<bool>) {
    wanted == Some(true) ==> value != Some(false)
  }

  predicate Offers(k: Characteristics, q: ParsedQuery) {
    && AtLeast(k.numOfBedrooms, q.minBedrooms) && AtLeast(k.numOfBathrooms, q.minBathrooms)
    && AreaAtLeast(k.areaInM2, q.minAreaM2) && AreaAtMost(k.areaInM2, q.maxAreaM2)
    && NotDenied(k.hasPool, q.hasPool) && NotDenied(k.hasGarden, q.hasGarden)
    && NotDenied(k.hasElevator, q.hasElevator)
    && (q.hasParking == Some(true) ==> AtLeast(k.parkingSpaces, Some(1)))
  }

  /** No amount could be read. */
  ghost predicate Unpriced(prices: seq<PriceData>) {
    forall i :: 0 <= i < |prices| ==> !prices[i].amount.Parsed?
  }

  ghost predicate NothingBelow(prices: seq<PriceData>, bound: real) {
    forall i :: 0 <= i < |prices| && prices[i].amount.Parsed? ==> prices[i].amount.value >= bound
  }

  ghost predicate SomethingUpTo(prices: seq<PriceData>, bound: real) {
    exists i :: 0 <= i < |prices| && prices[i].amount.Parsed? && prices[i].amount.value <= bound
  }

  ghost predicate SearchPrice(prices: seq<PriceData>, lo: Option<real>, hi: Option<real>) {
    && (lo.Some? ==> NothingBelow(prices, lo.value))
    && (hi.Some? ==> Unpriced(prices) || SomethingUpTo(prices, hi.value))
  }

  ghost predicate ListPrice(prices: seq<PriceData>, lo: Option<real>, hi: Option<real>) {
    && (lo.Some? ==> !Unpriced(prices) && NothingBelow(prices, lo.value))
    && (hi.Some? ==> SomethingUpTo(prices, hi.value))
  }

  ghost predicate SearchedEvent(e: EventData, f: PropertyFilters, q: ParsedQuery) {
    && e.status == Active && (f.listingType.Some? ==> e.listingType == f.listingType.value)
    && (f.typology.Some? ==> e.typology == f.typology.value)
    && (f.typology.None? && q.typology.Some? ==> e.typology == q.typology.value)
    && SearchPrice(e.prices, if f.minPrice.Some? then f.minPrice else q.minPrice,
                   if f.maxPrice.Some? then f.maxPrice else q.maxPrice)
    && Offers(e.characteristics, q)
  }

  ghost predicate ListedEvent(e: EventData, f: PropertyFilters) {
    && e.status == Active && (f.listingType.Some? ==> e.listingType == f.listingType.value)
    && (f.typology.Some? ==> e.typology == f.typology.value)
    && ListPrice(e.prices, f.minPrice, f.maxPrice)
  }

  // ---------- A row and the event it shows ----------

  lemma TruncatedAtLeast(x: real, n: int)
    ensures Truncate(x) >= n <==> if n > 0 then x >= n as real else x > n as real - 1.0
    ensures Truncate(x) <= n <==> if n < 0 then x <= n as real else x < n as real + 1.0
  {
  }

  /** The criteria of the pre-filter on a row are criteria on the characteristics of the event it shows. */
  lemma AmenitiesOfEvent(r: Row, e: EventData, at: Instant, q: ParsedQuery)
    requires Shows(r, e, at)
    ensures AmenitiesFit(r, q) <==> Offers(e.characteristics, q)
  {
    hide Shows, Truncate;
    ShownRooms(r, e, at);
    ShownFeatures(r, e, at);
    var area := e.characteristics.areaInM2;
    if area.Some? && q.minAreaM2.Some? { TruncatedAtLeast(area.value, q.minAreaM2.value); }
    if area.Some? && q.maxAreaM2.Some? { TruncatedAtLeast(area.value, q.maxAreaM2.value); }
  }

  lemma CheapestBounds(prices: seq<PriceData>, bound: real)
    ensures Cheapest(prices).None? <==> Unpriced(prices)
    ensures Cheapest(prices).Some? ==> (Cheapest(prices).value >= bound <==> NothingBelow(prices, bound))
    ensures Cheapest(prices).Some? ==> (Cheapest(prices).value <= bound <==> SomethingUpTo(prices, bound))
    ensures Unpriced(prices) ==> NothingBelow(prices, bound) && !SomethingUpTo(prices, bound)
  {
    assert IsCheapest(prices, Cheapest(prices));
    hide Cheapest;
  }

  lemma PriceOfEvent(r: Row, e: EventData, at: Instant, lo: Option<real>, hi: Option<real>)
    requires Shows(r, e, at)
    ensures UnknownOrNum(r[MinPrice], lo, hi) <==> SearchPrice(e.prices, lo, hi)
    ensures ListPrice(e.prices, lo, hi) <==>
      && (lo.Some? ==> r[MinPrice].Num? && r[MinPrice].d >= lo.value)
      && (hi.Some? ==> r[MinPrice].Num? && r[MinPrice].d <= hi.value)
  {
    hide Shows, Cheapest, Unpriced, NothingBelow, SomethingUpTo;
    ShownContent(r, e, at);
    CheapestBounds(e.prices, if lo.Some? then lo.value else 0.0);
    CheapestBounds(e.prices, if hi.Some? then hi.value else 0.0);
  }

  ghost predicate InPlace(r: Row, l: LocationFilter) {
    LevelMatches(r[Parish], l.parish) && LevelMatches(r[Municipality], l.municipality)
    && LevelMatches(r[District], l.district)
  }

  /** The search pre-filter on a row that shows an event: its place from the row, everything else from the event. */
  lemma EventSearched(r: Row, e: EventData, at: Instant, l: LocationFilter, f: PropertyFilters, q: ParsedQuery)
    requires Shows(r, e, at)
    ensures Selects(SearchQuery(l, f, q), r) <==> InPlace(r, l) && SearchedEvent(e, f, q)
  {
    hide Shows, Selects, SearchQuery, AmenitiesFit, Offers, UnknownOrNum, SearchPrice, LevelMatches;
    SearchExact(l, f, q, r);
    ShownBasics(r, e, at);
    PriceOfEvent(r, e, at, if f.minPrice.Some? then f.minPrice else q.minPrice,
                 if f.maxPrice.Some? then f.maxPrice else q.maxPrice);
    AmenitiesOfEvent(r, e, at, q);
  }

  ghost predicate ExactlyInPlace(r: Row, f: PropertyFilters) {
    && (f.parish.Some? ==> r[Parish] == Text(f.parish.value))
    && (f.municipality.Some? ==> r[Municipality] == Text(f.municipality.value))
    && (f.district.Some? ==> r[District] == Text(f.district.value))
  }

  lemma EventListed(r: Row, e: EventData, at: Instant, f: PropertyFilters)
    requires Shows(r, e, at)
    ensures Selects(ActiveQuery(f), r) <==> ExactlyInPlace(r, f) && ListedEvent(e, f)
  {
    hide Shows, Selects, ActiveQuery, ListPrice;
    ActiveQueryExact(f, r);
    ShownBasics(r, e, at);
    PriceOfEvent(r, e, at, f.minPrice, f.maxPrice);
  }

  // ---------- The place ----------

  /** The levels the last address parse wrote since the row was inserted. */
  ghost function LevelsAfter(ops: seq<Op>, id: Uuid): LocationFilter {
    if ops == [] then LocationFilter(None, None, None)
    else
      var before, op := ops[..|ops| - 1], ops[|ops| - 1];
      if id !in Run(map[], before) then LocationFilter(None, None, None)
      else if op.UpdateLocation? && op.id == id
      then LocationFilter(op.parsed.parish, op.parsed.municipality, op.parsed.district)
      else LevelsAfter(before, id)
  }

  predicate HasLevels(r: Row, l: LocationFilter) {
    r[Parish] == OfText(l.parish) && r[Municipality] == OfText(l.municipality) && r[District] == OfText(l.district)
  }

  lemma LevelsStep(r: Option<Row>, op: Op, after: Row, was: LocationFilter)
    requires StepRow(r, op) == Some(after) && (r.Some? ==> HasLevels(r.value, was))
    ensures HasLevels(after,
      if r.None? then LocationFilter(None, None, None)
      else if op.UpdateLocation? then LocationFilter(op.parsed.parish, op.parsed.municipality, op.parsed.district)
      else was)
  {
    Guards(r, op);
    if TakesEffect(r, op) {
      hide StepRow, OfText, Owner;
      LevelColumns();
      PlaceAfterUpsert(r, op, after, Parish);
      PlaceAfterUpsert(r, op, after, Municipality);
      PlaceAfterUpsert(r, op, after, District);
      assert OfText(None) == Null by { NoText(); }
    } else if op.UpdateLocation? {
      LevelsWritten(r.value, op.parsed, op.now);
    } else if !op.Upsert? && !op.Delete? {
      LevelsKept(r.value, op, after, was);
    }
  }

  lemma NoText()
    ensures OfText(None) == Null
  {
  }

  lemma LevelsWritten(r: Row, p: ParsedAddress, now: Instant)
    ensures HasLevels(Relocated(r, p, now), LocationFilter(p.parish, p.municipality, p.district))
  {
    hide OfText;
  }

  lemma LevelsKept(r: Row, op: Op, after: Row, l: LocationFilter)
    requires HasLevels(r, l) && StepRow(Some(r), op) == Some(after)
    requires op.IncrementAttempts? || op.SetEmbeddingIndexed? || op.SetEmbeddingStatus?
    ensures HasLevels(after, l)
  {
    hide OfText, Owner;
    LevelColumns();
    if op.IncrementAttempts? {
      assert after == r[LocationEnrichmentAttempts := Int(Attempts(r) + 1)];
    } else {
      LeavesOthersAlone(r, op, Parish);
      LeavesOthersAlone(r, op, Municipality);
      LeavesOthersAlone(r, op, District);
    }
  }

  lemma {:induction false} LevelsAreTheLastParsed(ops: seq<Op>, id: Uuid)
    ensures id in Run(map[], ops) ==> HasLevels(Run(map[], ops)[id], LevelsAfter(ops, id))
  {
    hide StepRow, Step, HasLevels;
    if ops != [] {
      var before, op := ops[..|ops| - 1], ops[|ops| - 1];
      LevelsAreTheLastParsed(before, id);
      StepTouchesOnlyItsTarget(Run(map[], before), op, id);
      if Target(op) == id && id in Run(map[], ops) {
        LevelsStep(Lookup(Run(map[], before), id), op, Run(map[], ops)[id], LevelsAfter(before, id));
      }
    }
  }

  // ---------- End to end ----------

  predicate Wanted(level: Option<string>, wanted: Option<string>) {
    wanted.Some? && wanted.value != "" ==> level == wanted
  }

  /**
   After any delivery with an upsert that no other outranks -- any order, duplicates, stale deletes, any writes of
   the other handlers in between -- the search pre-filter returns the property exactly when the place last parsed
   is the wanted one and the winning event meets every criterion.
   */
  lemma DeliveredSearch(ops: seq<Op>, w: Op, l: LocationFilter, f: PropertyFilters, q: ParsedQuery)
    requires Outranks(w, ops) && PayloadByVersion(ops, w.event.id)
    ensures w.event.id in SelectedIds(Run(map[], ops), SearchQuery(l, f, q)) <==>
      var levels := LevelsAfter(ops, w.event.id);
      && Wanted(levels.parish, l.parish) && Wanted(levels.municipality, l.municipality)
      && Wanted(levels.district, l.district)
      && SearchedEvent(w.event, f, q)
  {
    hide Selects, SearchQuery, Run, Shows, SearchedEvent;
    HighestUpsertWins(ops, w);
    var r := Run(map[], ops)[w.event.id];
    EventSearched(r, w.event, w.occurredAt, l, f, q);
    LevelsAreTheLastParsed(ops, w.event.id);
  }

  lemma DeliveredList(ops: seq<Op>, w: Op, f: PropertyFilters)
    requires Outranks(w, ops) && PayloadByVersion(ops, w.event.id)
    ensures w.event.id in SelectedIds(Run(map[], ops), ActiveQuery(f)) <==>
      var levels := LevelsAfter(ops, w.event.id);
      && (f.parish.Some? ==> levels.parish == f.parish)
      && (f.municipality.Some? ==> levels.municipality == f.municipality)
      && (f.district.Some? ==> levels.district == f.district)
      && ListedEvent(w.event, f)
  {
    hide Selects, ActiveQuery, Run, Shows, ListedEvent;
    HighestUpsertWins(ops, w);
    var r := Run(map[], ops)[w.event.id];
    EventListed(r, w.event, w.occurredAt, f);
    LevelsAreTheLastParsed(ops, w.event.id);
  }
}
