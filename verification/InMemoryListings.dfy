/**
 The other adapter of the listings port: a dictionary of typed listings, filtered in code. It promises the
 semantics of the SQL adapter; AdapterRefinement says how far that holds.
 */
module InMemoryListings {
  import opened Prelude
  import opened Sql
  import opened ListingProjection
  import opened ListingQueries
  import ListingCodec

  datatype Basics = Basics(
    id: Uuid, organizationId: Uuid, title: string, status: PropertyStatus, listingType: ListingType, typology: Typology)

  datatype Location = Location(
    parish: Option<string>, municipality: Option<string>, district: Option<string>, country: string,
    city: Option<string>, state: Option<string>, region: Option<string>,
    enrichedAt: Option<Instant>, attempts: int)

  datatype Facts = Facts(
    numOfBedrooms: Option<int>, numOfBathrooms: Option<int>, areaInM2: Option<int>,
    hasPool: Option<bool>, hasGarden: Option<bool>, hasElevator: Option<bool>,
    floor: Option<int>, parkingSpaces: Option<int>, builtAt: Option<int>, energyRating: Option<string>)

  datatype Image = Image(id: Uuid, s3Key: string, displayOrder: int)
  datatype Price = Price(amount: real, listingType: ListingType)

  datatype Media = Media(
    minPrice: Option<real>, firstImageS3Key: Option<string>, images: seq<Image>, prices: seq<Price>,
    description: Option<string>, latitude: Option<real>, longitude: Option<real>)

  datatype EmbeddingState = EmbeddingState(
    textHash: Option<string>, textVersion: Option<string>, modelVersion: Option<string>,
    embeddedAt: Option<Instant>, status: string)

  /** `PropertyListing`, its fields grouped by who writes them. */
  datatype Listing = Listing(
    basics: Basics, location: Location, facts: Facts, media: Media, pois: seq<Poi>, embedding: EmbeddingState,
    agency: AgencyContact, version: int, occurredAt: Instant, createdAt: Instant, updatedAt: Instant)

  type Listings = map<Uuid, Listing>

  // ---------- Writing ----------

  function KeptImages(images: seq<ImageData>): seq<Image> {
    if images == [] then []
    else
      var last := images[|images| - 1];
      KeptImages(images[..|images| - 1]) +
        (if last.s3Key.Some? && last.displayOrder.Some?
         then [Image(last.id, last.s3Key.value, last.displayOrder.value)] else [])
  }

  /** Both constructors may raise: `Decimal` of the amount and `ListingType` of the type. */
  function PriceOf(amount: Option<real>, listingType: string): Option<Price> {
    if amount.Some? && ListingCodec.ToOffer(listingType).Some?
    then Some(Price(amount.value, ListingCodec.ToOffer(listingType).value)) else None
  }

  /** None when one of them raises. */
  function PricesOf(prices: seq<PriceData>): Option<seq<Price>> {
    if prices == [] then Some([])
    else
      var last := prices[|prices| - 1];
      var before := PricesOf(prices[..|prices| - 1]);
      if before.None? || last.amount.NoAmount? || last.listingType.None? then before
      else
        var price := PriceOf(if last.amount.Parsed? then Some(last.amount.value) else None, last.listingType.value);
        if price.None? then None else Some(before.value + [price.value])
  }

  function FactsOf(k: Characteristics): Facts {
    Facts(
      numOfBedrooms := k.numOfBedrooms, numOfBathrooms := k.numOfBathrooms,
      areaInM2 := if k.areaInM2.Some? then Some(Truncate(k.areaInM2.value)) else None,
      hasPool := k.hasPool, hasGarden := k.hasGarden, hasElevator := k.hasElevator,
      floor := k.floor, parkingSpaces := k.parkingSpaces, builtAt := k.builtAt, energyRating := k.energyRating)
  }

  function Recorded(was: Option<Listing>, e: EventData, at: Instant, agency: Option<AgencyContact>, now: Instant,
                    prices: seq<Price>): Listing {
    Listing(
      Basics(e.id, e.organizationId, ListingProjection.Or(e.title, "Property"), e.status, e.listingType, e.typology),
      if was.Some? then was.value.location
      else Location(None, None, None, ListingProjection.Or(e.country, "Portugal"), None, None, None, None, 0),
      FactsOf(e.characteristics),
      Media(Cheapest(e.prices), CoverImage(e.images), KeptImages(e.images), prices, e.description, e.latitude,
            e.longitude),
      if e.pois.Some? then e.pois.value else if was.Some? then was.value.pois else [],
      if was.Some? then was.value.embedding else EmbeddingState(None, None, None, None, "PENDING"),
      if agency.Some? then agency.value else if was.Some? then was.value.agency else AgencyContact(None, None, None),
      e.aggregateVersion, at, if was.Some? then was.value.createdAt else now, now)
  }

  function LocationOf(p: ParsedAddress, now: Instant, attempts: int): Location {
    Location(p.parish, p.municipality, p.district, p.country, p.city, p.state, p.region, Some(now), attempts)
  }

  /** What each write leaves under its id. */
  function StepListing(l: Option<Listing>, op: Op): Option<Listing> {
    match op
    case Upsert(e, at, agency, now) =>
      if (l.Some? && l.value.version >= e.aggregateVersion) || PricesOf(e.prices).None? then l
      else Some(Recorded(l, e, at, agency, now, PricesOf(e.prices).value))
    case Delete(_, version) => if l.Some? && l.value.version < version then None else l
    case UpdateLocation(_, p, now) =>
      if l.None? then None
      else Some(l.value.(location := LocationOf(p, now, l.value.location.attempts + 1)))
    case IncrementAttempts(_) =>
      if l.None? then None
      else Some(l.value.(location := l.value.location.(attempts := l.value.location.attempts + 1)))
    case SetEmbeddingIndexed(_, textHash, textVersion, modelVersion, at) =>
      if l.None? then None
      else Some(l.value.(
        embedding := EmbeddingState(Some(textHash), Some(textVersion), Some(modelVersion), Some(at), "INDEXED")))
    case SetEmbeddingStatus(_, status) =>
      if l.None? then None else Some(l.value.(embedding := l.value.embedding.(status := status)))
  }

  function StepListings(t: Listings, op: Op): Listings {
    match StepListing(Lookup(t, Target(op)), op)
    case Some(l) => t[Target(op) := l]
    case None => t - {Target(op)}
  }

  function RunListings(t: Listings, ops: seq<Op>): Listings {
    if ops == [] then t else StepListings(RunListings(t, ops[..|ops| - 1]), ops[|ops| - 1])
  }

  // ---------- Filtering ----------

  /** `_matches_filters`. */
  predicate MatchesFilters(l: Listing, f: PropertyFilters) {
    if l.basics.status != Active then false
    else if f.listingType.Some? && l.basics.listingType != f.listingType.value then false
    else if f.typology.Some? && l.basics.typology != f.typology.value then false
    else if f.parish.Some? && l.location.parish != f.parish then false
    else if f.municipality.Some? && l.location.municipality != f.municipality then false
    else if f.district.Some? && l.location.district != f.district then false
    else if f.minPrice.Some? && (l.media.minPrice.None? || l.media.minPrice.value < f.minPrice.value) then false
    else !(f.maxPrice.Some? && (l.media.minPrice.None? || l.media.minPrice.value > f.maxPrice.value))
  }

  /** A known value below the wanted one, or above it. */
  predicate Misses(value: Option<int>, atLeast: Option<int>, atMost: Option<int>) {
    value.Some? && ((atLeast.Some? && value.value < atLeast.value) || (atMost.Some? && value.value > atMost.value))
  }

  predicate Lacks(value: Option<bool>, wanted: Option<bool>) {
    wanted == Some(true) && value.Some? && !value.value
  }

  predicate Elsewhere(level: Option<string>, wanted: Option<string>) {
    wanted.Some? && wanted.value != "" && level != wanted
  }

  predicate FailsACriterion(k: Facts, q: ParsedQuery) {
    || Misses(k.numOfBedrooms, q.minBedrooms, None) || Misses(k.numOfBathrooms, q.minBathrooms, None)
    || Misses(k.areaInM2, q.minAreaM2, q.maxAreaM2)
    || Lacks(k.hasPool, q.hasPool) || Lacks(k.hasGarden, q.hasGarden) || Lacks(k.hasElevator, q.hasElevator)
    || (q.hasParking == Some(true) && k.parkingSpaces.Some? && k.parkingSpaces.value <= 0)
  }

  /** The closure `_matches` of `list_ids_for_search`. */
  predicate MatchesSearch(l: Listing, place: LocationFilter, f: PropertyFilters, q: ParsedQuery) {
    var typology := if f.typology.Some? then f.typology else q.typology;
    var minPrice := if f.minPrice.Some? then f.minPrice else q.minPrice;
    var maxPrice := if f.maxPrice.Some? then f.maxPrice else q.maxPrice;
    if l.basics.status != Active then false
    else if Elsewhere(l.location.parish, place.parish) || Elsewhere(l.location.municipality, place.municipality)
            || Elsewhere(l.location.district, place.district) then false
    else if typology.Some? && l.basics.typology != typology.value then false
    else if f.listingType.Some? && l.basics.listingType != f.listingType.value then false
    else if minPrice.Some? && l.media.minPrice.Some? && l.media.minPrice.value < minPrice.value then false
    else if maxPrice.Some? && l.media.minPrice.Some? && l.media.minPrice.value > maxPrice.value then false
    else !FailsACriterion(l.facts, q)
  }

  function MatchingIds(t: Listings, place: LocationFilter, f: PropertyFilters, q: ParsedQuery): set<Uuid> {
    set id | id in t && MatchesSearch(t[id], place, f, q)
  }

  /** Distinct matching ids, as many as there are up to the limit; but one, not none, for a limit of 0. */
  ghost predicate IsScanResult(t: Listings, place: LocationFilter, f: PropertyFilters, q: ParsedQuery,
                               limit: nat, ids: seq<Uuid>) {
    var all, most := |MatchingIds(t, place, f, q)|, if limit == 0 then 1 else limit;
    && Distinct(ids)
    && (forall id :: id in ids ==> id in MatchingIds(t, place, f, q))
    && |ids| == if all < most then all else most
  }

  // ---------- The repository ----------

  /** `InMemoryPropertyListingRepository`. */
  class InMemoryPropertyListingRepository {
    var rows: Listings

    /** A listing is kept under its own id. */
    ghost predicate Valid()
      reads this
    {
      forall id :: id in rows ==> rows[id].basics.id == id
    }

    constructor ()
      ensures Valid() && rows == map[]
    {
      rows := map[];
    }

    /** The list of images; one without a key or a position is passed over. */
    method CollectImages(images: seq<ImageData>) returns (kept: seq<Image>)
      ensures kept == KeptImages(images)
    {
      kept := [];
      for i := 0 to |images|
        invariant kept == KeptImages(images[..i])
      {
        assert images[..i + 1][..i] == images[..i];
        if images[i].s3Key.Some? && images[i].displayOrder.Some? {
          kept := kept + [Image(images[i].id, images[i].s3Key.value, images[i].displayOrder.value)];
        }
      }
      assert images[..|images|] == images;
    }

    /** The list of prices; the first amount or type that cannot be read raises. */
    method CollectPrices(prices: seq<PriceData>) returns (read: Option<seq<Price>>)
      ensures read == PricesOf(prices)
    {
      var list := [];
      for i := 0 to |prices|
        invariant PricesOf(prices[..i]) == Some(list)
      {
        assert prices[..i + 1][..i] == prices[..i];
        var p := prices[i];
        if !p.amount.NoAmount? && p.listingType.Some? {
          if p.amount.Malformed? || ListingCodec.ToOffer(p.listingType.value).None? {
            RaisesOnceForAll(prices, i + 1);
            return None;
          }
          list := list + [Price(p.amount.value, ListingCodec.ToOffer(p.listingType.value).value)];
        }
      }
      assert prices[..|prices|] == prices;
      return Some(list);
    }

    /** `raised` stands for the exception of an unreadable price; nothing is stored then. */
    method UpsertFromEvent(e: EventData, occurredAt: Instant, agency: Option<AgencyContact>, now: Instant)
      returns (stored: Option<Listing>, raised: bool)
      requires Valid()
      modifies this
      ensures Valid() && rows == StepListings(old(rows), Upsert(e, occurredAt, agency, now))
      ensures raised ==> stored.None? && PricesOf(e.prices).None?
      ensures !raised && stored.None? <==> e.id in old(rows) && old(rows)[e.id].version >= e.aggregateVersion
      ensures stored.Some? ==> e.id in rows && stored.value == rows[e.id] && rows[e.id].version == e.aggregateVersion
    {
      var existing := Lookup(rows, e.id);
      if existing.Some? && existing.value.version >= e.aggregateVersion {
        assert rows[e.id := rows[e.id]] == rows;
        return None, false;
      }
      var minPrice := FindMinPrice(e.prices);
      var firstImage := FindCoverImage(e.images);
      var images := CollectImages(e.images);
      var prices := CollectPrices(e.prices);
      if prices.None? {
        assert rows == StepListings(rows, Upsert(e, occurredAt, agency, now));
        return None, true;
      }
      var country := ListingProjection.Or(e.country, "Portugal");
      var location := Location(None, None, None, country, None, None, None, None, 0);
      var pois, createdAt := [], now;
      var embedding, contact := EmbeddingState(None, None, None, None, "PENDING"), AgencyContact(None, None, None);
      if existing.Some? {
        location, pois, embedding := existing.value.location, existing.value.pois, existing.value.embedding;
        contact, createdAt := existing.value.agency, existing.value.createdAt;
      }
      if e.pois.Some? { pois := e.pois.value; }
      if agency.Some? { contact := agency.value; }
      var listing := Listing(
        Basics(e.id, e.organizationId, ListingProjection.Or(e.title, "Property"), e.status, e.listingType, e.typology),
        location, FactsOf(e.characteristics),
        Media(minPrice, firstImage, images, prices.value, e.description, e.latitude, e.longitude),
        pois, embedding, contact, e.aggregateVersion, occurredAt, createdAt, now);
      rows := rows[e.id := listing];
      return Some(listing), false;
    }

    method DeleteIfNewer(id: Uuid, version: int) returns (deleted: bool)
      requires Valid()
      modifies this
      ensures Valid() && rows == StepListings(old(rows), Delete(id, version))
      ensures deleted <==> id in old(rows) && id !in rows
    {
      if id !in rows || rows[id].version >= version {
        assert rows == StepListings(rows, Delete(id, version));
        return false;
      }
      rows := rows - {id};
      return true;
    }

    method UpdateLocation(id: Uuid, p: ParsedAddress, now: Instant) returns (stored: Option<Listing>)
      requires Valid()
      modifies this
      ensures Valid() && rows == StepListings(old(rows), Op.UpdateLocation(id, p, now))
      ensures stored == Lookup(rows, id)
    {
      if id !in rows {
        assert rows == StepListings(rows, Op.UpdateLocation(id, p, now));
        return None;
      }
      rows := rows[id := rows[id].(location := LocationOf(p, now, rows[id].location.attempts + 1))];
      return Some(rows[id]);
    }

    method IncrementEnrichmentAttempts(id: Uuid) returns (stored: Option<Listing>)
      requires Valid()
      modifies this
      ensures Valid() && rows == StepListings(old(rows), IncrementAttempts(id))
      ensures stored == Lookup(rows, id)
    {
      if id !in rows {
        assert rows == StepListings(rows, IncrementAttempts(id));
        return None;
      }
      var location := rows[id].location;
      rows := rows[id := rows[id].(location := location.(attempts := location.attempts + 1))];
      return Some(rows[id]);
    }

    method SetEmbeddingIndexed(
        id: Uuid, textHash: string, textVersion: string, modelVersion: string, embeddedAt: Instant)
      returns (stored: Option<Listing>)
      requires Valid()
      modifies this
      ensures Valid()
      ensures rows == StepListings(old(rows),
                                   Op.SetEmbeddingIndexed(id, textHash, textVersion, modelVersion, embeddedAt))
      ensures stored == Lookup(rows, id)
    {
      if id !in rows {
        assert rows == StepListings(rows,
                                    Op.SetEmbeddingIndexed(id, textHash, textVersion, modelVersion, embeddedAt));
        return None;
      }
      rows := rows[id := rows[id].(embedding := EmbeddingState(
        Some(textHash), Some(textVersion), Some(modelVersion), Some(embeddedAt), "INDEXED"))];
      return Some(rows[id]);
    }

    method SetEmbeddingStatus(id: Uuid, status: string) returns (stored: Option<Listing>)
      requires Valid()
      modifies this
      ensures Valid() && rows == StepListings(old(rows), Op.SetEmbeddingStatus(id, status))
      ensures stored == Lookup(rows, id)
    {
      if id !in rows {
        assert rows == StepListings(rows, Op.SetEmbeddingStatus(id, status));
        return None;
      }
      rows := rows[id := rows[id].(embedding := rows[id].embedding.(status := status))];
      return Some(rows[id]);
    }

    /** The scan stops once the limit is reached, but looks only after it has appended. */
    method ListIdsForSearch(
        place: LocationFilter, f: PropertyFilters, q: ParsedQuery, limit: nat)
      returns (ids: seq<Uuid>)
      ensures IsScanResult(rows, place, f, q, limit, ids)
    {
      ids := [];
      var matching := MatchingIds(rows, place, f, q);
      var todo := rows.Keys;
      while todo != {}
        invariant todo <= rows.Keys && Distinct(ids)
        invariant forall id :: id in ids ==> id in matching && id !in todo
        invariant forall id :: id in matching ==> id in todo || id in ids
        invariant |ids| == 0 || |ids| < limit
        decreases todo
      {
        var id :| id in todo;
        todo := todo - {id};
        if MatchesSearch(rows[id], place, f, q) {
          ids := ids + [id];
          DistinctLength(ids);
          SubsetSize(Elements(ids), matching);
          if |ids| >= limit {
            return;
          }
        }
      }
      DistinctLength(ids);
      assert Elements(ids) == matching;
    }
  }

  lemma {:induction false} RaisesOnceForAll(prices: seq<PriceData>, n: nat)
    requires n <= |prices| && PricesOf(prices[..n]).None?
    ensures PricesOf(prices).None?
  {
    if n == |prices| {
      assert prices[..n] == prices;
    } else {
      assert prices[..|prices| - 1][..n] == prices[..n];
      RaisesOnceForAll(prices[..|prices| - 1], n);
    }
  }
}
