/**
 The SQL adapter refines the in-memory one. A row *reads as* a listing when `_to_domain` of the row gives that
 listing; writes and queries on both sides keep step, up to the events whose row cannot be read back.
 */
module AdapterRefinement {
  import opened Prelude
  import opened Sql
  import opened ListingProjection
  import opened ProjectionConvergence
  import opened WriterNonInterference
  import opened ListingQueries
  import opened InMemoryListings
  import ListingCodec

  /** `Decimal` of the text of a stored amount; None when it raises. */
  type DecimalReader = string -> Option<real>

  /** The amounts of the event are what their text reads as. */
  ghost predicate ReadWith(decimal: DecimalReader, e: EventData) {
    forall i :: 0 <= i < |e.prices| && !e.prices[i].amount.NoAmount? ==>
      decimal(e.prices[i].amount.text) ==
        if e.prices[i].amount.Parsed? then Some(e.prices[i].amount.value) else None
  }

  // ---------- `_to_domain`, group by group ----------

  function OfTime(o: Option<Instant>): Value { match o case None => Null case Some(t) => Time(t) }

  /** None when an image lacks its key or its position. */
  function ReadImages(images: seq<ImageData>): Option<seq<Image>> {
    if images == [] then Some([])
    else
      var last, before := images[|images| - 1], ReadImages(images[..|images| - 1]);
      if before.None? || last.s3Key.None? || last.displayOrder.None? then None
      else Some(before.value + [Image(last.id, last.s3Key.value, last.displayOrder.value)])
  }

  /** None when an amount or a listing type cannot be read. */
  function ReadCells(decimal: DecimalReader, cells: seq<PriceCell>): Option<seq<Price>> {
    if cells == [] then Some([])
    else
      var first, rest := PriceOf(decimal(cells[0].amount), cells[0].listingType), ReadCells(decimal, cells[1..]);
      if first.None? || rest.None? then None else Some([first.value] + rest.value)
  }

  predicate ReadsBasics(r: Row, b: Basics) {
    && r[Id] == Uid(b.id) && r[OrganizationId] == Uid(b.organizationId) && r[Title] == Text(b.title)
    && r[Status] == Stage(b.status) && r[Kind] == Offer(b.listingType) && r[Building] == Shape(b.typology)
  }

  predicate ReadsLocation(r: Row, l: Location) {
    && r[Parish] == OfText(l.parish) && r[Municipality] == OfText(l.municipality) && r[District] == OfText(l.district)
    && r[Country] == Text(l.country) && r[City] == OfText(l.city) && r[State] == OfText(l.state)
    && r[Region] == OfText(l.region) && r[LocationEnrichedAt] == OfTime(l.enrichedAt)
    && r[LocationEnrichmentAttempts] == Int(l.attempts)
  }

  predicate ReadsFacts(r: Row, f: Facts) {
    && r[NumOfBedrooms] == OfInt(f.numOfBedrooms) && r[NumOfBathrooms] == OfInt(f.numOfBathrooms)
    && r[AreaInM2] == OfInt(f.areaInM2) && r[HasPool] == OfBool(f.hasPool) && r[HasGarden] == OfBool(f.hasGarden)
    && r[HasElevator] == OfBool(f.hasElevator) && r[Floor] == OfInt(f.floor)
    && r[ParkingSpaces] == OfInt(f.parkingSpaces) && r[BuiltAt] == OfInt(f.builtAt)
    && r[EnergyRating] == OfText(f.energyRating)
  }

  predicate ReadsMedia(decimal: DecimalReader, r: Row, m: Media) {
    && r[MinPrice] == OfNum(m.minPrice) && r[FirstImageS3Key] == OfText(m.firstImageS3Key)
    && r[Images].ImageList? && ReadImages(r[Images].images) == Some(m.images)
    && r[Prices].PriceList? && ReadCells(decimal, r[Prices].prices) == Some(m.prices)
    && r[Description] == OfText(m.description) && r[Latitude] == OfNum(m.latitude)
    && r[Longitude] == OfNum(m.longitude)
  }

  predicate ReadsEmbedding(r: Row, e: EmbeddingState) {
    && r[EmbeddingTextHash] == OfText(e.textHash) && r[CanonicalTextVersion] == OfText(e.textVersion)
    && r[EmbeddingModelVersion] == OfText(e.modelVersion) && r[EmbeddedAt] == OfTime(e.embeddedAt)
    && r[EmbeddingStatus] == Text(e.status)
  }

  predicate ReadsAgency(r: Row, a: AgencyContact) {
    && r[AgencyName] == OfText(a.name) && r[AgencyEmail] == OfText(a.email) && r[AgencyPhone] == OfText(a.phone)
  }

  predicate ReadsStamps(r: Row, l: Listing) {
    && r[SourceAggregateVersion] == Int(l.version) && r[SourceOccurredAt] == Time(l.occurredAt)
    && r[CreatedAt] == Time(l.createdAt) && r[UpdatedAt] == Time(l.updatedAt)
  }

  predicate Reads(decimal: DecimalReader, r: Row, l: Listing) {
    && ReadsBasics(r, l.basics) && ReadsLocation(r, l.location) && ReadsFacts(r, l.facts)
    && ReadsMedia(decimal, r, l.media) && r[Pois] == PoiList(l.pois) && ReadsEmbedding(r, l.embedding)
    && ReadsAgency(r, l.agency) && ReadsStamps(r, l)
  }

  lemma OneText(a: Option<string>, b: Option<string>)
    requires OfText(a) == OfText(b)
    ensures a == b
  {
  }

  lemma OneInt(a: Option<int>, b: Option<int>)
    requires OfInt(a) == OfInt(b)
    ensures a == b
  {
  }

  lemma OneLocation(r: Row, a: Location, b: Location)
    requires ReadsLocation(r, a) && ReadsLocation(r, b)
    ensures a == b
  {
    hide OfText;
    OneText(a.parish, b.parish);
    OneText(a.municipality, b.municipality);
    OneText(a.district, b.district);
    OneText(a.city, b.city);
    OneText(a.state, b.state);
    OneText(a.region, b.region);
  }

  lemma OneSetOfFacts(r: Row, a: Facts, b: Facts)
    requires ReadsFacts(r, a) && ReadsFacts(r, b)
    ensures a == b
  {
    hide OfInt, OfText;
    OneInt(a.numOfBedrooms, b.numOfBedrooms);
    OneInt(a.numOfBathrooms, b.numOfBathrooms);
    OneInt(a.areaInM2, b.areaInM2);
    OneInt(a.floor, b.floor);
    OneInt(a.parkingSpaces, b.parkingSpaces);
    OneInt(a.builtAt, b.builtAt);
    OneText(a.energyRating, b.energyRating);
  }

  lemma OneMedia(decimal: DecimalReader, r: Row, a: Media, b: Media)
    requires ReadsMedia(decimal, r, a) && ReadsMedia(decimal, r, b)
    ensures a == b
  {
    hide OfText, ReadImages, ReadCells;
    OneText(a.firstImageS3Key, b.firstImageS3Key);
    OneText(a.description, b.description);
  }

  lemma OneEmbedding(r: Row, a: EmbeddingState, b: EmbeddingState)
    requires ReadsEmbedding(r, a) && ReadsEmbedding(r, b)
    ensures a == b
  {
    hide OfText;
    OneText(a.textHash, b.textHash);
    OneText(a.textVersion, b.textVersion);
    OneText(a.modelVersion, b.modelVersion);
  }

  /** A row reads as at most one listing: its columns leave no field open. */
  lemma ReadsAsOne(decimal: DecimalReader, r: Row, a: Listing, b: Listing)
    requires Reads(decimal, r, a) && Reads(decimal, r, b)
    ensures a == b
  {
    hide ReadsLocation, ReadsFacts, ReadsMedia, ReadsEmbedding, OfText;
    OneLocation(r, a.location, b.location);
    OneSetOfFacts(r, a.facts, b.facts);
    OneMedia(decimal, r, a.media, b.media);
    OneEmbedding(r, a.embedding, b.embedding);
    OneText(a.agency.name, b.agency.name);
    OneText(a.agency.email, b.agency.email);
    OneText(a.agency.phone, b.agency.phone);
  }

  // ---------- What a row shows of its event ----------

  lemma ShownSection(r: Row, e: EventData, at: Instant, c: Column)
    requires Shows(r, e, at) && Owner(c) == Projector
    ensures SectionOf(c) == Section.Identity ==> Lookup(IdentityPart(e), c) == Some(r[c])
    ensures SectionOf(c) == Rooms ==> Lookup(RoomsPart(e.characteristics), c) == Some(r[c])
    ensures SectionOf(c) == Features ==> Lookup(FeaturesPart(e.characteristics), c) == Some(r[c])
    ensures SectionOf(c) == Content ==>
      Lookup(ContentPart(e, Cheapest(e.prices), CoverImage(e.images)), c) == Some(r[c])
    ensures SectionOf(c) == Descriptive ==> Lookup(DescriptionPart(e), c) == Some(r[c])
    ensures SectionOf(c) == Bookkeeping ==> Lookup(BookkeepingPart(e, at), c) == Some(r[c])
  {
    hide RowOf, IdentityPart, PlacePart, RoomsPart, FeaturesPart, ContentPart, DescriptionPart, BookkeepingPart;
    hide AgencyPart, PoisPart, Cheapest, CoverImage;
    RowSection(e, at, None, c);
  }

  lemma ShownBasics(r: Row, e: EventData, at: Instant)
    requires Shows(r, e, at)
    ensures r[OrganizationId] == Uid(e.organizationId)
    ensures r[Title] == Text(if e.title.Some? && e.title.value != "" then e.title.value else "Property")
    ensures r[Status] == Stage(e.status) && r[Kind] == Offer(e.listingType) && r[Building] == Shape(e.typology)
  {
    hide Shows, Cheapest, CoverImage, RoomsPart, FeaturesPart, ContentPart, DescriptionPart, BookkeepingPart;
    ShownSection(r, e, at, OrganizationId);
    ShownSection(r, e, at, Title);
    ShownSection(r, e, at, Status);
    ShownSection(r, e, at, Kind);
    ShownSection(r, e, at, Building);
  }

  lemma RoomsCells(k: Characteristics)
    ensures Lookup(RoomsPart(k), NumOfBedrooms) == Some(OfInt(k.numOfBedrooms))
    ensures Lookup(RoomsPart(k), NumOfBathrooms) == Some(OfInt(k.numOfBathrooms))
    ensures Lookup(RoomsPart(k), AreaInM2) == Some(if k.areaInM2.Some? then Int(Truncate(k.areaInM2.value)) else Null)
    ensures Lookup(RoomsPart(k), BuiltAt) == Some(OfInt(k.builtAt))
    ensures Lookup(RoomsPart(k), EnergyRating) == Some(OfText(k.energyRating))
  {
    hide OfInt, OfText, Truncate;
  }

  lemma ShownRooms(r: Row, e: EventData, at: Instant)
    requires Shows(r, e, at)
    ensures var k := e.characteristics;
      && r[NumOfBedrooms] == OfInt(k.numOfBedrooms) && r[NumOfBathrooms] == OfInt(k.numOfBathrooms)
      && r[AreaInM2] == (if k.areaInM2.Some? then Int(Truncate(k.areaInM2.value)) else Null)
      && r[BuiltAt] == OfInt(k.builtAt) && r[EnergyRating] == OfText(k.energyRating)
  {
    hide Shows, OfInt, OfText, Truncate, IdentityPart, RoomsPart, FeaturesPart, ContentPart, DescriptionPart;
    hide BookkeepingPart, Cheapest, CoverImage;
    RoomsCells(e.characteristics);
    ShownSection(r, e, at, NumOfBedrooms);
    ShownSection(r, e, at, NumOfBathrooms);
    ShownSection(r, e, at, AreaInM2);
    ShownSection(r, e, at, BuiltAt);
    ShownSection(r, e, at, EnergyRating);
  }

  lemma FeaturesCells(k: Characteristics)
    ensures Lookup(FeaturesPart(k), HasPool) == Some(OfBool(k.hasPool))
    ensures Lookup(FeaturesPart(k), HasGarden) == Some(OfBool(k.hasGarden))
    ensures Lookup(FeaturesPart(k), HasElevator) == Some(OfBool(k.hasElevator))
    ensures Lookup(FeaturesPart(k), Floor) == Some(OfInt(k.floor))
    ensures Lookup(FeaturesPart(k), ParkingSpaces) == Some(OfInt(k.parkingSpaces))
  {
    hide OfInt, OfBool;
  }

  lemma ShownFeatures(r: Row, e: EventData, at: Instant)
    requires Shows(r, e, at)
    ensures var k := e.characteristics;
      && r[HasPool] == OfBool(k.hasPool) && r[HasGarden] == OfBool(k.hasGarden)
      && r[HasElevator] == OfBool(k.hasElevator) && r[Floor] == OfInt(k.floor)
      && r[ParkingSpaces] == OfInt(k.parkingSpaces)
  {
    hide Shows, OfInt, OfBool, IdentityPart, RoomsPart, FeaturesPart, ContentPart, DescriptionPart, BookkeepingPart;
    hide Cheapest, CoverImage;
    FeaturesCells(e.characteristics);
    ShownSection(r, e, at, HasPool);
    ShownSection(r, e, at, HasGarden);
    ShownSection(r, e, at, HasElevator);
    ShownSection(r, e, at, Floor);
    ShownSection(r, e, at, ParkingSpaces);
  }

  lemma ContentCells(e: EventData, m: Option<real>, f: Option<string>)
    ensures Lookup(ContentPart(e, m, f), MinPrice) == Some(OfNum(m))
    ensures Lookup(ContentPart(e, m, f), FirstImageS3Key) == Some(OfText(f))
    ensures Lookup(ContentPart(e, m, f), Images) == Some(ImageList(e.images))
    ensures Lookup(ContentPart(e, m, f), Prices) == Some(PriceList(PriceCells(e.prices)))
  {
    hide OfNum, OfText, PriceCells;
  }

  lemma ShownContent(r: Row, e: EventData, at: Instant)
    requires Shows(r, e, at)
    ensures r[MinPrice] == OfNum(Cheapest(e.prices)) && r[FirstImageS3Key] == OfText(CoverImage(e.images))
    ensures r[Images] == ImageList(e.images) && r[Prices] == PriceList(PriceCells(e.prices))
  {
    hide Shows, OfNum, OfText, Cheapest, CoverImage, PriceCells, IdentityPart, RoomsPart, FeaturesPart;
    hide ContentPart, DescriptionPart, BookkeepingPart;
    ContentCells(e, Cheapest(e.prices), CoverImage(e.images));
    ShownSection(r, e, at, MinPrice);
    ShownSection(r, e, at, FirstImageS3Key);
    ShownSection(r, e, at, Images);
    ShownSection(r, e, at, Prices);
  }

  lemma ShownDescription(r: Row, e: EventData, at: Instant)
    requires Shows(r, e, at)
    ensures r[Description] == OfText(e.description)
    ensures r[Latitude] == OfNum(e.latitude) && r[Longitude] == OfNum(e.longitude)
  {
    hide Shows, OfNum, OfText, Cheapest, CoverImage, IdentityPart, RoomsPart, FeaturesPart, ContentPart;
    hide BookkeepingPart;
    ShownSection(r, e, at, Description);
    ShownSection(r, e, at, Latitude);
    ShownSection(r, e, at, Longitude);
  }

  lemma ShownSource(r: Row, e: EventData, at: Instant)
    requires Shows(r, e, at)
    ensures r[SourceAggregateVersion] == Int(e.aggregateVersion) && r[SourceOccurredAt] == Time(at)
  {
    hide Shows, Cheapest, CoverImage, IdentityPart, RoomsPart, FeaturesPart, ContentPart, DescriptionPart;
    ShownSection(r, e, at, SourceAggregateVersion);
    ShownSection(r, e, at, SourceOccurredAt);
  }

  // ---------- Which events can be read back ----------

  /** Every image has its key and position, and every price its readable amount and type. */
  ghost predicate Readable(e: EventData) {
    && (forall i :: 0 <= i < |e.images| ==> e.images[i].s3Key.Some? && e.images[i].displayOrder.Some?)
    && (forall i :: 0 <= i < |e.prices| && !e.prices[i].amount.NoAmount? && e.prices[i].listingType.Some? ==>
          e.prices[i].amount.Parsed? && e.prices[i].listingType.value in {"sale", "purchase"})
  }

  lemma {:induction false} ImagesRead(images: seq<ImageData>)
    ensures ReadImages(images).Some? <==>
      forall i :: 0 <= i < |images| ==> images[i].s3Key.Some? && images[i].displayOrder.Some?
    ensures ReadImages(images).Some? ==> ReadImages(images) == Some(KeptImages(images))
  {
    if images != [] {
      var n := |images| - 1;
      ImagesRead(images[..n]);
      assert forall i :: 0 <= i < n ==> images[..n][i] == images[i];
    }
  }

  lemma {:induction false} PricesRead(prices: seq<PriceData>)
    ensures PricesOf(prices).Some? <==>
      forall i :: 0 <= i < |prices| && !prices[i].amount.NoAmount? && prices[i].listingType.Some? ==>
        prices[i].amount.Parsed? && prices[i].listingType.value in {"sale", "purchase"}
  {
    if prices != [] {
      var n := |prices| - 1;
      PricesRead(prices[..n]);
      assert forall i :: 0 <= i < n ==> prices[..n][i] == prices[i];
    }
  }

  lemma {:induction false} CellsOfMore(prices: seq<PriceData>, p: PriceData)
    ensures PriceCells(prices + [p]) == PriceCells(prices) +
      (if !p.amount.NoAmount? && p.listingType.Some? then [PriceCell(p.amount.text, p.listingType.value)] else [])
  {
    if prices == [] {
      assert [p][1..] == [];
    } else {
      assert (prices + [p])[1..] == prices[1..] + [p];
      CellsOfMore(prices[1..], p);
    }
  }

  lemma {:induction false} ReadMore(decimal: DecimalReader, cells: seq<PriceCell>, cell: PriceCell)
    ensures ReadCells(decimal, cells + [cell]).Some? <==>
      ReadCells(decimal, cells).Some? && PriceOf(decimal(cell.amount), cell.listingType).Some?
    ensures ReadCells(decimal, cells + [cell]).Some? ==>
      ReadCells(decimal, cells + [cell]).value ==
        ReadCells(decimal, cells).value + [PriceOf(decimal(cell.amount), cell.listingType).value]
  {
    if cells == [] {
      assert [cell][1..] == [];
    } else {
      assert (cells + [cell])[1..] == cells[1..] + [cell];
      ReadMore(decimal, cells[1..], cell);
    }
  }

  /** What the SQL adapter stores of the prices reads as what the other one stores, or both raise. */
  lemma {:induction false} CellsRead(decimal: DecimalReader, prices: seq<PriceData>)
    requires forall i :: 0 <= i < |prices| && !prices[i].amount.NoAmount? ==>
      decimal(prices[i].amount.text) == if prices[i].amount.Parsed? then Some(prices[i].amount.value) else None
    ensures ReadCells(decimal, PriceCells(prices)) == PricesOf(prices)
  {
    if prices != [] {
      var n := |prices| - 1;
      var last := prices[n];
      CellsRead(decimal, prices[..n]);
      CellsOfMore(prices[..n], last);
      assert prices[..n] + [last] == prices;
      if !last.amount.NoAmount? && last.listingType.Some? {
        ReadMore(decimal, PriceCells(prices[..n]), PriceCell(last.amount.text, last.listingType.value));
      } else {
        assert PriceCells(prices[..n]) + [] == PriceCells(prices[..n]);
      }
    }
  }

  /** A row that shows an event can be read exactly when the event can; and then its media are the event's. */
  lemma MediaRead(decimal: DecimalReader, r: Row, e: EventData, at: Instant)
    requires Shows(r, e, at) && ReadWith(decimal, e)
    ensures Readable(e) ==> PricesOf(e.prices).Some?
    ensures Readable(e) ==>
      ReadsMedia(decimal, r, Media(Cheapest(e.prices), CoverImage(e.images), KeptImages(e.images),
                                   PricesOf(e.prices).value, e.description, e.latitude, e.longitude))
    ensures !Readable(e) ==> forall m :: !ReadsMedia(decimal, r, m)
    ensures !Readable(e) && PricesOf(e.prices).Some? ==> ReadImages(e.images).None?
  {
    ShownContent(r, e, at);
    ShownDescription(r, e, at);
    ImagesRead(e.images);
    PricesRead(e.prices);
    CellsRead(decimal, e.prices);
    hide Shows, PriceCells, PricesOf, ReadCells, ReadImages, KeptImages, Cheapest, CoverImage;
  }

  // ---------- Writes ----------

  /** Both adapters hold nothing under the id, or the row reads as the listing. */
  predicate Related(decimal: DecimalReader, id: Uuid, r: Option<Row>, l: Option<Listing>) {
    match (r, l)
    case (None, None) => true
    case (Some(row), Some(listing)) => Reads(decimal, row, listing) && listing.basics.id == id
    case _ => false
  }

  /** The upsert is not dropped. */
  predicate TakesEffect(r: Option<Row>, op: Op) {
    op.Upsert? && (r.Some? ==> Version(r.value) < op.event.aggregateVersion)
  }

  lemma UpsertedCell(r: Option<Row>, op: Op, after: Row, c: Column)
    requires TakesEffect(r, op) && StepRow(r, op) == Some(after)
    ensures var cell := Cell(op.event, op.occurredAt, op.agency, c);
      after[c] ==
        if r.None? then (if cell.Some? then cell.value else DefaultCell(c, op.now))
        else if c == UpdatedAt then Time(op.now)
        else if cell.Some? && !NotInSet(c) then cell.value
        else r.value[c]
  {
    hide EventRow, DefaultCell, NotInSet;
    var dict := EventRow(op.event, op.occurredAt, op.agency);
    InsertedCell(dict, op.now, c);
    if r.Some? {
      OverwrittenCell(r.value, dict, op.now, c);
    }
  }

  /** An upsert leaves the place as it finds it; a new row has only a country. */
  lemma PlaceAfterUpsert(r: Option<Row>, op: Op, after: Row, c: Column)
    requires TakesEffect(r, op) && StepRow(r, op) == Some(after) && Owner(c) == Enricher
    ensures r.Some? ==> after[c] == r.value[c]
    ensures r.None? && c == Country ==> after[c] == Text(ListingProjection.Or(op.event.country, "Portugal"))
    ensures r.None? && c == LocationEnrichmentAttempts ==> after[c] == Int(0)
    ensures r.None? && c != Country && c != LocationEnrichmentAttempts ==> after[c] == Null
  {
    hide StepRow, Cell, ListingProjection.Or;
    UpsertedCell(r, op, after, c);
    RowDictPlace(op.event, op.occurredAt, op.agency, c);
  }

  /** It leaves the embedding record as it finds it; a new row is pending. */
  lemma EmbeddingAfterUpsert(r: Option<Row>, op: Op, after: Row, c: Column)
    requires TakesEffect(r, op) && StepRow(r, op) == Some(after) && Owner(c) == Embedder
    ensures r.Some? ==> after[c] == r.value[c]
    ensures r.None? ==> after[c] == (if c == EmbeddingStatus then Text("PENDING") else Null)
  {
    hide StepRow, EventRow;
    UpsertedCell(r, op, after, c);
    RowDictKeys(op.event, op.occurredAt, op.agency, c);
  }

  lemma StampsAfterUpsert(r: Option<Row>, op: Op, after: Row)
    requires TakesEffect(r, op) && StepRow(r, op) == Some(after)
    ensures after[Id] == if r.Some? then r.value[Id] else Uid(op.event.id)
    ensures after[CreatedAt] == if r.Some? then r.value[CreatedAt] else Time(op.now)
    ensures after[UpdatedAt] == Time(op.now)
  {
    hide StepRow, Cell;
    UpsertedCell(r, op, after, Id);
    UpsertedCell(r, op, after, CreatedAt);
    UpsertedCell(r, op, after, UpdatedAt);
    RowDictColumns(op.event, op.occurredAt, op.agency);
    TypedCells(op.event, op.occurredAt, op.agency);
  }

  lemma AgencyCells(e: EventData, at: Instant, agency: Option<AgencyContact>)
    ensures var a := agency;
      && Cell(e, at, a, AgencyName) == (if a.Some? then Some(OfText(a.value.name)) else None)
      && Cell(e, at, a, AgencyEmail) == (if a.Some? then Some(OfText(a.value.email)) else None)
      && Cell(e, at, a, AgencyPhone) == (if a.Some? then Some(OfText(a.value.phone)) else None)
  {
    hide RowOf, IdentityPart, PlacePart, RoomsPart, FeaturesPart, ContentPart, DescriptionPart, BookkeepingPart;
    hide PoisPart, OfText, Cheapest, CoverImage;
    RowSection(e, at, agency, AgencyName);
    RowSection(e, at, agency, AgencyEmail);
    RowSection(e, at, agency, AgencyPhone);
  }

  /** The agency contact is the one supplied, else the stored one. */
  lemma AgencyAfterUpsert(r: Option<Row>, op: Op, after: Row)
    requires TakesEffect(r, op) && StepRow(r, op) == Some(after)
    ensures op.agency.Some? ==> ReadsAgency(after, op.agency.value)
    ensures op.agency.None? && r.None? ==> ReadsAgency(after, AgencyContact(None, None, None))
    ensures op.agency.None? && r.Some? ==> forall a :: ReadsAgency(after, a) <==> ReadsAgency(r.value, a)
  {
    hide StepRow, Cell;
    AgencyCells(op.event, op.occurredAt, op.agency);
    UpsertedCell(r, op, after, AgencyName);
    UpsertedCell(r, op, after, AgencyEmail);
    UpsertedCell(r, op, after, AgencyPhone);
  }

  lemma PoisAfterUpsert(r: Option<Row>, op: Op, after: Row)
    requires TakesEffect(r, op) && StepRow(r, op) == Some(after)
    ensures after[Pois] ==
      if op.event.pois.Some? then PoiList(op.event.pois.value) else if r.Some? then r.value[Pois] else PoiList([])
  {
    hide StepRow;
    if op.event.pois.Some? {
      UpsertCell(r, op, Pois);
      VersionCell(op);
    } else {
      UpsertWithoutPois(r, op);
    }
  }

  // ---------- One step ----------

  ghost predicate SameExcept(a: Row, b: Row, w: Writer) {
    forall c: Column :: Owner(c) != w ==> b[c] == a[c]
  }

  ghost predicate SameIn(a: Row, b: Row, w: Writer) {
    forall c: Column :: Owner(c) == w ==> b[c] == a[c]
  }

  lemma LevelColumns()
    ensures Owner(Parish) == Enricher && Owner(Municipality) == Enricher && Owner(District) == Enricher
    ensures Owner(Country) == Enricher && Owner(City) == Enricher
  {
  }

  lemma PlaceColumns()
    ensures Owner(State) == Enricher && Owner(Region) == Enricher
    ensures Owner(LocationEnrichedAt) == Enricher && Owner(LocationEnrichmentAttempts) == Enricher
  {
  }

  lemma EmbeddingColumns()
    ensures Owner(EmbeddingTextHash) == Embedder && Owner(CanonicalTextVersion) == Embedder
    ensures Owner(EmbeddingModelVersion) == Embedder && Owner(EmbeddedAt) == Embedder
    ensures Owner(EmbeddingStatus) == Embedder
  {
  }

  lemma BasicsColumns()
    ensures Owner(Id) == Insertion && Owner(OrganizationId) == Projector && Owner(Title) == Projector
    ensures Owner(Status) == Projector && Owner(Kind) == Projector && Owner(Building) == Projector
  {
  }

  lemma RoomsColumns()
    ensures Owner(NumOfBedrooms) == Projector && Owner(NumOfBathrooms) == Projector && Owner(AreaInM2) == Projector
    ensures Owner(BuiltAt) == Projector && Owner(EnergyRating) == Projector
  {
  }

  lemma FeaturesColumns()
    ensures Owner(HasPool) == Projector && Owner(HasGarden) == Projector && Owner(HasElevator) == Projector
    ensures Owner(Floor) == Projector && Owner(ParkingSpaces) == Projector
  {
  }

  lemma MediaColumns()
    ensures Owner(MinPrice) == Projector && Owner(FirstImageS3Key) == Projector && Owner(Images) == Projector
    ensures Owner(Prices) == Projector && Owner(Description) == Projector
    ensures Owner(Latitude) == Projector && Owner(Longitude) == Projector
  {
  }

  lemma StampColumns()
    ensures Owner(SourceAggregateVersion) == Projector && Owner(SourceOccurredAt) == Projector
    ensures Owner(CreatedAt) == Insertion && Owner(UpdatedAt) == ProjectorClock
  {
  }

  lemma SuppliedColumns()
    ensures Owner(Pois) == ProjectorIfSupplied && Owner(AgencyName) == ProjectorIfSupplied
    ensures Owner(AgencyEmail) == ProjectorIfSupplied && Owner(AgencyPhone) == ProjectorIfSupplied
  {
  }

  lemma LocationKept(a: Row, b: Row, l: Location)
    requires SameIn(a, b, Enricher) && ReadsLocation(a, l)
    ensures ReadsLocation(b, l)
  {
    hide Owner, OfText, OfTime;
    LevelColumns();
    PlaceColumns();
  }

  lemma EmbeddingKept(a: Row, b: Row, e: EmbeddingState)
    requires SameIn(a, b, Embedder) && ReadsEmbedding(a, e)
    ensures ReadsEmbedding(b, e)
  {
    hide Owner, OfText, OfTime;
    EmbeddingColumns();
  }

  lemma FactsKept(a: Row, b: Row, f: Facts, w: Writer)
    requires SameExcept(a, b, w) && w in {Enricher, Embedder} && ReadsFacts(a, f)
    ensures ReadsFacts(b, f)
  {
    hide Owner, OfText, OfInt, OfBool;
    RoomsColumns();
    FeaturesColumns();
  }

  lemma MediaKept(decimal: DecimalReader, a: Row, b: Row, m: Media, w: Writer)
    requires SameExcept(a, b, w) && w in {Enricher, Embedder} && ReadsMedia(decimal, a, m)
    ensures ReadsMedia(decimal, b, m)
  {
    hide Owner, OfText, OfNum, ReadImages, ReadCells;
    MediaColumns();
  }

  /** The projector's columns of a row another handler wrote to. */
  lemma ProjectionKept(decimal: DecimalReader, a: Row, b: Row, l: Listing, w: Writer)
    requires SameExcept(a, b, w) && w in {Enricher, Embedder} && Reads(decimal, a, l)
    ensures ReadsBasics(b, l.basics) && ReadsStamps(b, l) && b[Pois] == PoiList(l.pois)
    ensures ReadsFacts(b, l.facts) && ReadsMedia(decimal, b, l.media) && ReadsAgency(b, l.agency)
  {
    hide Owner, OfText, ReadsFacts, ReadsMedia, ReadsLocation, ReadsEmbedding;
    FactsKept(a, b, l.facts, w);
    MediaKept(decimal, a, b, l.media, w);
    BasicsColumns();
    StampColumns();
    SuppliedColumns();
  }

  lemma LocationWritten(r: Row, p: ParsedAddress, now: Instant, l: Location)
    requires ReadsLocation(r, l)
    ensures ReadsLocation(Relocated(r, p, now), LocationOf(p, now, l.attempts + 1))
  {
    hide OfText;
  }

  lemma AttemptWritten(r: Row, l: Location)
    requires ReadsLocation(r, l)
    ensures ReadsLocation(r[LocationEnrichmentAttempts := Int(Attempts(r) + 1)], l.(attempts := l.attempts + 1))
  {
    hide OfText;
  }

  lemma EmbeddingWritten(r: Row, h: string, t: string, m: string, at: Instant)
    ensures ReadsEmbedding(Indexed(r, h, t, m, at), EmbeddingState(Some(h), Some(t), Some(m), Some(at), "INDEXED"))
  {
  }

  lemma StatusWritten(r: Row, e: EmbeddingState, status: string)
    requires ReadsEmbedding(r, e)
    ensures ReadsEmbedding(r[EmbeddingStatus := Text(status)], e.(status := status))
  {
    hide OfText;
  }

  lemma SameOutside(r: Row, op: Op, after: Row, w: Writer)
    requires !op.Upsert? && !op.Delete? && StepRow(Some(r), op) == Some(after)
    requires w == if By(op) == AddressEnrichment then Enricher else Embedder
    ensures SameExcept(r, after, w)
  {
    hide StepRow;
    forall c: Column | Owner(c) != w ensures after[c] == r[c] {
      LeavesOthersAlone(r, op, c);
    }
  }

  /** A write of the address handler, read back. */
  lemma AddressRefines(decimal: DecimalReader, r: Row, l: Listing, op: Op, after: Row)
    requires Reads(decimal, r, l) && By(op) == AddressEnrichment && StepRow(Some(r), op) == Some(after)
    ensures StepListing(Some(l), op).Some? && Reads(decimal, after, StepListing(Some(l), op).value)
  {
    hide ReadsBasics, ReadsFacts, ReadsMedia, ReadsAgency, ReadsLocation, ReadsEmbedding, SameExcept, SameIn;
    hide StepRow, LocationOf, Recorded;
    PlaceRefines(decimal, r, l, op, after);
    SameOutside(r, op, after, Enricher);
    ProjectionKept(decimal, r, after, l, Enricher);
    AllBut(r, after, Enricher, Embedder);
    EmbeddingKept(r, after, l.embedding);
  }

  lemma PlaceRefines(decimal: DecimalReader, r: Row, l: Listing, op: Op, after: Row)
    requires Reads(decimal, r, l) && By(op) == AddressEnrichment && StepRow(Some(r), op) == Some(after)
    ensures StepListing(Some(l), op).Some? && ReadsLocation(after, StepListing(Some(l), op).value.location)
  {
    hide ReadsBasics, ReadsFacts, ReadsMedia, ReadsAgency, ReadsLocation, ReadsEmbedding, ReadsStamps;
    hide Relocated, EventRow, Inserted, Overwritten, LocationOf, Recorded, DefaultCells, IsRow;
    if op.UpdateLocation? {
      LocationWritten(r, op.parsed, op.now, l.location);
    } else {
      AttemptWritten(r, l.location);
    }
  }

  /** A write of the embedding handler, read back. */
  lemma EmbedderRefines(decimal: DecimalReader, r: Row, l: Listing, op: Op, after: Row)
    requires Reads(decimal, r, l) && By(op) == Handler.Embedding && StepRow(Some(r), op) == Some(after)
    ensures StepListing(Some(l), op).Some? && Reads(decimal, after, StepListing(Some(l), op).value)
  {
    hide ReadsBasics, ReadsFacts, ReadsMedia, ReadsAgency, ReadsLocation, ReadsEmbedding, SameExcept, SameIn;
    hide StepRow, LocationOf, Recorded;
    StateRefines(decimal, r, l, op, after);
    SameOutside(r, op, after, Embedder);
    ProjectionKept(decimal, r, after, l, Embedder);
    AllBut(r, after, Embedder, Enricher);
    LocationKept(r, after, l.location);
  }

  lemma StateRefines(decimal: DecimalReader, r: Row, l: Listing, op: Op, after: Row)
    requires Reads(decimal, r, l) && By(op) == Handler.Embedding && StepRow(Some(r), op) == Some(after)
    ensures StepListing(Some(l), op).Some? && ReadsEmbedding(after, StepListing(Some(l), op).value.embedding)
  {
    hide ReadsBasics, ReadsFacts, ReadsMedia, ReadsAgency, ReadsLocation, ReadsEmbedding, ReadsStamps;
    hide Indexed, EventRow, Inserted, Overwritten, LocationOf, Recorded, DefaultCells, IsRow;
    if op.SetEmbeddingIndexed? {
      EmbeddingWritten(r, op.textHash, op.textVersion, op.modelVersion, op.embeddedAt);
    } else {
      StatusWritten(r, l.embedding, op.status);
    }
  }

  lemma AllBut(a: Row, b: Row, w: Writer, other: Writer)
    requires SameExcept(a, b, w) && other != w
    ensures SameIn(a, b, other)
  {
    hide Owner;
  }

  lemma LocationRefines(r: Option<Row>, l: Option<Listing>, op: Op, after: Row)
    requires TakesEffect(r, op) && StepRow(r, op) == Some(after) && r.Some? == l.Some?
    requires r.Some? ==> ReadsLocation(r.value, l.value.location)
    ensures ReadsLocation(after, if l.Some? then l.value.location else
      Location(None, None, None, ListingProjection.Or(op.event.country, "Portugal"), None, None, None, None, 0))
  {
    hide StepRow, ListingProjection.Or, Owner;
    forall c: Column | Owner(c) == Enricher
      ensures r.Some? ==> after[c] == r.value[c]
      ensures r.None? && c == Country ==> after[c] == Text(ListingProjection.Or(op.event.country, "Portugal"))
      ensures r.None? && c == LocationEnrichmentAttempts ==> after[c] == Int(0)
      ensures r.None? && c != Country && c != LocationEnrichmentAttempts ==> after[c] == Null
    {
      PlaceAfterUpsert(r, op, after, c);
    }
    if r.Some? {
      LocationKept(r.value, after, l.value.location);
    } else {
      LevelColumns();
      PlaceColumns();
    }
  }

  lemma EmbeddingRefines(r: Option<Row>, l: Option<Listing>, op: Op, after: Row)
    requires TakesEffect(r, op) && StepRow(r, op) == Some(after) && r.Some? == l.Some?
    requires r.Some? ==> ReadsEmbedding(r.value, l.value.embedding)
    ensures ReadsEmbedding(after,
      if l.Some? then l.value.embedding else EmbeddingState(None, None, None, None, "PENDING"))
  {
    hide StepRow, Owner;
    forall c: Column | Owner(c) == Embedder
      ensures r.Some? ==> after[c] == r.value[c]
      ensures r.None? ==> after[c] == (if c == EmbeddingStatus then Text("PENDING") else Null)
    {
      EmbeddingAfterUpsert(r, op, after, c);
    }
    if r.Some? {
      EmbeddingKept(r.value, after, l.value.embedding);
    } else {
      EmbeddingColumns();
    }
  }

  lemma FactsRefine(r: Row, e: EventData, at: Instant)
    requires Shows(r, e, at)
    ensures ReadsFacts(r, FactsOf(e.characteristics))
  {
    ShownRooms(r, e, at);
    ShownFeatures(r, e, at);
    hide Shows, OfBool, OfText, Truncate;
  }

  lemma BasicsRefine(r: Row, e: EventData, at: Instant)
    requires Shows(r, e, at) && r[Id] == Uid(e.id)
    ensures ReadsBasics(r, Basics(e.id, e.organizationId, ListingProjection.Or(e.title, "Property"), e.status,
                                  e.listingType, e.typology))
  {
    ShownBasics(r, e, at);
    hide Shows;
  }

  lemma AgencyRefines(r: Option<Row>, l: Option<Listing>, op: Op, after: Row)
    requires TakesEffect(r, op) && StepRow(r, op) == Some(after) && r.Some? == l.Some?
    requires r.Some? ==> ReadsAgency(r.value, l.value.agency) && r.value[Pois] == PoiList(l.value.pois)
    ensures ReadsAgency(after,
      if op.agency.Some? then op.agency.value else if l.Some? then l.value.agency else AgencyContact(None, None, None))
    ensures after[Pois] ==
      PoiList(if op.event.pois.Some? then op.event.pois.value else if l.Some? then l.value.pois else [])
  {
    AgencyAfterUpsert(r, op, after);
    PoisAfterUpsert(r, op, after);
    hide StepRow, ReadsAgency;
  }

  /** An upsert that takes effect and can be read: the row reads as what the other adapter records. */
  lemma UpsertRefines(decimal: DecimalReader, r: Option<Row>, l: Option<Listing>, op: Op, after: Row)
    requires TakesEffect(r, op) && StepRow(r, op) == Some(after) && Related(decimal, op.event.id, r, l)
    requires Readable(op.event) && ReadWith(decimal, op.event)
    ensures PricesOf(op.event.prices).Some?
    ensures Reads(decimal, after,
                  Recorded(l, op.event, op.occurredAt, op.agency, op.now, PricesOf(op.event.prices).value))
  {
    var e, at := op.event, op.occurredAt;
    UpsertShows(r, op);
    StampsAfterUpsert(r, op, after);
    IdRead(decimal, op.event.id, r, l);
    hide StepRow, Shows, ReadsBasics, ReadsLocation, ReadsEmbedding, ReadsFacts, ReadsMedia, ReadsAgency;
    hide Readable, ReadWith, FactsOf, PricesOf, KeptImages, Cheapest, CoverImage, ListingProjection.Or;
    MediaRead(decimal, after, e, at);
    FactsRefine(after, e, at);
    ShownSource(after, e, at);
    BasicsRefine(after, e, at);
    AgencyRefines(r, l, op, after);
    LocationRefines(r, l, op, after);
    EmbeddingRefines(r, l, op, after);
  }

  lemma IdRead(decimal: DecimalReader, id: Uuid, r: Option<Row>, l: Option<Listing>)
    requires Related(decimal, id, r, l)
    ensures r.Some? ==> r.value[Id] == Uid(id)
  {
    hide ReadsLocation, ReadsEmbedding, ReadsFacts, ReadsMedia, ReadsAgency, ReadsStamps;
  }

  /**
   One write on both sides. They keep step exactly when the write is not an upsert that takes effect with an event
   that cannot be read back.
   */
  lemma StepAgreesIff(decimal: DecimalReader, r: Option<Row>, l: Option<Listing>, op: Op)
    requires Related(decimal, Target(op), r, l) && (op.Upsert? ==> ReadWith(decimal, op.event))
    ensures Related(decimal, Target(op), StepRow(r, op), StepListing(l, op)) <==>
      (TakesEffect(r, op) ==> Readable(op.event))
  {
    hide Reads, StepRow, Readable, ReadWith, Recorded, LocationOf, PricesOf, ReadsMedia;
    SameVersion(decimal, Target(op), r, l);
    Guards(r, op);
    if TakesEffect(r, op) {
      UpsertShows(r, op);
      UpsertAgreesIff(decimal, r, l, op, StepRow(r, op).value);
    } else if r.Some? && By(op) != PropertyEvents {
      HandlersAgree(decimal, r.value, l.value, op);
    }
  }

  lemma SameVersion(decimal: DecimalReader, id: Uuid, r: Option<Row>, l: Option<Listing>)
    requires Related(decimal, id, r, l)
    ensures r.Some? ==> l.Some? && Version(r.value) == l.value.version
  {
    hide ReadsBasics, ReadsLocation, ReadsEmbedding, ReadsFacts, ReadsMedia, ReadsAgency;
  }

  lemma UpsertAgreesIff(decimal: DecimalReader, r: Option<Row>, l: Option<Listing>, op: Op, after: Row)
    requires TakesEffect(r, op) && StepRow(r, op) == Some(after) && Related(decimal, op.event.id, r, l)
    requires ReadWith(decimal, op.event)
    ensures Related(decimal, op.event.id, Some(after), StepListing(l, op)) <==> Readable(op.event)
  {
    hide Reads, StepRow, Shows, Readable, ReadWith, PricesOf;
    if Readable(op.event) {
      SameVersion(decimal, op.event.id, r, l);
      UpsertRefines(decimal, r, l, op, after);
    } else {
      UpsertShows(r, op);
      NothingRead(decimal, after, op.event, op.occurredAt);
    }
  }

  lemma NothingRead(decimal: DecimalReader, r: Row, e: EventData, at: Instant)
    requires Shows(r, e, at) && ReadWith(decimal, e) && !Readable(e)
    ensures forall l :: !Reads(decimal, r, l)
  {
    hide ReadsBasics, ReadsLocation, ReadsEmbedding, ReadsFacts, ReadsMedia, ReadsAgency, ReadsStamps;
    MediaRead(decimal, r, e, at);
  }

  lemma HandlersAgree(decimal: DecimalReader, r: Row, l: Listing, op: Op)
    requires Reads(decimal, r, l) && By(op) != PropertyEvents
    ensures StepRow(Some(r), op).Some? && StepListing(Some(l), op).Some?
    ensures Reads(decimal, StepRow(Some(r), op).value, StepListing(Some(l), op).value)
    ensures StepListing(Some(l), op).value.basics == l.basics
  {
    hide Reads, StepRow;
    Guards(Some(r), op);
    if By(op) == AddressEnrichment {
      AddressRefines(decimal, r, l, op, StepRow(Some(r), op).value);
    } else {
      EmbedderRefines(decimal, r, l, op, StepRow(Some(r), op).value);
    }
  }
}
