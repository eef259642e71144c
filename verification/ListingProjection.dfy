/**
 The `property_listings` read model and its writers.

 Three handlers write one row: the projector (`upsert_from_event`, `delete_if_newer`), the address
 enrichment handler (`update_location`, `increment_enrichment_attempts`) and the embedding handler
 (`set_embedding_indexed`, `set_embedding_status`). Each repository method is one atomic step.
 */
module ListingProjection {
  import opened Prelude
  import opened Sql

  /** `amount` as it arrives: absent, not a number, or a number with its text. */
  datatype Amount = NoAmount | Malformed(text: string) | Parsed(text: string, value: real)
  datatype PriceData = PriceData(amount: Amount, listingType: Option<string>)

  datatype Characteristics = Characteristics(
    numOfBedrooms: Option<int>, numOfBathrooms: Option<int>, areaInM2: Option<real>,
    hasPool: Option<bool>, hasGarden: Option<bool>, hasElevator: Option<bool>,
    floor: Option<int>, parkingSpaces: Option<int>, builtAt: Option<int>, energyRating: Option<string>)

  /** The carried-state payload of a `PROPERTY_*` event. `pois` is None when the key is absent. */
  datatype EventData = EventData(
    id: Uuid, organizationId: Uuid, title: Option<string>,
    status: PropertyStatus, listingType: ListingType, typology: Typology,
    country: Option<string>, characteristics: Characteristics,
    prices: seq<PriceData>, images: seq<ImageData>,
    description: Option<string>, latitude: Option<real>, longitude: Option<real>,
    aggregateVersion: int, pois: Option<seq<Poi>>)

  datatype AgencyContact = AgencyContact(name: Option<string>, email: Option<string>, phone: Option<string>)

  datatype ParsedAddress = ParsedAddress(
    country: string, parish: Option<string>, municipality: Option<string>, district: Option<string>,
    city: Option<string>, state: Option<string>, region: Option<string>)

  // ---------- Mapping an event to a row dict ----------

  /** Python's `x or default` for an optional string: None and "" both fall through. */
  function Or(o: Option<string>, default: string): string {
    if o.Some? && o.value != "" then o.value else default
  }

  /** Python's `int(x)`: truncation toward zero. */
  function Truncate(x: real): int {
    if x >= 0.0 then x.Floor else -((-x).Floor)
  }

  ghost predicate IsCheapest(prices: seq<PriceData>, m: Option<real>) {
    match m
    case None => forall i :: 0 <= i < |prices| ==> !prices[i].amount.Parsed?
    case Some(d) =>
      && (exists i :: 0 <= i < |prices| && prices[i].amount.Parsed? && prices[i].amount.value == d)
      && (forall i :: 0 <= i < |prices| && prices[i].amount.Parsed? ==> d <= prices[i].amount.value)
  }

  function Cheapest(prices: seq<PriceData>): (m: Option<real>)
    ensures IsCheapest(prices, m)
  {
    if prices == [] then None
    else
      var rest := Cheapest(prices[..|prices| - 1]);
      var last := prices[|prices| - 1].amount;
      if last.Parsed? && (rest.None? || last.value < rest.value) then Some(last.value) else rest
  }

  function FirstAtZero(images: seq<ImageData>): Option<string> {
    if images == [] then None
    else if images[0].displayOrder == Some(0) then images[0].s3Key
    else FirstAtZero(images[1..])
  }

  function CoverImage(images: seq<ImageData>): Option<string> {
    if FirstAtZero(images).None? && images != [] then images[0].s3Key else FirstAtZero(images)
  }

  /** The cover is the key of the first image at position 0 when it has one, else that of the first image. */
  lemma {:induction false} CoverIsFirstAtZero(images: seq<ImageData>, i: nat)
    requires i < |images| && images[i].displayOrder == Some(0)
    requires forall j :: 0 <= j < i ==> images[j].displayOrder != Some(0)
    ensures FirstAtZero(images) == images[i].s3Key
    ensures CoverImage(images) == if images[i].s3Key.Some? then images[i].s3Key else images[0].s3Key
  {
    if i > 0 {
      CoverIsFirstAtZero(images[1..], i - 1);
    }
  }

  lemma NoImageAtZero(images: seq<ImageData>)
    requires forall j :: 0 <= j < |images| ==> images[j].displayOrder != Some(0)
    ensures CoverImage(images) == if images == [] then None else images[0].s3Key
  {
    NothingAtZero(images);
  }

  lemma {:induction false} NothingAtZero(images: seq<ImageData>)
    requires forall j :: 0 <= j < |images| ==> images[j].displayOrder != Some(0)
    ensures FirstAtZero(images).None?
  {
    if images != [] {
      NothingAtZero(images[1..]);
    }
  }

  function PriceCells(prices: seq<PriceData>): seq<PriceCell> {
    if prices == [] then []
    else
      var p := prices[0];
      (if !p.amount.NoAmount? && p.listingType.Some?
       then [PriceCell(p.amount.text, p.listingType.value)] else []) + PriceCells(prices[1..])
  }

  // ---------- The row dict of `_event_to_row`, section by section ----------

  function IdentityPart(e: EventData): map<Column, Value> {
    map[Id := Uid(e.id), OrganizationId := Uid(e.organizationId), Title := Text(Or(e.title, "Property")),
        Status := Stage(e.status), Kind := Offer(e.listingType), Building := Shape(e.typology)]
  }

  function PlacePart(e: EventData): map<Column, Value> {
    map[Parish := Null, Municipality := Null, District := Null, Country := Text(Or(e.country, "Portugal")),
        City := Null, State := Null, Region := Null]
  }

  function RoomsPart(k: Characteristics): map<Column, Value> {
    map[NumOfBedrooms := OfInt(k.numOfBedrooms), NumOfBathrooms := OfInt(k.numOfBathrooms),
        AreaInM2 := if k.areaInM2.Some? then Int(Truncate(k.areaInM2.value)) else Null,
        BuiltAt := OfInt(k.builtAt), EnergyRating := OfText(k.energyRating)]
  }

  function FeaturesPart(k: Characteristics): map<Column, Value> {
    map[HasPool := OfBool(k.hasPool), HasGarden := OfBool(k.hasGarden), HasElevator := OfBool(k.hasElevator),
        Floor := OfInt(k.floor), ParkingSpaces := OfInt(k.parkingSpaces)]
  }

  function ContentPart(e: EventData, minPrice: Option<real>, firstImage: Option<string>): map<Column, Value> {
    map[MinPrice := OfNum(minPrice), FirstImageS3Key := OfText(firstImage), Images := ImageList(e.images),
        Prices := PriceList(PriceCells(e.prices))]
  }

  function DescriptionPart(e: EventData): map<Column, Value> {
    map[Description := OfText(e.description), Latitude := OfNum(e.latitude), Longitude := OfNum(e.longitude)]
  }

  function BookkeepingPart(e: EventData, occurredAt: Instant): map<Column, Value> {
    map[LocationEnrichedAt := Null, LocationEnrichmentAttempts := Int(0),
        SourceAggregateVersion := Int(e.aggregateVersion), SourceOccurredAt := Time(occurredAt)]
  }

  function AgencyPart(agency: Option<AgencyContact>): map<Column, Value> {
    if agency.None? then map[]
    else map[AgencyName := OfText(agency.value.name), AgencyEmail := OfText(agency.value.email),
             AgencyPhone := OfText(agency.value.phone)]
  }

  function PoisPart(pois: Option<seq<Poi>>): map<Column, Value> {
    if pois.None? then map[] else map[Pois := PoiList(pois.value)]
  }

  /** Which section a column is in. */
  datatype Section =
    | Identity | Place | Rooms | Features | Content | Descriptive | Bookkeeping | Agency | Points | Absent

  function SectionOf(c: Column): Section {
    match c
    case Id | OrganizationId | Title | Status | Kind | Building => Identity
    case Parish | Municipality | District | Country | City | State | Region => Place
    case NumOfBedrooms | NumOfBathrooms | AreaInM2 | BuiltAt | EnergyRating => Rooms
    case HasPool | HasGarden | HasElevator | Floor | ParkingSpaces => Features
    case MinPrice | FirstImageS3Key | Images | Prices => Content
    case Description | Latitude | Longitude => Descriptive
    case LocationEnrichedAt | LocationEnrichmentAttempts | SourceAggregateVersion | SourceOccurredAt => Bookkeeping
    case AgencyName | AgencyEmail | AgencyPhone => Agency
    case Pois => Points
    case _ => Absent
  }

  lemma IdentityKeys(e: EventData, c: Column)
    ensures c in IdentityPart(e) <==> SectionOf(c) == Identity
  {
  }

  lemma PlaceKeys(e: EventData, c: Column)
    ensures c in PlacePart(e) <==> SectionOf(c) == Place
  {
  }

  lemma RoomsKeys(k: Characteristics, c: Column)
    ensures c in RoomsPart(k) <==> SectionOf(c) == Rooms
  {
  }

  lemma FeaturesKeys(k: Characteristics, c: Column)
    ensures c in FeaturesPart(k) <==> SectionOf(c) == Features
  {
  }

  lemma ContentKeys(e: EventData, m: Option<real>, f: Option<string>, c: Column)
    ensures c in ContentPart(e, m, f) <==> SectionOf(c) == Content
  {
  }

  lemma DescriptiveKeys(e: EventData, c: Column)
    ensures c in DescriptionPart(e) <==> SectionOf(c) == Descriptive
  {
  }

  lemma BookkeepingKeys(e: EventData, at: Instant, c: Column)
    ensures c in BookkeepingPart(e, at) <==> SectionOf(c) == Bookkeeping
  {
  }

  lemma AgencyKeys(a: Option<AgencyContact>, c: Column)
    ensures c in AgencyPart(a) <==> SectionOf(c) == Agency && a.Some?
  {
  }

  lemma PointsKeys(p: Option<seq<Poi>>, c: Column)
    ensures c in PoisPart(p) <==> SectionOf(c) == Points && p.Some?
  {
  }

  function RowOf(e: EventData, occurredAt: Instant, agency: Option<AgencyContact>): map<Column, Value> {
    IdentityPart(e) + PlacePart(e) + RoomsPart(e.characteristics) + FeaturesPart(e.characteristics)
    + ContentPart(e, Cheapest(e.prices), CoverImage(e.images)) + DescriptionPart(e) + BookkeepingPart(e, occurredAt)
    + AgencyPart(agency) + PoisPart(e.pois)
  }

  /** What is under a column is what its section says. */
  lemma RowSection(e: EventData, at: Instant, agency: Option<AgencyContact>, c: Column)
    ensures Lookup(RowOf(e, at, agency), c) ==
      match SectionOf(c)
      case Identity => Lookup(IdentityPart(e), c)
      case Place => Lookup(PlacePart(e), c)
      case Rooms => Lookup(RoomsPart(e.characteristics), c)
      case Features => Lookup(FeaturesPart(e.characteristics), c)
      case Content => Lookup(ContentPart(e, Cheapest(e.prices), CoverImage(e.images)), c)
      case Descriptive => Lookup(DescriptionPart(e), c)
      case Bookkeeping => Lookup(BookkeepingPart(e, at), c)
      case Agency => Lookup(AgencyPart(agency), c)
      case Points => Lookup(PoisPart(e.pois), c)
      case Absent => None
  {
    SectionKeys(e, at, agency, c);
    hide IdentityPart, PlacePart, RoomsPart, FeaturesPart, ContentPart, DescriptionPart, BookkeepingPart;
    hide AgencyPart, PoisPart, SectionOf, Cheapest, CoverImage;
  }

  lemma SectionKeys(e: EventData, at: Instant, agency: Option<AgencyContact>, c: Column)
    ensures c in IdentityPart(e) <==> SectionOf(c) == Identity
    ensures c in PlacePart(e) <==> SectionOf(c) == Place
    ensures c in RoomsPart(e.characteristics) <==> SectionOf(c) == Rooms
    ensures c in FeaturesPart(e.characteristics) <==> SectionOf(c) == Features
    ensures c in ContentPart(e, Cheapest(e.prices), CoverImage(e.images)) <==> SectionOf(c) == Content
    ensures c in DescriptionPart(e) <==> SectionOf(c) == Descriptive
    ensures c in BookkeepingPart(e, at) <==> SectionOf(c) == Bookkeeping
    ensures c in AgencyPart(agency) <==> SectionOf(c) == Agency && agency.Some?
    ensures c in PoisPart(e.pois) <==> SectionOf(c) == Points && e.pois.Some?
  {
    hide IdentityPart, PlacePart, RoomsPart, FeaturesPart, ContentPart, DescriptionPart, BookkeepingPart;
    hide AgencyPart, PoisPart, SectionOf, Cheapest, CoverImage;
    IdentityKeys(e, c);
    PlaceKeys(e, c);
    RoomsKeys(e.characteristics, c);
    FeaturesKeys(e.characteristics, c);
    ContentKeys(e, Cheapest(e.prices), CoverImage(e.images), c);
    DescriptiveKeys(e, c);
    BookkeepingKeys(e, at, c);
    AgencyKeys(agency, c);
    PointsKeys(e.pois, c);
  }

  function EventRow(e: EventData, occurredAt: Instant, agency: Option<AgencyContact>): (row: map<Column, Value>)
    ensures Insertable(row) && row[SourceAggregateVersion] == Int(e.aggregateVersion)
  {
    CanInsert(e, occurredAt, agency);
    RowOf(e, occurredAt, agency)
  }

  lemma CanInsert(e: EventData, at: Instant, agency: Option<AgencyContact>)
    ensures Insertable(RowOf(e, at, agency)) && RowOf(e, at, agency)[SourceAggregateVersion] == Int(e.aggregateVersion)
    ensures RowOf(e, at, agency)[LocationEnrichmentAttempts] == Int(0)
  {
    hide RowOf, IdentityPart, PlacePart, RoomsPart, FeaturesPart, ContentPart, DescriptionPart, AgencyPart, PoisPart;
    RowSection(e, at, agency, SourceAggregateVersion);
    RowSection(e, at, agency, LocationEnrichmentAttempts);
    RowSection(e, at, agency, CreatedAt);
    RowSection(e, at, agency, UpdatedAt);
  }

  /** What the row dict holds under a column, or None when it has no such key. */
  function Cell(e: EventData, occurredAt: Instant, agency: Option<AgencyContact>, c: Column): Option<Value> {
    Lookup(EventRow(e, occurredAt, agency), c)
  }

  /** The dict names the typed columns the database has no use of defaults for, and never the clock columns. */
  predicate Insertable(row: map<Column, Value>) {
    && SourceAggregateVersion in row && row[SourceAggregateVersion].Int?
    && LocationEnrichmentAttempts in row && row[LocationEnrichmentAttempts].Int?
    && CreatedAt !in row && UpdatedAt !in row
  }

  lemma TypedCells(e: EventData, occurredAt: Instant, agency: Option<AgencyContact>)
    ensures Cell(e, occurredAt, agency, SourceAggregateVersion) == Some(Int(e.aggregateVersion))
    ensures Cell(e, occurredAt, agency, LocationEnrichmentAttempts) == Some(Int(0))
    ensures Cell(e, occurredAt, agency, CreatedAt).None? && Cell(e, occurredAt, agency, UpdatedAt).None?
  {
    hide RowOf;
    CanInsert(e, occurredAt, agency);
  }

  /** The first loop of `_event_to_row`: prices without a usable amount are skipped. */
  method FindMinPrice(prices: seq<PriceData>) returns (minPrice: Option<real>)
    ensures minPrice == Cheapest(prices)
    ensures IsCheapest(prices, minPrice)
  {
    minPrice := None;
    for i := 0 to |prices|
      invariant minPrice == Cheapest(prices[..i])
    {
      assert prices[..i + 1][..i] == prices[..i];
      if prices[i].amount.Parsed? {
        var amount := prices[i].amount.value;
        if minPrice.None? || amount < minPrice.value {
          minPrice := Some(amount);
        }
      }
    }
    assert prices[..|prices|] == prices;
  }

  /** The second loop: the image at position 0, else the first one. */
  method FindCoverImage(images: seq<ImageData>) returns (cover: Option<string>)
    ensures cover == CoverImage(images)
  {
    cover := None;
    var j := 0;
    while j < |images|
      invariant j <= |images|
      invariant cover == None
      invariant FirstAtZero(images) == FirstAtZero(images[j..])
    {
      if images[j].displayOrder == Some(0) {
        cover := images[j].s3Key;
        break;
      }
      j := j + 1;
    }
    if cover.None? && images != [] {
      cover := images[0].s3Key;
    }
  }

  /** `_event_to_row`. */
  method EventToRow(e: EventData, occurredAt: Instant, agency: Option<AgencyContact>)
    returns (row: map<Column, Value>)
    ensures row == EventRow(e, occurredAt, agency)
  {
    var minPrice := FindMinPrice(e.prices);
    var firstImage := FindCoverImage(e.images);
    row := IdentityPart(e) + PlacePart(e) + RoomsPart(e.characteristics) + FeaturesPart(e.characteristics)
      + ContentPart(e, minPrice, firstImage) + DescriptionPart(e) + BookkeepingPart(e, occurredAt);
    row := WithSupplied(row, agency, e.pois);
  }

  /** Agency and POI keys are added only when they were supplied. */
  method WithSupplied(dict: map<Column, Value>, agency: Option<AgencyContact>, pois: Option<seq<Poi>>)
    returns (row: map<Column, Value>)
    ensures row == dict + AgencyPart(agency) + PoisPart(pois)
  {
    row := dict;
    if agency.Some? {
      row := row[AgencyName := OfText(agency.value.name)];
      row := row[AgencyEmail := OfText(agency.value.email)];
      row := row[AgencyPhone := OfText(agency.value.phone)];
    }
    if pois.Some? {
      row := row[Pois := PoiList(pois.value)];
    }
  }

  // ---------- The writers, as steps of one row and of the table ----------

  datatype Op =
    | Upsert(event: EventData, occurredAt: Instant, agency: Option<AgencyContact>, now: Instant)
    | Delete(id: Uuid, version: int)
    | UpdateLocation(id: Uuid, parsed: ParsedAddress, now: Instant)
    | IncrementAttempts(id: Uuid)
    | SetEmbeddingIndexed(id: Uuid, textHash: string, textVersion: string, modelVersion: string, embeddedAt: Instant)
    | SetEmbeddingStatus(id: Uuid, status: string)

  function Target(op: Op): Uuid {
    if op.Upsert? then op.event.id else op.id
  }

  /** The columns `on_conflict_do_update` keeps out of its SET clause. */
  predicate NotInSet(c: Column) {
    match c
    case Id | CreatedAt => true
    case Parish | Municipality | District | Country | City | State | Region => true
    case LocationEnrichedAt | LocationEnrichmentAttempts => true
    case EmbeddingTextHash | CanonicalTextVersion | EmbeddingModelVersion | EmbeddedAt | EmbeddingStatus => true
    case _ => false
  }

  /** INSERT: columns the dict does not name take the database default. */
  function Inserted(row: map<Column, Value>, now: Instant): Row
    requires Insertable(row)
  {
    DefaultCells(now) + row
  }

  /** ON CONFLICT DO UPDATE: the dict minus the excluded columns, and `updated_at = now()`. */
  function Overwritten(r: Row, row: map<Column, Value>, now: Instant): Row
    requires Insertable(row)
  {
    r + (map c | c in row && !NotInSet(c) :: row[c]) + map[UpdatedAt := Time(now)]
  }

  /** Which handler a column belongs to after the row exists. */
  datatype Writer = Projector | ProjectorIfSupplied | ProjectorClock | Enricher | Embedder | Insertion

  function Owner(c: Column): Writer {
    match c
    case Id | CreatedAt => Insertion
    case UpdatedAt => ProjectorClock
    case Pois | AgencyName | AgencyEmail | AgencyPhone => ProjectorIfSupplied
    case Parish | Municipality | District | Country | City | State | Region => Enricher
    case LocationEnrichedAt | LocationEnrichmentAttempts => Enricher
    case EmbeddingTextHash | CanonicalTextVersion | EmbeddingModelVersion | EmbeddedAt | EmbeddingStatus => Embedder
    case _ => Projector
  }

  function Relocated(r: Row, p: ParsedAddress, now: Instant): Row {
    r[Parish := OfText(p.parish)][Municipality := OfText(p.municipality)][District := OfText(p.district)]
     [Country := Text(p.country)][City := OfText(p.city)][State := OfText(p.state)][Region := OfText(p.region)]
     [LocationEnrichedAt := Time(now)][LocationEnrichmentAttempts := Int(Attempts(r) + 1)]
  }

  function Indexed(r: Row, textHash: string, textVersion: string, modelVersion: string, at: Instant): Row {
    r[EmbeddingTextHash := Text(textHash)][CanonicalTextVersion := Text(textVersion)]
     [EmbeddingModelVersion := Text(modelVersion)][EmbeddedAt := Time(at)][EmbeddingStatus := Text("INDEXED")]
  }

  function StepRow(r: Option<Row>, op: Op): Option<Row> {
    match op
    case Upsert(e, at, agency, now) =>
      var row := EventRow(e, at, agency);
      if r.None? then Some(Inserted(row, now))
      else if Version(r.value) < e.aggregateVersion then Some(Overwritten(r.value, row, now))
      else r
    case Delete(_, version) =>
      if r.Some? && Version(r.value) < version then None else r
    case UpdateLocation(_, p, now) =>
      if r.None? then None else Some(Relocated(r.value, p, now))
    case IncrementAttempts(_) =>
      if r.None? then None else Some(r.value[LocationEnrichmentAttempts := Int(Attempts(r.value) + 1)])
    case SetEmbeddingIndexed(_, h, t, m, at) =>
      if r.None? then None else Some(Indexed(r.value, h, t, m, at))
    case SetEmbeddingStatus(_, s) =>
      if r.None? then None else Some(r.value[EmbeddingStatus := Text(s)])
  }

  function Step(t: Table, op: Op): Table {
    match StepRow(Lookup(t, Target(op)), op)
    case Some(r) => t[Target(op) := r]
    case None => t - {Target(op)}
  }

  /** The table after a delivery sequence, first to last. */
  function Run(t: Table, ops: seq<Op>): Table {
    if ops == [] then t else Step(Run(t, ops[..|ops| - 1]), ops[|ops| - 1])
  }

  lemma {:induction false} RunConcat(t: Table, a: seq<Op>, b: seq<Op>)
    ensures Run(t, a + b) == Run(Run(t, a), b)
  {
    if b == [] {
      assert a + b == a;
    } else {
      RunConcat(t, a, b[..|b| - 1]);
      assert (a + b)[..|a + b| - 1] == a + b[..|b| - 1];
    }
  }

  lemma RunTwo(t: Table, a: Op, b: Op)
    ensures Run(t, [a]) == Step(t, a) && Run(t, [a, b]) == Step(Step(t, a), b)
  {
    hide Step;
    assert [a][..0] == [] && [a, b][..1] == [a];
  }

  lemma StepTouchesOnlyItsTarget(t: Table, op: Op, id: Uuid)
    ensures Lookup(Step(t, op), id) == if id == Target(op) then StepRow(Lookup(t, id), op) else Lookup(t, id)
  {
  }

  // ---------- One cell at a time ----------

  lemma EventCell(e: EventData, at: Instant, agency: Option<AgencyContact>, c: Column)
    ensures c in EventRow(e, at, agency) <==> Cell(e, at, agency, c).Some?
    ensures c in EventRow(e, at, agency) ==> EventRow(e, at, agency)[c] == Cell(e, at, agency, c).value
  {
  }

  /**
   The row dict: it names every column but the embedder's and the two clocks; agency and POI columns only when
   they were supplied.
   */
  lemma RowDictKeys(e: EventData, at: Instant, agency: Option<AgencyContact>, c: Column)
    ensures c in EventRow(e, at, agency) <==>
      && Owner(c) != Embedder && c != CreatedAt && c != UpdatedAt
      && (c in {AgencyName, AgencyEmail, AgencyPhone} ==> agency.Some?)
      && (c == Pois ==> e.pois.Some?)
  {
    hide RowOf, IdentityPart, PlacePart, RoomsPart, FeaturesPart, ContentPart, DescriptionPart, BookkeepingPart;
    hide AgencyPart, PoisPart;
    SectionKeys(e, at, agency, c);
    RowSection(e, at, agency, c);
  }

  /** What the queries and the writers rely on: who and which version, what is searched for, nothing enriched yet. */
  lemma RowDictColumns(e: EventData, at: Instant, agency: Option<AgencyContact>)
    ensures Cell(e, at, agency, Id) == Some(Uid(e.id))
    ensures Cell(e, at, agency, Status) == Some(Stage(e.status))
    ensures Cell(e, at, agency, Kind) == Some(Offer(e.listingType))
    ensures Cell(e, at, agency, Building) == Some(Shape(e.typology))
    ensures Cell(e, at, agency, Title).Some? && Cell(e, at, agency, Title).value.Text?
      && Cell(e, at, agency, Title).value.s != ""
  {
    hide RowOf, PlacePart, RoomsPart, FeaturesPart, ContentPart, DescriptionPart, BookkeepingPart, AgencyPart, PoisPart;
    RowSection(e, at, agency, Id);
    RowSection(e, at, agency, Status);
    RowSection(e, at, agency, Kind);
    RowSection(e, at, agency, Building);
    RowSection(e, at, agency, Title);
  }

  /** The price column is NULL exactly when no amount could be read, and else a lower bound that is attained. */
  lemma RowDictPrice(e: EventData, at: Instant, agency: Option<AgencyContact>)
    ensures Cell(e, at, agency, MinPrice) == Some(Null) <==> forall p :: p in e.prices ==> !p.amount.Parsed?
    ensures Cell(e, at, agency, MinPrice) != Some(Null) ==>
      exists p :: p in e.prices && p.amount.Parsed? && Cell(e, at, agency, MinPrice) == Some(Num(p.amount.value))
        && forall q :: q in e.prices && q.amount.Parsed? ==> p.amount.value <= q.amount.value
  {
    hide RowOf, IdentityPart, PlacePart, RoomsPart, FeaturesPart, DescriptionPart, BookkeepingPart;
    hide AgencyPart, PoisPart;
    RowSection(e, at, agency, MinPrice);
    var m := Cheapest(e.prices);
    assert IsCheapest(e.prices, m);
    if m.Some? {
      var i :| 0 <= i < |e.prices| && e.prices[i].amount.Parsed? && e.prices[i].amount.value == m.value;
      assert e.prices[i] in e.prices;
    }
  }

  /** What the enrichment handler will fill in: nothing yet but the country, and no attempt counted. */
  lemma RowDictPlace(e: EventData, at: Instant, agency: Option<AgencyContact>, c: Column)
    requires Owner(c) == Enricher
    ensures Cell(e, at, agency, c) ==
      if c == Country then Some(Text(Or(e.country, "Portugal")))
      else if c == LocationEnrichmentAttempts then Some(Int(0)) else Some(Null)
  {
    hide RowOf, IdentityPart, RoomsPart, FeaturesPart, ContentPart, DescriptionPart, AgencyPart, PoisPart, Or;
    RowSection(e, at, agency, c);
    PlaceKeys(e, c);
    BookkeepingKeys(e, at, c);
  }

  lemma InsertedCell(row: map<Column, Value>, now: Instant, c: Column)
    requires Insertable(row)
    ensures Inserted(row, now)[c] == if c in row then row[c] else DefaultCell(c, now)
  {
  }

  lemma OverwrittenCell(r: Row, row: map<Column, Value>, now: Instant, c: Column)
    requires Insertable(row)
    ensures Overwritten(r, row, now)[c] ==
      if c == UpdatedAt then Time(now) else if c in row && !NotInSet(c) then row[c] else r[c]
  {
  }

  lemma RelocatedCell(r: Row, p: ParsedAddress, now: Instant, c: Column)
    requires Owner(c) != Enricher
    ensures Relocated(r, p, now)[c] == r[c]
  {
  }

  lemma IndexedCell(r: Row, h: string, t: string, m: string, at: Instant, c: Column)
    requires Owner(c) != Embedder
    ensures Indexed(r, h, t, m, at)[c] == r[c]
  {
  }

  // ---------- The repository ----------

  /** `SqlAlchemyPropertyListingRepository`; every method is a transaction of its own. */
  class PropertyListingRepository {
    var rows: Table

    constructor ()
      ensures rows == map[]
    {
      rows := map[];
    }

    /**
     INSERT ... ON CONFLICT (id) DO UPDATE ... WHERE stored version < incoming version, then a re-fetch.
     The port documents None for a dropped write; the code returns the stored row either way.
     */
    method UpsertFromEvent(e: EventData, occurredAt: Instant, agency: Option<AgencyContact>, now: Instant)
      returns (stored: Option<Row>)
      modifies this
      ensures rows == Step(old(rows), Upsert(e, occurredAt, agency, now))
      ensures e.id in rows && stored == Some(rows[e.id])
    {
      hide EventRow, DefaultCells;
      var row := EventToRow(e, occurredAt, agency);
      if e.id !in rows {
        rows := rows[e.id := Inserted(row, now)];
      } else if Version(rows[e.id]) < e.aggregateVersion {
        rows := rows[e.id := Overwritten(rows[e.id], row, now)];
      }
      stored := Lookup(rows, e.id);
    }

    method DeleteIfNewer(id: Uuid, version: int) returns (deleted: bool)
      modifies this
      ensures rows == Step(old(rows), Delete(id, version))
      ensures deleted <==> id in old(rows) && Version(old(rows)[id]) < version
      ensures deleted <==> id in old(rows) && id !in rows
    {
      if id !in rows {
        return false;
      }
      if Version(rows[id]) >= version {
        return false;
      }
      rows := rows - {id};
      return true;
    }

    method UpdateLocation(id: Uuid, p: ParsedAddress, now: Instant) returns (stored: Option<Row>)
      modifies this
      ensures rows == Step(old(rows), Op.UpdateLocation(id, p, now))
      ensures stored == Lookup(rows, id)
    {
      if id !in rows {
        return None;
      }
      var model := rows[id];
      model := model[Parish := OfText(p.parish)][Municipality := OfText(p.municipality)];
      model := model[District := OfText(p.district)][Country := Text(p.country)];
      model := model[City := OfText(p.city)][State := OfText(p.state)][Region := OfText(p.region)];
      model := model[LocationEnrichedAt := Time(now)];
      model := model[LocationEnrichmentAttempts := Int(Attempts(model) + 1)];
      rows := rows[id := model];
      return Some(model);
    }

    method IncrementEnrichmentAttempts(id: Uuid) returns (stored: Option<Row>)
      modifies this
      ensures rows == Step(old(rows), IncrementAttempts(id))
      ensures stored == Lookup(rows, id)
    {
      if id !in rows {
        return None;
      }
      var model := rows[id][LocationEnrichmentAttempts := Int(Attempts(rows[id]) + 1)];
      rows := rows[id := model];
      return Some(model);
    }

    method SetEmbeddingIndexed(
        id: Uuid, textHash: string, textVersion: string, modelVersion: string, embeddedAt: Instant)
      returns (stored: Option<Row>)
      modifies this
      ensures rows == Step(old(rows), Op.SetEmbeddingIndexed(id, textHash, textVersion, modelVersion, embeddedAt))
      ensures stored == Lookup(rows, id)
    {
      if id !in rows {
        return None;
      }
      var model := rows[id][EmbeddingTextHash := Text(textHash)][CanonicalTextVersion := Text(textVersion)];
      model := model[EmbeddingModelVersion := Text(modelVersion)][EmbeddedAt := Time(embeddedAt)];
      model := model[EmbeddingStatus := Text("INDEXED")];
      rows := rows[id := model];
      return Some(model);
    }

    method SetEmbeddingStatus(id: Uuid, status: string) returns (stored: Option<Row>)
      modifies this
      ensures rows == Step(old(rows), Op.SetEmbeddingStatus(id, status))
      ensures stored == Lookup(rows, id)
    {
      if id !in rows {
        return None;
      }
      var model := rows[id][EmbeddingStatus := Text(status)];
      rows := rows[id := model];
      return Some(model);
    }
  }
}
