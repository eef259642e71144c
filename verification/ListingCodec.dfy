/**
 The cache codec: typed listings, pages and search results to plain dictionaries and back.
 UUIDs, decimals and datetimes become text as `UuidText`, `DecimalText` and `DateTimeText` say.
 */
module ListingCodec {
  import opened Prelude
  import DateTimeText
  import DecimalText
  import Sql
  import UuidText

  datatype PoiCategory =
    | Hospital | Bank | Grocery | School | Pharmacy | Gym | Restaurant | CoffeeShop | Laundry | GasStation
    | PublicTransit | Kindergarten | Park | PostOffice | Library | ShoppingMall | Bakery | PoliceStation
    | TireShop | AutoShop

  /** The keys of the dictionaries. */
  datatype Key =
    | Id | OrganizationId | Title | Status | ListingType | Typology | Parish | Municipality | District
    | LocationEnrichedAt | LocationEnrichmentAttempts | NumOfBedrooms | NumOfBathrooms | AreaInM2 | HasPool
    | HasGarden | HasElevator | MinPrice | FirstImageS3Key | Description | Latitude | Longitude
    | SourceAggregateVersion | SourceOccurredAt | CreatedAt | UpdatedAt | BuiltAt | EnergyRating | Floor
    | ParkingSpaces | Country | City | State | Region | Images | Prices | Pois | EmbeddingTextHash
    | CanonicalTextVersion | EmbeddingModelVersion | EmbeddedAt | EmbeddingStatus | S3Key | DisplayOrder
    | Amount | Category | Name | DistanceMeters | Address | ImageUrls | Reviews | Items | NextCursor
    | FreeTextRemainder | MinBedrooms | MinBathrooms | MinAreaM2 | MaxAreaM2 | MaxPrice | HasParking
    | NearbyPois | Parsed | RankedIds

  /** What msgpack stores. */
  datatype Primitive =
    | Null | Flag(b: bool) | Int(n: int) | Float(r: real) | Text(s: string)
    | List(items: seq<Primitive>) | Dict(entries: map<Key, Primitive>)

  type Decimal = DecimalText.Decimal
  type Timestamp = DateTimeText.Timestamp

  /** A field the codec hands through unexamined is a `Primitive`, whatever it holds. */
  datatype ListingImage = ListingImage(id: Uuid, s3Key: Primitive, displayOrder: Primitive)
  datatype ListingPrice = ListingPrice(amount: Decimal, listingType: Sql.ListingType)
  datatype ListingPoi = ListingPoi(category: Primitive, name: Primitive, distanceMeters: Primitive,
                                   address: Primitive, imageUrls: seq<Primitive>, reviews: Primitive)

  datatype PropertyListing = PropertyListing(
    id: Uuid, organizationId: Uuid, title: Primitive, status: Sql.PropertyStatus, listingType: Sql.ListingType,
    typology: Sql.Typology, parish: Primitive, municipality: Primitive, district: Primitive,
    locationEnrichedAt: Option<Timestamp>, locationEnrichmentAttempts: Primitive, numOfBedrooms: Primitive,
    numOfBathrooms: Primitive, areaInM2: Primitive, hasPool: Primitive, hasGarden: Primitive,
    hasElevator: Primitive, minPrice: Option<Decimal>, firstImageS3Key: Primitive, description: Primitive,
    latitude: Primitive, longitude: Primitive, sourceAggregateVersion: Primitive, sourceOccurredAt: Timestamp,
    createdAt: Timestamp, updatedAt: Timestamp, builtAt: Primitive, energyRating: Primitive, floor: Primitive,
    parkingSpaces: Primitive, country: Primitive, city: Primitive, state: Primitive, region: Primitive,
    images: seq<ListingImage>, prices: seq<ListingPrice>, pois: seq<ListingPoi>, embeddingTextHash: Primitive,
    canonicalTextVersion: Primitive, embeddingModelVersion: Primitive, embeddedAt: Option<Timestamp>,
    embeddingStatus: Primitive, agencyName: Primitive, agencyEmail: Primitive, agencyPhone: Primitive)

  datatype CachedPage = CachedPage(items: seq<PropertyListing>, nextCursor: Primitive)

  datatype ParsedQuery = ParsedQuery(
    freeTextRemainder: Primitive, typology: Option<Sql.Typology>,
    minBedrooms: Primitive, minBathrooms: Primitive, minAreaM2: Primitive, maxAreaM2: Primitive,
    minPrice: Option<Decimal>, maxPrice: Option<Decimal>,
    hasPool: Primitive, hasGarden: Primitive, hasElevator: Primitive, hasParking: Primitive,
    nearbyPois: seq<PoiCategory>)

  datatype CachedSearchResult = CachedSearchResult(parsed: ParsedQuery, rankedIds: seq<Uuid>)

  // ---------- Enumerations ----------

  function StatusText(s: Sql.PropertyStatus): string {
    match s
    case Draft => "draft"
    case Active => "active"
    case Sold => "sold"
    case Rented => "rented"
    case Withdrawn => "withdrawn"
  }

  function ToStatus(s: string): Option<Sql.PropertyStatus> {
    if s == "draft" then Some(Sql.Draft)
    else if s == "active" then Some(Sql.Active)
    else if s == "sold" then Some(Sql.Sold)
    else if s == "rented" then Some(Sql.Rented)
    else if s == "withdrawn" then Some(Sql.Withdrawn)
    else None
  }

  function OfferText(o: Sql.ListingType): string { match o case Sale => "sale" case Purchase => "purchase" }

  function ToOffer(s: string): Option<Sql.ListingType> {
    if s == "sale" then Some(Sql.Sale) else if s == "purchase" then Some(Sql.Purchase) else None
  }

  function TypologyText(y: Sql.Typology): string {
    match y case House => "house" case Apartment => "apartment" case Land => "land" case Ruin => "ruin"
  }

  function ToTypology(s: string): Option<Sql.Typology> {
    if s == "house" then Some(Sql.House)
    else if s == "apartment" then Some(Sql.Apartment)
    else if s == "land" then Some(Sql.Land)
    else if s == "ruin" then Some(Sql.Ruin)
    else None
  }

  function PoiText(c: PoiCategory): string {
    match c
    case Hospital => "hospital"
    case Bank => "bank"
    case Grocery => "grocery"
    case School => "school"
    case Pharmacy => "pharmacy"
    case Gym => "gym"
    case Restaurant => "restaurant"
    case CoffeeShop => "coffee_shop"
    case Laundry => "laundry"
    case GasStation => "gas_station"
    case PublicTransit => "public_transit"
    case Kindergarten => "kindergarten"
    case Park => "park"
    case PostOffice => "post_office"
    case Library => "library"
    case ShoppingMall => "shopping_mall"
    case Bakery => "bakery"
    case PoliceStation => "police_station"
    case TireShop => "tire_shop"
    case AutoShop => "auto_shop"
  }

  function ToPoi(s: string): Option<PoiCategory> {
    if s == "hospital" then Some(Hospital)
    else if s == "bank" then Some(Bank)
    else if s == "grocery" then Some(Grocery)
    else if s == "school" then Some(School)
    else if s == "pharmacy" then Some(Pharmacy)
    else if s == "gym" then Some(Gym)
    else if s == "restaurant" then Some(Restaurant)
    else if s == "coffee_shop" then Some(CoffeeShop)
    else if s == "laundry" then Some(Laundry)
    else if s == "gas_station" then Some(GasStation)
    else if s == "public_transit" then Some(PublicTransit)
    else if s == "kindergarten" then Some(Kindergarten)
    else if s == "park" then Some(Park)
    else if s == "post_office" then Some(PostOffice)
    else if s == "library" then Some(Library)
    else if s == "shopping_mall" then Some(ShoppingMall)
    else if s == "bakery" then Some(Bakery)
    else if s == "police_station" then Some(PoliceStation)
    else if s == "tire_shop" then Some(TireShop)
    else if s == "auto_shop" then Some(AutoShop)
    else None
  }

  lemma EnumRoundTrip(s: Sql.PropertyStatus, o: Sql.ListingType, y: Sql.Typology)
    ensures ToStatus(StatusText(s)) == Some(s) && ToOffer(OfferText(o)) == Some(o)
    ensures ToTypology(TypologyText(y)) == Some(y)
  {
  }

  lemma PoiRoundTrip(c: PoiCategory)
    ensures ToPoi(PoiText(c)) == Some(c)
  {
  }

  // ---------- Reading a dictionary; None stands for the exception raised ----------

  /** `d[k]`. */
  function At(d: map<Key, Primitive>, k: Key): Option<Primitive> { Lookup(d, k) }

  /** `d.get(k, default)`. */
  function GetOr(d: map<Key, Primitive>, k: Key, default: Primitive): Primitive {
    match Lookup(d, k) case Some(v) => v case None => default
  }

  function Get(d: map<Key, Primitive>, k: Key): Primitive { GetOr(d, k, Null) }

  predicate Truthy(v: Primitive) {
    match v
    case Null => false
    case Flag(b) => b
    case Int(n) => n != 0
    case Float(r) => r != 0.0
    case Text(s) => s != ""
    case List(items) => items != []
    case Dict(entries) => entries != map[]
  }

  /** `v or default`. */
  function OrDefault(v: Primitive, default: Primitive): Primitive { if Truthy(v) then v else default }

  /** A constructor that takes text, such as `UUID(...)` or `Decimal(...)`. */
  function Read<T>(v: Primitive, reader: string -> Option<T>): Option<T> {
    if v.Text? then reader(v.s) else None
  }

  /** `reader(d[k])`. */
  function Required<T>(d: map<Key, Primitive>, k: Key, reader: string -> Option<T>): Option<T> {
    var v :- At(d, k);
    Read(v, reader)
  }

  /** `reader(v) if v is not None else None`. */
  function ReadOrNull<T>(v: Primitive, reader: string -> Option<T>): Option<Option<T>> {
    if v.Null? then Some(None)
    else
      var r :- Read(v, reader);
      Some(Some(r))
  }

  function IsoOrNull(i: Option<Timestamp>): Primitive { if i.Some? then Text(DateTimeText.Print(i.value)) else Null }
  function DecimalOrNull(d: Option<Decimal>): Primitive { if d.Some? then Text(DecimalText.Print(d.value)) else Null }

  lemma OptionalRoundTrip(i: Option<Timestamp>, d: Option<Decimal>)
    ensures ReadOrNull(IsoOrNull(i), DateTimeText.Read) == Some(i)
    ensures ReadOrNull(DecimalOrNull(d), DecimalText.Read) == Some(d)
  {
    hide DateTimeText.Print, DateTimeText.Read, DecimalText.Print, DecimalText.Read;
    if i.Some? {
      DateTimeText.DateTimeRoundTrip(i.value);
    }
    if d.Some? {
      DecimalText.DecimalRoundTrip(d.value);
    }
  }

  function MapAll<A, B>(xs: seq<A>, f: A -> B): (ys: seq<B>)
    ensures |ys| == |xs| && forall i :: 0 <= i < |xs| ==> ys[i] == f(xs[i])
  {
    if xs == [] then [] else [f(xs[0])] + MapAll(xs[1..], f)
  }

  function ReadAll<B>(vs: seq<Primitive>, f: Primitive -> Option<B>): Option<seq<B>> {
    if vs == [] then Some([])
    else
      var first :- f(vs[0]);
      var rest :- ReadAll(vs[1..], f);
      Some([first] + rest)
  }

  /** `[f(i) for i in v]`. */
  function ReadList<B>(v: Primitive, f: Primitive -> Option<B>): Option<seq<B>> {
    if v.List? then ReadAll(v.items, f) else None
  }

  function Same<A>(x: A): A { x }

  /** Lists inherit what reading does to each written element. */
  lemma {:induction false} ReadAllInverts<A, B>(
      xs: seq<A>, write: A -> Primitive, read: Primitive -> Option<B>, kept: A -> B)
    requires forall x :: x in xs ==> read(write(x)) == Some(kept(x))
    ensures ReadAll(MapAll(xs, write), read) == Some(MapAll(xs, kept))
  {
    if xs != [] {
      ReadAllInverts(xs[1..], write, read, kept);
      assert MapAll(xs, write)[1..] == MapAll(xs[1..], write);
    }
  }

  lemma {:induction false} MapAllSame<A>(xs: seq<A>, f: A -> A)
    ensures MapAll(xs, f) == xs <==> forall x :: x in xs ==> f(x) == x
  {
    if xs != [] {
      MapAllSame(xs[1..], f);
      assert xs == [xs[0]] + xs[1..];
    }
  }

  // ---------- Images, prices, points of interest ----------

  function ImageToDict(i: ListingImage): Primitive {
    Dict(map[Id := Text(UuidText.Print(i.id)), S3Key := i.s3Key, DisplayOrder := i.displayOrder])
  }

  function ImageFromDict(v: Primitive): Option<ListingImage> {
    if !v.Dict? then None
    else
      var id :- Required(v.entries, Id, UuidText.Parse);
      var key :- At(v.entries, S3Key);
      var order :- At(v.entries, DisplayOrder);
      Some(ListingImage(id, key, order))
  }

  function PriceToDict(p: ListingPrice): Primitive {
    Dict(map[Amount := Text(DecimalText.Print(p.amount)), ListingType := Text(OfferText(p.listingType))])
  }

  function PriceFromDict(v: Primitive): Option<ListingPrice> {
    if !v.Dict? then None
    else
      var amount :- Required(v.entries, Amount, DecimalText.Read);
      var listingType :- Required(v.entries, ListingType, ToOffer);
      Some(ListingPrice(amount, listingType))
  }

  function PoiToDict(p: ListingPoi): Primitive {
    Dict(map[Category := p.category, Name := p.name, DistanceMeters := p.distanceMeters, Address := p.address,
             ImageUrls := List(p.imageUrls), Reviews := p.reviews])
  }

  function PoiFromDict(v: Primitive): Option<ListingPoi> {
    if !v.Dict? then None
    else
      var category :- At(v.entries, Category);
      var name :- At(v.entries, Name);
      var distance :- At(v.entries, DistanceMeters);
      var urls := OrDefault(Get(v.entries, ImageUrls), List([]));
      if !urls.List? then None
      else Some(ListingPoi(category, name, distance, Get(v.entries, Address), urls.items, Get(v.entries, Reviews)))
  }

  lemma ImageRoundTrip(i: ListingImage)
    requires UuidText.Is128Bits(i.id)
    ensures ImageFromDict(ImageToDict(i)) == Some(i)
  {
    hide UuidText.Print, UuidText.Parse, UuidText.Is128Bits;
    UuidText.UuidRoundTrip(i.id);
  }

  lemma PriceRoundTrip(p: ListingPrice)
    ensures PriceFromDict(PriceToDict(p)) == Some(p)
  {
    hide DecimalText.Print, DecimalText.Read;
    DecimalText.DecimalRoundTrip(p.amount);
    hide OfferText, ToOffer;
    EnumRoundTrip(Sql.Draft, p.listingType, Sql.House);
  }

  lemma PoiDictRoundTrip(p: ListingPoi)
    ensures PoiFromDict(PoiToDict(p)) == Some(p)
  {
  }

  // ---------- Listings ----------

  /** The fields that are stored as they are. */
  function PlainCell(x: PropertyListing, k: Key): Option<Primitive> {
    match k
    case Title => Some(x.title)
    case Parish => Some(x.parish)
    case Municipality => Some(x.municipality)
    case District => Some(x.district)
    case LocationEnrichmentAttempts => Some(x.locationEnrichmentAttempts)
    case NumOfBedrooms => Some(x.numOfBedrooms)
    case NumOfBathrooms => Some(x.numOfBathrooms)
    case AreaInM2 => Some(x.areaInM2)
    case HasPool => Some(x.hasPool)
    case HasGarden => Some(x.hasGarden)
    case HasElevator => Some(x.hasElevator)
    case FirstImageS3Key => Some(x.firstImageS3Key)
    case Description => Some(x.description)
    case Latitude => Some(x.latitude)
    case Longitude => Some(x.longitude)
    case SourceAggregateVersion => Some(x.sourceAggregateVersion)
    case BuiltAt => Some(x.builtAt)
    case EnergyRating => Some(x.energyRating)
    case Floor => Some(x.floor)
    case ParkingSpaces => Some(x.parkingSpaces)
    case Country => Some(x.country)
    case City => Some(x.city)
    case State => Some(x.state)
    case Region => Some(x.region)
    case EmbeddingTextHash => Some(x.embeddingTextHash)
    case CanonicalTextVersion => Some(x.canonicalTextVersion)
    case EmbeddingModelVersion => Some(x.embeddingModelVersion)
    case EmbeddingStatus => Some(x.embeddingStatus)
    case _ => None
  }

  function ListingCell(x: PropertyListing, k: Key): Option<Primitive> {
    match k
    case Id => Some(Text(UuidText.Print(x.id)))
    case OrganizationId => Some(Text(UuidText.Print(x.organizationId)))
    case Status => Some(Text(StatusText(x.status)))
    case ListingType => Some(Text(OfferText(x.listingType)))
    case Typology => Some(Text(TypologyText(x.typology)))
    case LocationEnrichedAt => Some(IsoOrNull(x.locationEnrichedAt))
    case MinPrice => Some(DecimalOrNull(x.minPrice))
    case SourceOccurredAt => Some(Text(DateTimeText.Print(x.sourceOccurredAt)))
    case CreatedAt => Some(Text(DateTimeText.Print(x.createdAt)))
    case UpdatedAt => Some(Text(DateTimeText.Print(x.updatedAt)))
    case Images => Some(List(MapAll(x.images, ImageToDict)))
    case Prices => Some(List(MapAll(x.prices, PriceToDict)))
    case Pois => Some(List(MapAll(x.pois, PoiToDict)))
    case EmbeddedAt => Some(IsoOrNull(x.embeddedAt))
    case _ => PlainCell(x, k)
  }

  function ToListingDict(x: PropertyListing): (v: Primitive)
    ensures v.Dict?
  {
    Dict(map k: Key | ListingCell(x, k).Some? :: ListingCell(x, k).value)
  }

  function FromListingDict(v: Primitive): Option<PropertyListing> {
    if !v.Dict? then None
    else
      var d := v.entries;
      var id :- Required(d, Id, UuidText.Parse);
      var organizationId :- Required(d, OrganizationId, UuidText.Parse);
      var status :- Required(d, Status, ToStatus);
      var listingType :- Required(d, ListingType, ToOffer);
      var typology :- Required(d, Typology, ToTypology);
      var locationEnrichedAt :- ReadOrNull(Get(d, LocationEnrichedAt), DateTimeText.Read);
      var minPrice :- ReadOrNull(Get(d, MinPrice), DecimalText.Read);
      var sourceAggregateVersion :- At(d, SourceAggregateVersion);
      var sourceOccurredAt :- Required(d, SourceOccurredAt, DateTimeText.Read);
      var createdAt :- Required(d, CreatedAt, DateTimeText.Read);
      var updatedAt :- Required(d, UpdatedAt, DateTimeText.Read);
      var images :- ReadList(GetOr(d, Images, List([])), ImageFromDict);
      var prices :- ReadList(GetOr(d, Prices, List([])), PriceFromDict);
      var pois :- ReadList(GetOr(d, Pois, List([])), PoiFromDict);
      var embeddedAt :- ReadOrNull(Get(d, EmbeddedAt), DateTimeText.Read);
      Some(PropertyListing(
        id := id, organizationId := organizationId, title := OrDefault(Get(d, Title), Text("Property")),
        status := status, listingType := listingType, typology := typology, parish := Get(d, Parish),
        municipality := Get(d, Municipality), district := Get(d, District),
        locationEnrichedAt := locationEnrichedAt,
        locationEnrichmentAttempts := GetOr(d, LocationEnrichmentAttempts, Int(0)),
        numOfBedrooms := Get(d, NumOfBedrooms), numOfBathrooms := Get(d, NumOfBathrooms),
        areaInM2 := Get(d, AreaInM2), hasPool := Get(d, HasPool), hasGarden := Get(d, HasGarden),
        hasElevator := Get(d, HasElevator), minPrice := minPrice, firstImageS3Key := Get(d, FirstImageS3Key),
        description := Get(d, Description), latitude := Get(d, Latitude), longitude := Get(d, Longitude),
        sourceAggregateVersion := sourceAggregateVersion, sourceOccurredAt := sourceOccurredAt,
        createdAt := createdAt, updatedAt := updatedAt, builtAt := Get(d, BuiltAt),
        energyRating := Get(d, EnergyRating), floor := Get(d, Floor), parkingSpaces := Get(d, ParkingSpaces),
        country := GetOr(d, Country, Text("Portugal")), city := Get(d, City), state := Get(d, State),
        region := Get(d, Region), images := images, prices := prices, pois := pois,
        embeddingTextHash := Get(d, EmbeddingTextHash), canonicalTextVersion := Get(d, CanonicalTextVersion),
        embeddingModelVersion := Get(d, EmbeddingModelVersion), embeddedAt := embeddedAt,
        embeddingStatus := GetOr(d, EmbeddingStatus, Text("PENDING")), agencyName := Null, agencyEmail := Null,
        agencyPhone := Null))
  }

  /** Identifiers are UUIDs. */
  ghost predicate HasUuids(x: PropertyListing) {
    && UuidText.Is128Bits(x.id)
    && UuidText.Is128Bits(x.organizationId)
    && forall i :: i in x.images ==> UuidText.Is128Bits(i.id)
  }

  /** What a listing comes back as: a falsy title is replaced, and the agency contact is gone. */
  function Restored(x: PropertyListing): PropertyListing {
    x.(title := OrDefault(x.title, Text("Property")), agencyName := Null, agencyEmail := Null, agencyPhone := Null)
  }

  lemma RestoredIff(x: PropertyListing)
    ensures Restored(x) == x <==> Truthy(x.title) && x.agencyName == x.agencyEmail == x.agencyPhone == Null
  {
    assert Truthy(Text("Property"));
  }

  lemma ListsRoundTrip(x: PropertyListing)
    requires HasUuids(x)
    ensures ReadAll(MapAll(x.images, ImageToDict), ImageFromDict) == Some(x.images)
    ensures ReadAll(MapAll(x.prices, PriceToDict), PriceFromDict) == Some(x.prices)
    ensures ReadAll(MapAll(x.pois, PoiToDict), PoiFromDict) == Some(x.pois)
  {
    hide UuidText.Is128Bits, ReadAll, MapAll;
    hide ImageToDict, ImageFromDict, PriceToDict, PriceFromDict, PoiToDict, PoiFromDict;
    forall i | i in x.images ensures ImageFromDict(ImageToDict(i)) == Some(Same(i)) { ImageRoundTrip(i); }
    forall p | p in x.prices ensures PriceFromDict(PriceToDict(p)) == Some(Same(p)) { PriceRoundTrip(p); }
    forall p | p in x.pois ensures PoiFromDict(PoiToDict(p)) == Some(Same(p)) { PoiDictRoundTrip(p); }
    ReadAllInverts(x.images, ImageToDict, ImageFromDict, Same);
    ReadAllInverts(x.prices, PriceToDict, PriceFromDict, Same);
    ReadAllInverts(x.pois, PoiToDict, PoiFromDict, Same);
    MapAllSame(x.images, Same);
    MapAllSame(x.prices, Same);
    MapAllSame(x.pois, Same);
  }

  ghost predicate Written(x: PropertyListing, d: map<Key, Primitive>) {
    forall k :: Lookup(d, k) == ListingCell(x, k)
  }

  lemma DictIsWritten(x: PropertyListing)
    ensures Written(x, ToListingDict(x).entries)
  {
    hide ListingCell;
  }

  lemma IdCells(x: PropertyListing, d: map<Key, Primitive>)
    requires Written(x, d) && HasUuids(x)
    ensures Required(d, Id, UuidText.Parse) == Some(x.id)
    ensures Required(d, OrganizationId, UuidText.Parse) == Some(x.organizationId)
  {
    hide UuidText.Print, UuidText.Parse, UuidText.Is128Bits;
    UuidText.UuidRoundTrip(x.id);
    UuidText.UuidRoundTrip(x.organizationId);
  }

  lemma EnumCells(x: PropertyListing, d: map<Key, Primitive>)
    requires Written(x, d)
    ensures Required(d, Status, ToStatus) == Some(x.status)
    ensures Required(d, ListingType, ToOffer) == Some(x.listingType)
    ensures Required(d, Typology, ToTypology) == Some(x.typology)
  {
    hide OfferText, ToOffer, StatusText, ToStatus, TypologyText, ToTypology;
    EnumRoundTrip(x.status, x.listingType, x.typology);
  }

  lemma TimeCells(x: PropertyListing, d: map<Key, Primitive>)
    requires Written(x, d)
    ensures Required(d, SourceOccurredAt, DateTimeText.Read) == Some(x.sourceOccurredAt)
    ensures Required(d, CreatedAt, DateTimeText.Read) == Some(x.createdAt)
    ensures Required(d, UpdatedAt, DateTimeText.Read) == Some(x.updatedAt)
  {
    hide Lookup, DateTimeText.Print, DateTimeText.Read, DateTimeText.IsDateTime;
    DateTimeText.DateTimeRoundTrip(x.sourceOccurredAt);
    DateTimeText.DateTimeRoundTrip(x.createdAt);
    DateTimeText.DateTimeRoundTrip(x.updatedAt);
  }

  lemma OptionalCells(x: PropertyListing, d: map<Key, Primitive>)
    requires Written(x, d)
    ensures ReadOrNull(Get(d, LocationEnrichedAt), DateTimeText.Read) == Some(x.locationEnrichedAt)
    ensures ReadOrNull(Get(d, EmbeddedAt), DateTimeText.Read) == Some(x.embeddedAt)
    ensures ReadOrNull(Get(d, MinPrice), DecimalText.Read) == Some(x.minPrice)
  {
    hide ReadOrNull, IsoOrNull, DecimalOrNull;
    OptionalRoundTrip(x.locationEnrichedAt, x.minPrice);
    OptionalRoundTrip(x.embeddedAt, x.minPrice);
  }

  lemma ListCells(x: PropertyListing, d: map<Key, Primitive>)
    requires Written(x, d) && HasUuids(x)
    ensures ReadList(GetOr(d, Images, List([])), ImageFromDict) == Some(x.images)
    ensures ReadList(GetOr(d, Prices, List([])), PriceFromDict) == Some(x.prices)
    ensures ReadList(GetOr(d, Pois, List([])), PoiFromDict) == Some(x.pois)
  {
    hide ReadAll, MapAll, ImageToDict, ImageFromDict, PriceToDict, PriceFromDict, PoiToDict, PoiFromDict;
    ListsRoundTrip(x);
  }

  lemma TextCells(x: PropertyListing, d: map<Key, Primitive>)
    requires Written(x, d)
    ensures Get(d, Title) == x.title && Get(d, Description) == x.description
    ensures Get(d, EnergyRating) == x.energyRating && Get(d, FirstImageS3Key) == x.firstImageS3Key
  {
    hide Lookup;
  }

  lemma PlaceCells(x: PropertyListing, d: map<Key, Primitive>)
    requires Written(x, d)
    ensures Get(d, Parish) == x.parish && Get(d, Municipality) == x.municipality
    ensures Get(d, District) == x.district && Get(d, City) == x.city
  {
    hide Lookup;
  }

  lemma RegionCells(x: PropertyListing, d: map<Key, Primitive>)
    requires Written(x, d)
    ensures Get(d, State) == x.state && Get(d, Region) == x.region
    ensures Get(d, Latitude) == x.latitude && Get(d, Longitude) == x.longitude
  {
    hide Lookup;
  }

  lemma RoomCells(x: PropertyListing, d: map<Key, Primitive>)
    requires Written(x, d)
    ensures Get(d, NumOfBedrooms) == x.numOfBedrooms && Get(d, NumOfBathrooms) == x.numOfBathrooms
    ensures Get(d, AreaInM2) == x.areaInM2 && Get(d, BuiltAt) == x.builtAt
  {
    hide Lookup;
  }

  lemma FeatureCells(x: PropertyListing, d: map<Key, Primitive>)
    requires Written(x, d)
    ensures Get(d, HasPool) == x.hasPool && Get(d, HasGarden) == x.hasGarden && Get(d, HasElevator) == x.hasElevator
  {
    hide Lookup;
  }

  lemma BuildingCells(x: PropertyListing, d: map<Key, Primitive>)
    requires Written(x, d)
    ensures Get(d, Floor) == x.floor && Get(d, ParkingSpaces) == x.parkingSpaces
  {
    hide Lookup;
  }

  lemma EmbeddingCells(x: PropertyListing, d: map<Key, Primitive>)
    requires Written(x, d)
    ensures Get(d, EmbeddingTextHash) == x.embeddingTextHash && Get(d, CanonicalTextVersion) == x.canonicalTextVersion
    ensures Get(d, EmbeddingModelVersion) == x.embeddingModelVersion
  {
    hide Lookup;
  }

  lemma DefaultedCells(x: PropertyListing, d: map<Key, Primitive>)
    requires Written(x, d)
    ensures At(d, SourceAggregateVersion) == Some(x.sourceAggregateVersion)
    ensures GetOr(d, LocationEnrichmentAttempts, Int(0)) == x.locationEnrichmentAttempts
    ensures GetOr(d, Country, Text("Portugal")) == x.country
    ensures GetOr(d, EmbeddingStatus, Text("PENDING")) == x.embeddingStatus
  {
    hide Lookup;
  }

  lemma ListingRoundTrip(x: PropertyListing)
    requires HasUuids(x)
    ensures FromListingDict(ToListingDict(x)) == Some(Restored(x))
  {
    hide Written, Truthy, ToListingDict, Required, ReadOrNull, ReadList, GetOr, Get, At, HasUuids;
    var d := ToListingDict(x).entries;
    DictIsWritten(x);
    IdCells(x, d);
    EnumCells(x, d);
    TimeCells(x, d);
    OptionalCells(x, d);
    ListCells(x, d);
    TextCells(x, d);
    PlaceCells(x, d);
    RegionCells(x, d);
    RoomCells(x, d);
    FeatureCells(x, d);
    BuildingCells(x, d);
    EmbeddingCells(x, d);
    DefaultedCells(x, d);
  }

  /**
   The identity exactly for listings that carry no agency contact and have a non-empty title: the three
   agency fields are not encoded.
   */
  lemma ListingIdentityIff(x: PropertyListing)
    requires HasUuids(x)
    ensures FromListingDict(ToListingDict(x)) == Some(x) <==>
      Truthy(x.title) && x.agencyName == x.agencyEmail == x.agencyPhone == Null
  {
    hide ToListingDict, FromListingDict, Restored, Truthy;
    ListingRoundTrip(x);
    RestoredIff(x);
  }

  // ---------- Pages ----------

  function ToPageDict(p: CachedPage): Primitive {
    Dict(map[Items := List(MapAll(p.items, ToListingDict)), NextCursor := p.nextCursor])
  }

  function FromPageDict(v: Primitive): Option<CachedPage> {
    if !v.Dict? then None
    else
      var items :- ReadList(GetOr(v.entries, Items, List([])), FromListingDict);
      Some(CachedPage(items, Get(v.entries, NextCursor)))
  }

  /** A page comes back in order, item by item, with its cursor. */
  lemma PageRoundTrip(p: CachedPage)
    requires forall x :: x in p.items ==> HasUuids(x)
    ensures FromPageDict(ToPageDict(p)) == Some(p.(items := MapAll(p.items, Restored)))
    ensures FromPageDict(ToPageDict(p)) == Some(p) <==>
      forall x :: x in p.items ==> Truthy(x.title) && x.agencyName == x.agencyEmail == x.agencyPhone == Null
  {
    hide ToListingDict, FromListingDict, Restored, Truthy, HasUuids;
    forall x | x in p.items ensures FromListingDict(ToListingDict(x)) == Some(Restored(x)) {
      ListingRoundTrip(x);
    }
    forall x | x in p.items
      ensures Restored(x) == x <==> Truthy(x.title) && x.agencyName == x.agencyEmail == x.agencyPhone == Null
    {
      RestoredIff(x);
    }
    ReadAllInverts(p.items, ToListingDict, FromListingDict, Restored);
    MapAllSame(p.items, Restored);
  }

  // ---------- Parsed queries and search results ----------

  function TypologyOrNull(y: Option<Sql.Typology>): Primitive { if y.Some? then Text(TypologyText(y.value)) else Null }

  function QueryCell(q: ParsedQuery, k: Key): Option<Primitive> {
    match k
    case FreeTextRemainder => Some(q.freeTextRemainder)
    case Typology => Some(TypologyOrNull(q.typology))
    case MinBedrooms => Some(q.minBedrooms)
    case MinBathrooms => Some(q.minBathrooms)
    case MinAreaM2 => Some(q.minAreaM2)
    case MaxAreaM2 => Some(q.maxAreaM2)
    case MinPrice => Some(DecimalOrNull(q.minPrice))
    case MaxPrice => Some(DecimalOrNull(q.maxPrice))
    case HasPool => Some(q.hasPool)
    case HasGarden => Some(q.hasGarden)
    case HasElevator => Some(q.hasElevator)
    case HasParking => Some(q.hasParking)
    case NearbyPois => Some(List(MapAll(q.nearbyPois, PoiWriter)))
    case _ => None
  }

  function PoiWriter(c: PoiCategory): Primitive { Text(PoiText(c)) }
  function PoiReader(v: Primitive): Option<PoiCategory> { Read(v, ToPoi) }

  function ToParsedQueryDict(q: ParsedQuery): (v: Primitive)
    ensures v.Dict?
  {
    Dict(map k: Key | QueryCell(q, k).Some? :: QueryCell(q, k).value)
  }

  function FromParsedQueryDict(v: Primitive): Option<ParsedQuery> {
    if !v.Dict? then None
    else
      var d := v.entries;
      var typology :- ReadOrNull(Get(d, Typology), ToTypology);
      var minPrice :- ReadOrNull(Get(d, MinPrice), DecimalText.Read);
      var maxPrice :- ReadOrNull(Get(d, MaxPrice), DecimalText.Read);
      var nearbyPois :- ReadList(GetOr(d, NearbyPois, List([])), PoiReader);
      Some(ParsedQuery(
        GetOr(d, FreeTextRemainder, Text("")), typology,
        Get(d, MinBedrooms), Get(d, MinBathrooms), Get(d, MinAreaM2), Get(d, MaxAreaM2), minPrice, maxPrice,
        Get(d, HasPool), Get(d, HasGarden), Get(d, HasElevator), Get(d, HasParking), nearbyPois))
  }

  ghost predicate QueryWritten(q: ParsedQuery, d: map<Key, Primitive>) {
    forall k :: Lookup(d, k) == QueryCell(q, k)
  }

  lemma QueryIsWritten(q: ParsedQuery)
    ensures QueryWritten(q, ToParsedQueryDict(q).entries)
  {
    hide QueryCell;
  }

  lemma QueryPartsRoundTrip(q: ParsedQuery)
    ensures ReadOrNull(TypologyOrNull(q.typology), ToTypology) == Some(q.typology)
    ensures ReadAll(MapAll(q.nearbyPois, PoiWriter), PoiReader) == Some(q.nearbyPois)
  {
    hide PoiText, ToPoi, TypologyText, ToTypology;
    if q.typology.Some? {
      EnumRoundTrip(Sql.Draft, Sql.Sale, q.typology.value);
    }
    forall c ensures PoiReader(PoiWriter(c)) == Some(Same(c)) { PoiRoundTrip(c); }
    ReadAllInverts(q.nearbyPois, PoiWriter, PoiReader, Same);
    MapAllSame(q.nearbyPois, Same);
  }

  lemma QueryListCells(q: ParsedQuery, d: map<Key, Primitive>)
    requires QueryWritten(q, d)
    ensures ReadOrNull(Get(d, Typology), ToTypology) == Some(q.typology)
    ensures ReadList(GetOr(d, NearbyPois, List([])), PoiReader) == Some(q.nearbyPois)
  {
    hide Lookup, ReadOrNull, TypologyOrNull, ReadAll, MapAll, PoiWriter, PoiReader;
    QueryPartsRoundTrip(q);
  }

  lemma QueryPriceCells(q: ParsedQuery, d: map<Key, Primitive>)
    requires QueryWritten(q, d)
    ensures ReadOrNull(Get(d, MinPrice), DecimalText.Read) == Some(q.minPrice)
    ensures ReadOrNull(Get(d, MaxPrice), DecimalText.Read) == Some(q.maxPrice)
    ensures GetOr(d, FreeTextRemainder, Text("")) == q.freeTextRemainder
  {
    hide Lookup, ReadOrNull, DecimalOrNull;
    OptionalRoundTrip(None, q.minPrice);
    OptionalRoundTrip(None, q.maxPrice);
  }

  lemma QueryCountCells(q: ParsedQuery, d: map<Key, Primitive>)
    requires QueryWritten(q, d)
    ensures Get(d, MinBedrooms) == q.minBedrooms && Get(d, MinBathrooms) == q.minBathrooms
    ensures Get(d, MinAreaM2) == q.minAreaM2 && Get(d, MaxAreaM2) == q.maxAreaM2
  {
    hide Lookup;
  }

  lemma QueryFlagCells(q: ParsedQuery, d: map<Key, Primitive>)
    requires QueryWritten(q, d)
    ensures Get(d, HasPool) == q.hasPool && Get(d, HasGarden) == q.hasGarden
    ensures Get(d, HasElevator) == q.hasElevator && Get(d, HasParking) == q.hasParking
  {
    hide Lookup;
  }

  /** A parsed query comes back whole. */
  lemma ParsedQueryRoundTrip(q: ParsedQuery)
    ensures FromParsedQueryDict(ToParsedQueryDict(q)) == Some(q)
  {
    hide QueryWritten, ReadOrNull, ReadList, Get, GetOr, ToParsedQueryDict, PoiReader;
    var d := ToParsedQueryDict(q).entries;
    QueryIsWritten(q);
    QueryListCells(q, d);
    QueryPriceCells(q, d);
    QueryCountCells(q, d);
    QueryFlagCells(q, d);
  }

  function ToSearchResultDict(r: CachedSearchResult): Primitive {
    Dict(map[Parsed := ToParsedQueryDict(r.parsed), RankedIds := List(MapAll(r.rankedIds, IdWriter))])
  }

  function IdWriter(id: Uuid): Primitive { Text(UuidText.Print(id)) }
  function IdReader(v: Primitive): Option<Uuid> { Read(v, UuidText.Parse) }

  function FromSearchResultDict(v: Primitive): Option<CachedSearchResult> {
    if !v.Dict? then None
    else
      var dict :- At(v.entries, Parsed);
      var parsed :- FromParsedQueryDict(dict);
      var rankedIds :- ReadList(GetOr(v.entries, RankedIds, List([])), IdReader);
      Some(CachedSearchResult(parsed, rankedIds))
  }

  /** A cached search result comes back whole, with the ranking in order. */
  lemma SearchResultRoundTrip(r: CachedSearchResult)
    requires forall id :: id in r.rankedIds ==> UuidText.Is128Bits(id)
    ensures FromSearchResultDict(ToSearchResultDict(r)) == Some(r)
  {
    hide UuidText.Print, UuidText.Parse, UuidText.Is128Bits, ToParsedQueryDict, FromParsedQueryDict;
    ParsedQueryRoundTrip(r.parsed);
    forall id | id in r.rankedIds ensures IdReader(IdWriter(id)) == Some(Same(id)) { UuidText.UuidRoundTrip(id); }
    ReadAllInverts(r.rankedIds, IdWriter, IdReader, Same);
    MapAllSame(r.rankedIds, Same);
  }
}
