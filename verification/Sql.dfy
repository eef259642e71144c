/**
 The part of SQL the listings repository relies on: the columns of `property_listings`,
 the values they hold, and WHERE conditions under three-valued logic.
 */
module Sql {
  import opened Prelude

  datatype PropertyStatus = Draft | Active | Sold | Rented | Withdrawn
  datatype ListingType = Sale | Purchase
  datatype Typology = House | Apartment | Land | Ruin

  datatype Column =
    | Id | OrganizationId | Title | Status | Kind | Building
    | Parish | Municipality | District | Country | City | State | Region
    | LocationEnrichedAt | LocationEnrichmentAttempts
    | NumOfBedrooms | NumOfBathrooms | AreaInM2
    | HasPool | HasGarden | HasElevator | Floor | ParkingSpaces | BuiltAt | EnergyRating
    | MinPrice | FirstImageS3Key | Images | Prices | Description | Latitude | Longitude
    | Pois
    | EmbeddingTextHash | CanonicalTextVersion | EmbeddingModelVersion | EmbeddedAt | EmbeddingStatus
    | SourceAggregateVersion | SourceOccurredAt | CreatedAt | UpdatedAt
    | AgencyName | AgencyEmail | AgencyPhone

  datatype ImageData = ImageData(id: Uuid, s3Key: Option<string>, displayOrder: Option<int>)
  datatype PriceCell = PriceCell(amount: string, listingType: string)
  datatype Poi = Poi(category: string, name: string, distanceMeters: real)

  datatype Value =
    | Null
    | Int(n: int)
    | Num(d: real)
    | Bool(b: bool)
    | Text(s: string)
    | Time(t: Instant)
    | Uid(u: Uuid)
    | Stage(status: PropertyStatus)
    | Offer(listingType: ListingType)
    | Shape(typology: Typology)
    | ImageList(images: seq<ImageData>)
    | PriceList(prices: seq<PriceCell>)
    | PoiList(pois: seq<Poi>)

  /** What `row.get(column)` gives for an optional Python value: `None` becomes NULL. */
  function OfInt(o: Option<int>): Value { match o case None => Null case Some(n) => Int(n) }
  function OfText(o: Option<string>): Value { match o case None => Null case Some(s) => Text(s) }
  function OfBool(o: Option<bool>): Value { match o case None => Null case Some(b) => Bool(b) }
  function OfNum(o: Option<real>): Value { match o case None => Null case Some(d) => Num(d) }

  ghost predicate IsRow(r: map<Column, Value>) {
    && (forall c: Column :: c in r)
    && r[SourceAggregateVersion].Int?
    && r[CreatedAt].Time?
    && r[LocationEnrichmentAttempts].Int?
  }

  /** What the database fills in for a column the INSERT does not name. */
  function DefaultCell(c: Column, now: Instant): Value {
    match c
    case CreatedAt | UpdatedAt => Time(now)
    case Country => Text("Portugal")
    case EmbeddingStatus => Text("PENDING")
    case LocationEnrichmentAttempts => Int(0)
    case SourceAggregateVersion => Int(0)
    case Images => ImageList([])
    case Prices => PriceList([])
    case Pois => PoiList([])
    case _ => Null
  }

  function DefaultCells(now: Instant): map<Column, Value> {
    map c: Column | true :: DefaultCell(c, now)
  }

  /** A stored row: every column has a value, and the NOT NULL columns the code computes with are typed. */
  type Row = r: map<Column, Value> | IsRow(r) witness DefaultCells(0)

  function Version(r: Row): int { r[SourceAggregateVersion].n }
  function Created(r: Row): Instant { r[CreatedAt].t }
  function Attempts(r: Row): int { r[LocationEnrichmentAttempts].n }

  type Table = map<Uuid, Row>

  // ---------- WHERE conditions ----------

  datatype Truth = True | False | Unknown

  datatype Comparison = Eq | Lt | Le | Ge | Gt

  datatype Condition =
    | Compare(column: Column, op: Comparison, literal: Value)
    | IsNull(column: Column)
    | IsTrue(column: Column)
    | Or(left: Condition, right: Condition)
    | And(left: Condition, right: Condition)

  function Or3(a: Truth, b: Truth): Truth {
    if a == True || b == True then True
    else if a == Unknown || b == Unknown then Unknown
    else False
  }

  function And3(a: Truth, b: Truth): Truth {
    if a == False || b == False then False
    else if a == Unknown || b == Unknown then Unknown
    else True
  }

  function OfBoolean(b: bool): Truth { if b then True else False }

  /** The order PostgreSQL uses within one column type. */
  predicate Below(a: Value, b: Value) {
    match (a, b)
    case (Int(x), Int(y)) => x < y
    case (Num(x), Num(y)) => x < y
    case (Time(x), Time(y)) => x < y
    case (Uid(x), Uid(y)) => x < y
    case _ => false
  }

  /** A comparison with NULL on either side is UNKNOWN. */
  function CompareValues(v: Value, op: Comparison, w: Value): Truth {
    if v == Null || w == Null then Unknown
    else match op
      case Eq => OfBoolean(v == w)
      case Lt => OfBoolean(Below(v, w))
      case Le => OfBoolean(Below(v, w) || v == w)
      case Ge => OfBoolean(Below(w, v) || v == w)
      case Gt => OfBoolean(Below(w, v))
  }

  function Eval(cond: Condition, r: Row): Truth {
    match cond
    case Compare(c, op, w) => CompareValues(r[c], op, w)
    case IsNull(c) => OfBoolean(r[c] == Null)
    case IsTrue(c) => OfBoolean(r[c] == Bool(true))
    case Or(a, b) => Or3(Eval(a, r), Eval(b, r))
    case And(a, b) => And3(Eval(a, r), Eval(b, r))
  }

  /** `select(...).where(c0).where(c1)...`: the conjunction of the conditions, in order. */
  function Where(conditions: seq<Condition>, r: Row): Truth {
    if conditions == [] then True
    else And3(Eval(conditions[0], r), Where(conditions[1..], r))
  }

  /** A SELECT returns the rows whose WHERE clause is TRUE; UNKNOWN excludes a row as FALSE does. */
  predicate Selects(conditions: seq<Condition>, r: Row) {
    Where(conditions, r) == True
  }

  lemma SelectsOne(c: Condition, r: Row)
    ensures Selects([c], r) <==> Eval(c, r) == True
  {
    hide Eval;
    assert [c][1..] == [];
    assert Where([c], r) == And3(Eval(c, r), True);
  }

  lemma {:induction false} SelectsConcat(a: seq<Condition>, b: seq<Condition>, r: Row)
    ensures Selects(a + b, r) <==> Selects(a, r) && Selects(b, r)
  {
    if a == [] {
      assert a + b == b;
    } else {
      SelectsConcat(a[1..], b, r);
      assert (a + b)[1..] == a[1..] + b;
    }
  }
}
