/**
 The WHERE clauses the repository builds, as SQL conditions, and what they select under three-valued
 logic: the structured list query and the NULL-admitting pre-filter of the semantic search.
 */
module ListingQueries {
  import opened Prelude
  import opened Sql

  datatype PropertyFilters = PropertyFilters(
    listingType: Option<ListingType>, typology: Option<Typology>,
    minPrice: Option<real>, maxPrice: Option<real>,
    parish: Option<string>, municipality: Option<string>, district: Option<string>)

  datatype LocationFilter = LocationFilter(
    parish: Option<string>, municipality: Option<string>, district: Option<string>)

  /** The structured filters a free-text query was parsed into; None means not mentioned. */
  datatype ParsedQuery = ParsedQuery(
    typology: Option<Typology>, minBedrooms: Option<int>, minBathrooms: Option<int>,
    minAreaM2: Option<int>, maxAreaM2: Option<int>, minPrice: Option<real>, maxPrice: Option<real>,
    hasPool: Option<bool>, hasGarden: Option<bool>, hasElevator: Option<bool>, hasParking: Option<bool>)

  const EMPTY_QUERY := ParsedQuery(None, None, None, None, None, None, None, None, None, None, None)

  function AsOffer(o: Option<ListingType>): Option<Value> { if o.Some? then Some(Offer(o.value)) else None }
  function AsShape(o: Option<Typology>): Option<Value> { if o.Some? then Some(Shape(o.value)) else None }
  function AsText(o: Option<string>): Option<Value> { if o.Some? then Some(Text(o.value)) else None }
  function AsNum(o: Option<real>): Option<Value> { if o.Some? then Some(Num(o.value)) else None }
  function AsInt(o: Option<int>): Option<Value> { if o.Some? then Some(Int(o.value)) else None }

  /** `if value is not None: q = q.where(column <op> value)` */
  function Strict(c: Column, op: Comparison, w: Option<Value>): seq<Condition> {
    if w.Some? then [Compare(c, op, w.value)] else []
  }

  /** `if value is not None: q = q.where(or_(column.is_(None), column <op> value))` */
  function OrNull(c: Column, op: Comparison, w: Option<Value>): seq<Condition> {
    if w.Some? then [Or(IsNull(c), Compare(c, op, w.value))] else []
  }

  /** `if flag is True: q = q.where(or_(column.is_(None), column.is_(True)))` */
  function Wanted(c: Column, flag: Option<bool>): seq<Condition> {
    if flag == Some(true) then [Or(IsNull(c), IsTrue(c))] else []
  }

  /** `if level:` -- an empty string switches the filter off. */
  function NonEmpty(o: Option<string>): Option<Value> {
    if o.Some? && o.value != "" then Some(Text(o.value)) else None
  }

  /** The route value wins when set, zero included. */
  function Effective<T>(route: Option<T>, parsed: Option<T>): Option<T> {
    if route.Some? then route else parsed
  }

  const IS_ACTIVE := Compare(Status, Eq, Stage(Active))

  /** `_build_active_query`. */
  function ActiveQuery(f: PropertyFilters): seq<Condition> {
    [IS_ACTIVE] + Strict(Kind, Eq, AsOffer(f.listingType)) + Strict(Building, Eq, AsShape(f.typology))
    + Strict(Parish, Eq, AsText(f.parish)) + Strict(Municipality, Eq, AsText(f.municipality))
    + Strict(District, Eq, AsText(f.district))
    + Strict(MinPrice, Ge, AsNum(f.minPrice)) + Strict(MinPrice, Le, AsNum(f.maxPrice))
  }

  function PlaceAndPriceQuery(l: LocationFilter, f: PropertyFilters, q: ParsedQuery): seq<Condition> {
    [IS_ACTIVE]
    + Strict(Parish, Eq, NonEmpty(l.parish)) + Strict(Municipality, Eq, NonEmpty(l.municipality))
    + Strict(District, Eq, NonEmpty(l.district))
    + Strict(Building, Eq, AsShape(Effective(f.typology, q.typology)))
    + Strict(Kind, Eq, AsOffer(f.listingType))
    + OrNull(MinPrice, Ge, AsNum(Effective(f.minPrice, q.minPrice)))
    + OrNull(MinPrice, Le, AsNum(Effective(f.maxPrice, q.maxPrice)))
  }

  function AmenityQuery(q: ParsedQuery): seq<Condition> {
    OrNull(NumOfBedrooms, Ge, AsInt(q.minBedrooms)) + OrNull(NumOfBathrooms, Ge, AsInt(q.minBathrooms))
    + OrNull(AreaInM2, Ge, AsInt(q.minAreaM2)) + OrNull(AreaInM2, Le, AsInt(q.maxAreaM2))
    + Wanted(HasPool, q.hasPool) + Wanted(HasGarden, q.hasGarden) + Wanted(HasElevator, q.hasElevator)
    + OrNull(ParkingSpaces, Gt, if q.hasParking == Some(true) then Some(Int(0)) else None)
  }

  /** The conditions of `list_ids_for_search`. */
  function SearchQuery(l: LocationFilter, f: PropertyFilters, q: ParsedQuery): seq<Condition> {
    PlaceAndPriceQuery(l, f, q) + AmenityQuery(q)
  }

  // ---------- What the clauses mean, without three-valued logic ----------

  predicate Matches(r: Row, f: PropertyFilters) {
    && r[Status] == Stage(Active)
    && (f.listingType.Some? ==> r[Kind] == Offer(f.listingType.value))
    && (f.typology.Some? ==> r[Building] == Shape(f.typology.value))
    && (f.parish.Some? ==> r[Parish] == Text(f.parish.value))
    && (f.municipality.Some? ==> r[Municipality] == Text(f.municipality.value))
    && (f.district.Some? ==> r[District] == Text(f.district.value))
    && (f.minPrice.Some? ==> r[MinPrice].Num? && r[MinPrice].d >= f.minPrice.value)
    && (f.maxPrice.Some? ==> r[MinPrice].Num? && r[MinPrice].d <= f.maxPrice.value)
  }

  predicate LevelMatches(v: Value, level: Option<string>) {
    level.Some? && level.value != "" ==> v == Text(level.value)
  }

  /** NULL data is admitted as "unknown"; known data must satisfy the bound. */
  predicate UnknownOrNum(v: Value, lo: Option<real>, hi: Option<real>) {
    && (lo.Some? ==> v == Null || (v.Num? && v.d >= lo.value))
    && (hi.Some? ==> v == Null || (v.Num? && v.d <= hi.value))
  }

  predicate UnknownOrInt(v: Value, lo: Option<int>, hi: Option<int>) {
    && (lo.Some? ==> v == Null || (v.Int? && v.n >= lo.value))
    && (hi.Some? ==> v == Null || (v.Int? && v.n <= hi.value))
  }

  predicate UnknownOrTrue(v: Value, flag: Option<bool>) {
    flag == Some(true) ==> v == Null || v == Bool(true)
  }

  predicate PlaceAndPriceFit(r: Row, l: LocationFilter, f: PropertyFilters, q: ParsedQuery) {
    && r[Status] == Stage(Active)
    && LevelMatches(r[Parish], l.parish) && LevelMatches(r[Municipality], l.municipality)
    && LevelMatches(r[District], l.district)
    && (f.listingType.Some? ==> r[Kind] == Offer(f.listingType.value))
    && (f.typology.Some? ==> r[Building] == Shape(f.typology.value))
    && (f.typology.None? && q.typology.Some? ==> r[Building] == Shape(q.typology.value))
    && UnknownOrNum(r[MinPrice], if f.minPrice.Some? then f.minPrice else q.minPrice,
                    if f.maxPrice.Some? then f.maxPrice else q.maxPrice)
  }

  predicate AmenitiesFit(r: Row, q: ParsedQuery) {
    && UnknownOrInt(r[NumOfBedrooms], q.minBedrooms, None)
    && UnknownOrInt(r[NumOfBathrooms], q.minBathrooms, None)
    && UnknownOrInt(r[AreaInM2], q.minAreaM2, q.maxAreaM2)
    && UnknownOrTrue(r[HasPool], q.hasPool) && UnknownOrTrue(r[HasGarden], q.hasGarden)
    && UnknownOrTrue(r[HasElevator], q.hasElevator)
    && (q.hasParking == Some(true) ==> r[ParkingSpaces] == Null || (r[ParkingSpaces].Int? && r[ParkingSpaces].n > 0))
  }

  predicate Admitted(r: Row, l: LocationFilter, f: PropertyFilters, q: ParsedQuery) {
    PlaceAndPriceFit(r, l, f, q) && AmenitiesFit(r, q)
  }

  // ---------- Exactness ----------

  lemma StrictSelects(c: Column, op: Comparison, w: Option<Value>, r: Row)
    ensures Selects(Strict(c, op, w), r) <==> (w.Some? ==> CompareValues(r[c], op, w.value) == True)
  {
    if w.Some? {
      SelectsOne(Compare(c, op, w.value), r);
    }
  }

  lemma OrNullSelects(c: Column, op: Comparison, w: Option<Value>, r: Row)
    ensures Selects(OrNull(c, op, w), r) <==> (w.Some? ==> r[c] == Null || CompareValues(r[c], op, w.value) == True)
  {
    if w.Some? {
      SelectsOne(Or(IsNull(c), Compare(c, op, w.value)), r);
    }
  }

  lemma WantedSelects(c: Column, flag: Option<bool>, r: Row)
    ensures Selects(Wanted(c, flag), r) <==> UnknownOrTrue(r[c], flag)
  {
    SelectsOne(Or(IsNull(c), IsTrue(c)), r);
  }

  /** The list query selects a row iff it is active and satisfies every filter; NULL satisfies none. */
  lemma ActiveQueryExact(f: PropertyFilters, r: Row)
    ensures Selects(ActiveQuery(f), r) <==> Matches(r, f)
  {
    hide Selects, Strict;
    var a, k, b := [IS_ACTIVE], Strict(Kind, Eq, AsOffer(f.listingType)), Strict(Building, Eq, AsShape(f.typology));
    var p, m, d := Strict(Parish, Eq, AsText(f.parish)), Strict(Municipality, Eq, AsText(f.municipality)),
                   Strict(District, Eq, AsText(f.district));
    var lo, hi := Strict(MinPrice, Ge, AsNum(f.minPrice)), Strict(MinPrice, Le, AsNum(f.maxPrice));
    SelectsConcat(a, k, r);
    SelectsConcat(a + k, b, r);
    SelectsConcat(a + k + b, p, r);
    SelectsConcat(a + k + b + p, m, r);
    SelectsConcat(a + k + b + p + m, d, r);
    SelectsConcat(a + k + b + p + m + d, lo, r);
    SelectsConcat(a + k + b + p + m + d + lo, hi, r);
    ActiveSelects(r);
    StrictSelects(Kind, Eq, AsOffer(f.listingType), r);
    StrictSelects(Building, Eq, AsShape(f.typology), r);
    StrictSelects(Parish, Eq, AsText(f.parish), r);
    StrictSelects(Municipality, Eq, AsText(f.municipality), r);
    StrictSelects(District, Eq, AsText(f.district), r);
    StrictSelects(MinPrice, Ge, AsNum(f.minPrice), r);
    StrictSelects(MinPrice, Le, AsNum(f.maxPrice), r);
  }

  lemma ActiveSelects(r: Row)
    ensures Selects([IS_ACTIVE], r) <==> r[Status] == Stage(Active)
  {
    SelectsOne(IS_ACTIVE, r);
  }

  lemma PlaceAndPriceExact(l: LocationFilter, f: PropertyFilters, q: ParsedQuery, r: Row)
    ensures Selects(PlaceAndPriceQuery(l, f, q), r) <==> PlaceAndPriceFit(r, l, f, q)
  {
    hide Selects, Strict, OrNull;
    var typology := Effective(f.typology, q.typology);
    var lo, hi := Effective(f.minPrice, q.minPrice), Effective(f.maxPrice, q.maxPrice);
    var a, p := [IS_ACTIVE], Strict(Parish, Eq, NonEmpty(l.parish));
    var m, d := Strict(Municipality, Eq, NonEmpty(l.municipality)), Strict(District, Eq, NonEmpty(l.district));
    var b, k := Strict(Building, Eq, AsShape(typology)), Strict(Kind, Eq, AsOffer(f.listingType));
    var x, y := OrNull(MinPrice, Ge, AsNum(lo)), OrNull(MinPrice, Le, AsNum(hi));
    SelectsConcat(a, p, r);
    SelectsConcat(a + p, m, r);
    SelectsConcat(a + p + m, d, r);
    SelectsConcat(a + p + m + d, b, r);
    SelectsConcat(a + p + m + d + b, k, r);
    SelectsConcat(a + p + m + d + b + k, x, r);
    SelectsConcat(a + p + m + d + b + k + x, y, r);
    ActiveSelects(r);
    StrictSelects(Parish, Eq, NonEmpty(l.parish), r);
    StrictSelects(Municipality, Eq, NonEmpty(l.municipality), r);
    StrictSelects(District, Eq, NonEmpty(l.district), r);
    StrictSelects(Building, Eq, AsShape(typology), r);
    StrictSelects(Kind, Eq, AsOffer(f.listingType), r);
    OrNullSelects(MinPrice, Ge, AsNum(lo), r);
    OrNullSelects(MinPrice, Le, AsNum(hi), r);
  }

  lemma AmenitiesExact(q: ParsedQuery, r: Row)
    ensures Selects(AmenityQuery(q), r) <==> AmenitiesFit(r, q)
  {
    hide Selects, OrNull, Wanted;
    var parking := if q.hasParking == Some(true) then Some(Int(0)) else None;
    var bed, bath := OrNull(NumOfBedrooms, Ge, AsInt(q.minBedrooms)), OrNull(NumOfBathrooms, Ge, AsInt(q.minBathrooms));
    var lo, hi := OrNull(AreaInM2, Ge, AsInt(q.minAreaM2)), OrNull(AreaInM2, Le, AsInt(q.maxAreaM2));
    var p, g, e := Wanted(HasPool, q.hasPool), Wanted(HasGarden, q.hasGarden), Wanted(HasElevator, q.hasElevator);
    SelectsConcat(bed, bath, r);
    SelectsConcat(bed + bath, lo, r);
    SelectsConcat(bed + bath + lo, hi, r);
    SelectsConcat(bed + bath + lo + hi, p, r);
    SelectsConcat(bed + bath + lo + hi + p, g, r);
    SelectsConcat(bed + bath + lo + hi + p + g, e, r);
    SelectsConcat(bed + bath + lo + hi + p + g + e, OrNull(ParkingSpaces, Gt, parking), r);
    OrNullSelects(NumOfBedrooms, Ge, AsInt(q.minBedrooms), r);
    OrNullSelects(NumOfBathrooms, Ge, AsInt(q.minBathrooms), r);
    OrNullSelects(AreaInM2, Ge, AsInt(q.minAreaM2), r);
    OrNullSelects(AreaInM2, Le, AsInt(q.maxAreaM2), r);
    WantedSelects(HasPool, q.hasPool, r);
    WantedSelects(HasGarden, q.hasGarden, r);
    WantedSelects(HasElevator, q.hasElevator, r);
    OrNullSelects(ParkingSpaces, Gt, parking, r);
  }

  lemma SearchExact(l: LocationFilter, f: PropertyFilters, q: ParsedQuery, r: Row)
    ensures Selects(SearchQuery(l, f, q), r) <==> Admitted(r, l, f, q)
  {
    hide Selects, PlaceAndPriceQuery, AmenityQuery;
    SelectsConcat(PlaceAndPriceQuery(l, f, q), AmenityQuery(q), r);
    PlaceAndPriceExact(l, f, q, r);
    AmenitiesExact(q, r);
  }

  /** The list query is the search query minus the rows of unknown price, when a price bound is set. */
  lemma ListVersusSearch(f: PropertyFilters, r: Row)
    requires f.parish != Some("") && f.municipality != Some("") && f.district != Some("")
    ensures Selects(ActiveQuery(f), r) <==>
      Selects(SearchQuery(LocationFilter(f.parish, f.municipality, f.district), f, EMPTY_QUERY), r)
      && !(r[MinPrice] == Null && (f.minPrice.Some? || f.maxPrice.Some?))
  {
    hide Selects, ActiveQuery, SearchQuery;
    ActiveQueryExact(f, r);
    SearchExact(LocationFilter(f.parish, f.municipality, f.district), f, EMPTY_QUERY, r);
  }

  // ---------- LIMIT without ORDER BY ----------

  ghost function SelectedIds(t: Table, conditions: seq<Condition>): set<Uuid> {
    set id | id in t && Selects(conditions, t[id])
  }

  ghost function Elements(ids: seq<Uuid>): set<Uuid> {
    set id | id in ids
  }

  ghost predicate Distinct(ids: seq<Uuid>) {
    forall i, j :: 0 <= i < j < |ids| ==> ids[i] != ids[j]
  }

  /** Any result the database may give: distinct selected rows, as many as there are up to the limit. */
  ghost predicate IsLimitedResult(t: Table, conditions: seq<Condition>, limit: nat, ids: seq<Uuid>) {
    && Distinct(ids)
    && (forall id :: id in ids ==> id in SelectedIds(t, conditions))
    && |ids| == if |SelectedIds(t, conditions)| < limit then |SelectedIds(t, conditions)| else limit
  }

  lemma {:induction false} DistinctLength(ids: seq<Uuid>)
    requires Distinct(ids)
    ensures |Elements(ids)| == |ids|
  {
    if ids != [] {
      DistinctLength(ids[1..]);
      assert ids[0] !in ids[1..];
      assert Elements(ids) == Elements(ids[1..]) + {ids[0]};
    } else {
      assert Elements(ids) == {};
    }
  }

  lemma SubsetOfSameSize<T>(a: set<T>, b: set<T>)
    requires a <= b && |a| == |b|
    ensures a == b
  {
    if a != b {
      var x :| x in b && x !in a;
      SubsetSize(a, b - {x});
    }
  }

  lemma {:induction false} SubsetSize<T>(a: set<T>, b: set<T>)
    requires a <= b
    ensures |a| <= |b|
  {
    if a != {} {
      var x :| x in a;
      SubsetSize(a - {x}, b - {x});
    }
  }

  /** Saturation contract: a result shorter than the limit is the complete admitted set. */
  lemma ShortResultIsComplete(
      t: Table, l: LocationFilter, f: PropertyFilters, q: ParsedQuery, limit: nat, ids: seq<Uuid>)
    requires IsLimitedResult(t, SearchQuery(l, f, q), limit, ids) && |ids| < limit
    ensures forall id :: id in ids <==> id in t && Admitted(t[id], l, f, q)
  {
    hide Selects, SearchQuery, Admitted;
    var all := SelectedIds(t, SearchQuery(l, f, q));
    DistinctLength(ids);
    SubsetOfSameSize(Elements(ids), all);
    forall id ensures id in ids <==> id in t && Admitted(t[id], l, f, q) {
      if id in t {
        SearchExact(l, f, q, t[id]);
      }
      assert id in ids <==> id in Elements(ids);
    }
  }
}
