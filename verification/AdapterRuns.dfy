/**
 The two adapters over whole runs: any sequence of writes, and the queries afterwards.
 */
module AdapterRuns {
  import opened Prelude
  import opened Sql
  import opened ListingProjection
  import opened ListingQueries
  import opened InMemoryListings
  import opened AdapterRefinement

  // ---------- Whole runs ----------

  ghost predicate Together(decimal: DecimalReader, t: Table, ls: Listings) {
    forall id: Uuid :: Related(decimal, id, Lookup(t, id), Lookup(ls, id))
  }

  lemma ListingStepTouchesOnlyItsTarget(ls: Listings, op: Op, id: Uuid)
    ensures Lookup(StepListings(ls, op), id) ==
      if id == Target(op) then StepListing(Lookup(ls, id), op) else Lookup(ls, id)
  {
    hide StepListing;
  }

  lemma TablesAgreeIff(decimal: DecimalReader, t: Table, ls: Listings, op: Op)
    requires Together(decimal, t, ls) && (op.Upsert? ==> ReadWith(decimal, op.event))
    ensures Together(decimal, Step(t, op), StepListings(ls, op)) <==>
      (TakesEffect(Lookup(t, Target(op)), op) ==> Readable(op.event))
  {
    hide Related, StepRow, StepListing, Step, StepListings, Readable, ReadWith;
    var target := Target(op);
    StepAgreesIff(decimal, Lookup(t, target), Lookup(ls, target), op);
    forall id: Uuid
      ensures Related(decimal, id, Lookup(Step(t, op), id), Lookup(StepListings(ls, op), id)) <==>
        (id == target && TakesEffect(Lookup(t, target), op) ==> Readable(op.event))
    {
      StepTouchesOnlyItsTarget(t, op, id);
      ListingStepTouchesOnlyItsTarget(ls, op, id);
    }
    assert Related(decimal, target, Lookup(Step(t, op), target), Lookup(StepListings(ls, op), target)) <==>
      (TakesEffect(Lookup(t, target), op) ==> Readable(op.event));
  }

  ghost predicate AgreeThroughout(decimal: DecimalReader, ops: seq<Op>) {
    forall k :: 0 <= k <= |ops| ==> Together(decimal, Run(map[], ops[..k]), RunListings(map[], ops[..k]))
  }

  ghost predicate EffectiveUpsertsRead(ops: seq<Op>) {
    forall k :: 0 <= k < |ops| && TakesEffect(Lookup(Run(map[], ops[..k]), Target(ops[k])), ops[k]) ==>
      Readable(ops[k].event)
  }

  /**
   Any sequence of writes, from empty repositories: every row reads as the other adapter's listing, after every
   write, exactly when every upsert that takes effect carries an event that can be read back.
   */
  lemma {:induction false} AdaptersAgreeIff(decimal: DecimalReader, ops: seq<Op>)
    requires forall op :: op in ops && op.Upsert? ==> ReadWith(decimal, op.event)
    ensures AgreeThroughout(decimal, ops) <==> EffectiveUpsertsRead(ops)
  {
    hide Together, Step, StepListings, Readable, ReadWith, TakesEffect;
    if ops == [] {
      NothingTogether(decimal);
      assert ops[..0] == [];
    } else {
      var n := |ops| - 1;
      var before := ops[..n];
      AdaptersAgreeIff(decimal, before);
      assert forall k :: 0 <= k <= n ==> before[..k] == ops[..k];
      assert ops[..|ops|] == ops && before[..n] == before;
      if AgreeThroughout(decimal, before) {
        assert Together(decimal, Run(map[], before[..n]), RunListings(map[], before[..n]));
        assert ops[n] in ops;
        TablesAgreeIff(decimal, Run(map[], before), RunListings(map[], before), ops[n]);
        AgreeMore(decimal, ops);
      } else {
        AgreeLess(decimal, ops);
      }
    }
  }

  lemma NothingTogether(decimal: DecimalReader)
    ensures Together(decimal, Run(map[], []), RunListings(map[], []))
  {
  }

  lemma AgreeMore(decimal: DecimalReader, ops: seq<Op>)
    requires ops != []
    requires var before := ops[..|ops| - 1]; AgreeThroughout(decimal, before) && EffectiveUpsertsRead(before)
    ensures var before, op := ops[..|ops| - 1], ops[|ops| - 1];
      && (AgreeThroughout(decimal, ops) <==> Together(decimal, Run(map[], ops), RunListings(map[], ops)))
      && (EffectiveUpsertsRead(ops) <==>
            (TakesEffect(Lookup(Run(map[], before), Target(op)), op) ==> Readable(op.event)))
  {
    hide Together, Run, RunListings, Readable, TakesEffect;
    var n := |ops| - 1;
    var before := ops[..n];
    assert forall k :: 0 <= k <= n ==> before[..k] == ops[..k];
    assert ops[..|ops|] == ops && before[..n] == before;
    assert forall k :: 0 <= k < n ==> before[k] == ops[k];
  }

  lemma AgreeLess(decimal: DecimalReader, ops: seq<Op>)
    requires ops != []
    requires var before := ops[..|ops| - 1]; !AgreeThroughout(decimal, before) && !EffectiveUpsertsRead(before)
    ensures !AgreeThroughout(decimal, ops) && !EffectiveUpsertsRead(ops)
  {
    hide Together, Run, RunListings, Readable;
    var n := |ops| - 1;
    var before := ops[..n];
    assert forall k :: 0 <= k <= n ==> before[..k] == ops[..k];
    var i :| 0 <= i <= n && !Together(decimal, Run(map[], before[..i]), RunListings(map[], before[..i]));
    assert !Together(decimal, Run(map[], ops[..i]), RunListings(map[], ops[..i]));
    var j :| 0 <= j < n && TakesEffect(Lookup(Run(map[], before[..j]), Target(before[j])), before[j])
             && !Readable(before[j].event);
    assert before[j] == ops[j];
  }

  // ---------- Queries ----------

  lemma CriteriaAgree(r: Row, k: Facts, q: ParsedQuery)
    requires ReadsFacts(r, k)
    ensures AmenitiesFit(r, q) <==> !FailsACriterion(k, q)
  {
    hide OfText;
  }

  lemma PlacesAgree(decimal: DecimalReader, r: Row, l: Listing, place: LocationFilter, f: PropertyFilters,
                    q: ParsedQuery)
    requires Reads(decimal, r, l) && !FailsACriterion(l.facts, q)
    ensures PlaceAndPriceFit(r, place, f, q) <==> MatchesSearch(l, place, f, q)
  {
    hide ReadsMedia, ReadsEmbedding, ReadsAgency, ReadsStamps, ReadsFacts, FailsACriterion;
    PriceRead(decimal, r, l.media);
  }

  /** On a row that reads as a listing, the SQL conditions select exactly what the other adapter's filters keep. */
  lemma SearchesAgree(decimal: DecimalReader, r: Row, l: Listing, place: LocationFilter, f: PropertyFilters,
                      q: ParsedQuery)
    requires Reads(decimal, r, l)
    ensures Selects(SearchQuery(place, f, q), r) <==> MatchesSearch(l, place, f, q)
  {
    hide ReadsBasics, ReadsLocation, ReadsMedia, ReadsEmbedding, ReadsAgency, ReadsStamps, ReadsFacts;
    hide Selects, SearchQuery, FailsACriterion, AmenitiesFit, PlaceAndPriceFit;
    SearchExact(place, f, q, r);
    CriteriaAgree(r, l.facts, q);
    if !FailsACriterion(l.facts, q) {
      PlacesAgree(decimal, r, l, place, f, q);
    }
  }

  lemma PriceRead(decimal: DecimalReader, r: Row, m: Media)
    requires ReadsMedia(decimal, r, m)
    ensures r[MinPrice] == OfNum(m.minPrice)
  {
    hide ReadImages, ReadCells;
  }

  lemma ListsAgree(decimal: DecimalReader, r: Row, l: Listing, f: PropertyFilters)
    requires Reads(decimal, r, l)
    ensures Selects(ActiveQuery(f), r) <==> MatchesFilters(l, f)
  {
    hide ReadsMedia, ReadsEmbedding, ReadsAgency, ReadsStamps, ReadsFacts, Selects, ActiveQuery;
    ActiveQueryExact(f, r);
    PriceRead(decimal, r, l.media);
  }

  /** The scan of the other adapter is a result the SQL query could give, exactly when the limit is not 0. */
  lemma ScanAgreesIff(decimal: DecimalReader, t: Table, ls: Listings, place: LocationFilter, f: PropertyFilters,
                      q: ParsedQuery, limit: nat, ids: seq<Uuid>)
    requires Together(decimal, t, ls) && IsScanResult(ls, place, f, q, limit, ids)
    ensures SelectedIds(t, SearchQuery(place, f, q)) == MatchingIds(ls, place, f, q)
    ensures IsLimitedResult(t, SearchQuery(place, f, q), limit, ids) <==>
      limit > 0 || MatchingIds(ls, place, f, q) == {}
  {
    hide Reads, Selects, SearchQuery, MatchesSearch;
    forall id: Uuid
      ensures id in t <==> id in ls
      ensures id in t ==> (Selects(SearchQuery(place, f, q), t[id]) <==> MatchesSearch(ls[id], place, f, q))
    {
      assert Related(decimal, id, Lookup(t, id), Lookup(ls, id));
      if id in t {
        SearchesAgree(decimal, t[id], ls[id], place, f, q);
      }
    }
    assert SelectedIds(t, SearchQuery(place, f, q)) == MatchingIds(ls, place, f, q);
  }
}
