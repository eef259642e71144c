# A verified model of the property platform's stateful core

This project models, in Dafny 4.11, the parts of the platform that keep state under concurrent or repeated
input, and proves what they keep:

- the `property_listings` read model: three handlers write one row per property from at-least-once, unordered
  events; on top of it the list query, the NULL-admitting search pre-filter, limit/offset and keyset pages; and
  the in-memory adapter of the same port, which the SQL adapter refines;
- the event router and the event-bus worker: poll, spawn, semaphore, dispatch, ack or nack, two-phase drain;
- bookings: slots and bookings changed together, first one transaction at a time, then statement by statement;
- the contract-document lifecycle: upload, ingest, analyze, retry, with any call failing and `except` blocks that
  raise themselves;
- billing: the price catalog, the subscription row, checkout, and the apply-then-record webhook;
- two companions: `gather_with_concurrency` and the cache codec.

`dafny verify dfyconfig.toml` checks everything.

## Layout

| file | content |
|---|---|
| `Prelude.dfy`, `Sql.dfy` | shared types; columns, values and WHERE clauses under three-valued logic |
| `ListingProjection.dfy` | event-to-row mapping, the six writers as row steps, and the repository class |
| `ProjectionConvergence.dfy`, `ConvergenceExact.dfy` | what a delivery sequence leaves behind; when delivery order decides |
| `WriterNonInterference.dfy` | independence of the writers |
| `ListingQueries.dfy`, `KeysetPagination.dfy` | what the queries select; pages and walks over a changing table |
| `InMemoryListings.dfy` | the in-memory adapter: typed listings, its writes and its filters |
| `AdapterRefinement.dfy`, `AdapterRuns.dfy` | reading a row back as a listing; the two adapters step by step, over runs, and in their queries |
| `SearchEndToEnd.dfy` | query results told by the winning event and the place last parsed |
| `EventRouter.dfy`, `EventWorker.dfy`, `EventBusWorker.dfy` | router class; worker state machine; worker class |
| `BoundedGather.dfy` | semaphore-bounded gather |
| `Bookings.dfy`, `BookingOwnership.dfy` | serial transactions with their services; who may change what, over whole runs |
| `DoubleBooking.dfy`, `SerialAgreement.dfy` | the same transactions interleaved statement by statement; alone they do what the serial ones do |
| `ContractLifecycle.dfy`, `ContractRuns.dfy` | transition tables, services, store invariant, reachability; what runs add up to |
| `Billing.dfy`, `BillingMeaning.dfy` | entity, catalog and use cases; what an event leaves in its customer's row |
| `BillingRuns.dfy` | retries and the invariant over runs |
| `UuidText.dfy`, `DigitText.dfy`, `DecimalText.dfy`, `DateTimeText.dfy` | text forms: UUID (section 4 of RFC 9562), decimal, ISO datetime |
| `ListingCodec.dfy` | dictionaries and back |

A class method is proved against a function of the old state (`Step`, `Next`, `Apply`, `Deliver`); the lemmas
are about that function and about whole runs of it.

## Where the code and its documentation differ

The model follows the code.

- The listing port documents that `upsert_from_event` returns None for a dropped write
  (`src/listings/application/ports/repositories/property_listing_repository.py:164-169`); the adapter re-fetches
  and returns the stored row in every case.
- `README.md:1297-1312` of the repository draws PARSED to ANALYZED and says a failed document keeps its status.
  In the code ANALYZED is reachable only from EXTRACTED, an analysis with a valid answer rolls back, and a failed
  parse or analysis commits FAILED.
- `listing_codec.py:7-9` promises the identity for every listing; the agency contact is not encoded, and an empty
  title comes back as "Property".
- The in-memory adapter promises the semantics of the SQL adapter (`inmemory_property_listing_repo.py:1-7`, `131-134`).
  They part at an event with an unreadable price or an incomplete image (`AdapterRuns.AdaptersAgreeIff`): the SQL
  adapter stores a row that it can no longer read, the other one raises or drops the image. A search with limit 0
  returns one id there and none in SQL (`AdapterRuns.ScanAgreesIff`).
- `booking_service.py` frees the slot of a cancelled booking, but `uq_booking_bookings_slot_id` keeps any later
  booking of it from being inserted.

## Model

| member | source | states |
|---|---|---|
| ListingProjection.FindMinPrice | src/listings/adapters/database/property_listing_repository.py:581-589 | the result is one of the parseable amounts and below all others; None exactly when none parses |
| ListingProjection.FindCoverImage | src/listings/adapters/database/property_listing_repository.py:591-598 | the loop with its early exit finds the cover image |
| ListingProjection.CoverIsFirstAtZero | src/listings/adapters/database/property_listing_repository.py:591-598 | the cover is the key of the first image at position 0, or the first image's key when that one has no key |
| ListingProjection.NoImageAtZero | src/listings/adapters/database/property_listing_repository.py:597-598 | with no image at position 0 the cover is the first image's key, None for no images |
| ListingProjection.RowDictKeys | src/listings/adapters/database/property_listing_repository.py:602-674 | the row dict names every column but the embedder's and the two clocks; agency and POI columns exactly when they were supplied |
| ListingProjection.RowDictColumns | src/listings/adapters/database/property_listing_repository.py:602-613 | identity, status, listing type and typology are the event's, and the title is never empty |
| ListingProjection.RowDictPrice | src/listings/adapters/database/property_listing_repository.py:581-589 | the price column is NULL iff no amount could be read, and otherwise an attained lower bound of the readable amounts |
| ListingProjection.RowDictPlace | src/listings/adapters/database/property_listing_repository.py:618-626 | of the enrichment handler's columns only the country is filled in, and no attempt is counted |
| ListingProjection.EventToRow | src/listings/adapters/database/property_listing_repository.py:569-676 | the row dict: which keys it has and what is under each; agency and POI keys only when supplied |
| ListingProjection.PropertyListingRepository.UpsertFromEvent | src/listings/adapters/database/property_listing_repository.py:393-454 | insert with defaults, overwrite only from a lower version, and return the stored row in every case |
| ListingProjection.PropertyListingRepository.DeleteIfNewer | src/listings/adapters/database/property_listing_repository.py:456-479 | true iff the row existed with a lower version, iff it is now gone |
| ListingProjection.PropertyListingRepository.UpdateLocation | src/listings/adapters/database/property_listing_repository.py:481-513 | one step of `UpdateLocation` on the row; None for a missing row |
| ListingProjection.PropertyListingRepository.IncrementEnrichmentAttempts | src/listings/adapters/database/property_listing_repository.py:515-526 | one step of `IncrementAttempts` on the row; None for a missing row |
| ListingProjection.PropertyListingRepository.SetEmbeddingIndexed | src/listings/adapters/database/property_listing_repository.py:528-551 | one step of `SetEmbeddingIndexed` on the row; None for a missing row |
| ListingProjection.PropertyListingRepository.SetEmbeddingStatus | src/listings/adapters/database/property_listing_repository.py:553-566 | one step of `SetEmbeddingStatus` on the row; None for a missing row |
| ProjectionConvergence.Projection | src/listings/adapters/database/property_listing_repository.py:393-479 | after any delivery sequence the row is absent iff no upsert came since the last effective delete, else it shows the highest-version one among those |
| ProjectionConvergence.HighestUpsertWins | src/listings/adapters/database/property_listing_repository.py:414-479 | an upsert that no delivery outranks is what the row shows, in any order, with duplicates, stale deletes and other writers in between |
| ConvergenceExact.ConvergenceIff | src/listings/adapters/database/property_listing_repository.py:393-479 | for every collection of messages: all delivery orders agree on presence and on every projector column iff it holds no upsert, or no delete carries a version above every upsert's |
| ConvergenceExact.PresenceIsOrderFreeIff | src/listings/adapters/database/property_listing_repository.py:456-479 | all delivery orders agree on whether the row exists under the same condition, and then it exists iff there is an upsert |
| ConvergenceExact.TwoOrdersDisagree | src/listings/adapters/database/property_listing_repository.py:456-479 | with such a delete, upserts first loses the row and upserts last keeps it: there is no tombstone |
| ConvergenceExact.PoisAreOrderFreeIff | src/listings/adapters/database/property_listing_repository.py:668-674 | with an upsert that outranks the rest, all delivery orders agree on the POIs iff it carries the key or no upsert of the property carries a POI |
| ConvergenceExact.TwoOrdersDifferInPois | src/listings/adapters/database/property_listing_repository.py:668-674 | otherwise the order of the winner and one older upsert decides the POIs, whatever else is delivered |
| ProjectionConvergence.DeleteStands | src/listings/adapters/database/property_listing_repository.py:456-479 | after the last upsert the row is gone iff a later delete carries a higher version than the row |
| ProjectionConvergence.LivingRow | src/listings/adapters/database/property_listing_repository.py:414-444 | while a row lives its version never decreases and its `created_at` never changes |
| WriterNonInterference.SetClauseIsTheProjectorsColumns | src/listings/adapters/database/property_listing_repository.py:403-441 | the SET clause leaves out exactly the columns of the other handlers and of the insertion |
| WriterNonInterference.LeavesOthersAlone | src/listings/adapters/database/property_listing_repository.py:414-566 | a step of one handler changes no column outside that handler's group |
| WriterNonInterference.ReadsOnlyItsOwn | src/listings/adapters/database/property_listing_repository.py:414-566 | what a step writes depends on that handler's own columns only |
| WriterNonInterference.WritersCommute | src/listings/adapters/database/property_listing_repository.py:414-566 | on an existing row, steps of two different handlers commute |
| WriterNonInterference.NonInterference | src/listings/adapters/database/property_listing_repository.py:403-566 | over a whole run, erasing all steps of the other handlers leaves a handler's columns as they were |
| WriterNonInterference.AttemptsAreCounted | src/listings/adapters/database/property_listing_repository.py:506-523 | `location_enrichment_attempts` equals the location writes and increments since the row's insertion |
| InMemoryListings.InMemoryPropertyListingRepository.UpsertFromEvent | src/listings/adapters/inmemory/inmemory_property_listing_repo.py:215-355 | drops an older or equal version, raises on an unreadable price without storing anything, else records the event and keeps place, embedding record and what was not supplied |
| InMemoryListings.InMemoryPropertyListingRepository.DeleteIfNewer | src/listings/adapters/inmemory/inmemory_property_listing_repo.py:357-370 | deletes exactly a listing of a lower version |
| InMemoryListings.InMemoryPropertyListingRepository.UpdateLocation | src/listings/adapters/inmemory/inmemory_property_listing_repo.py:372-390 | the place of an existing listing becomes the parsed one, with one attempt more |
| InMemoryListings.InMemoryPropertyListingRepository.IncrementEnrichmentAttempts | src/listings/adapters/inmemory/inmemory_property_listing_repo.py:392-397 | one attempt more on an existing listing |
| InMemoryListings.InMemoryPropertyListingRepository.SetEmbeddingIndexed | src/listings/adapters/inmemory/inmemory_property_listing_repo.py:399-416 | the embedding record of an existing listing is replaced and marked indexed |
| InMemoryListings.InMemoryPropertyListingRepository.SetEmbeddingStatus | src/listings/adapters/inmemory/inmemory_property_listing_repo.py:418-425 | the embedding status of an existing listing is replaced |
| InMemoryListings.InMemoryPropertyListingRepository.ListIdsForSearch | src/listings/adapters/inmemory/inmemory_property_listing_repo.py:202-208 | distinct matching ids, as many as there are up to the limit, but one for a limit of 0 |
| AdapterRefinement.ReadsAsOne | src/listings/adapters/database/property_listing_repository.py:56-134 | a row reads as at most one listing: the columns determine every field |
| AdapterRefinement.ShownBasics | src/listings/adapters/database/property_listing_repository.py:602-613 | a row that shows an event carries its organization, status, listing type and typology, and its title or "Property" |
| AdapterRefinement.ShownRooms | src/listings/adapters/database/property_listing_repository.py:627-636 | and its bedrooms, bathrooms, whole square metres, year and energy rating, each under its own column |
| AdapterRefinement.ShownFeatures | src/listings/adapters/database/property_listing_repository.py:630-634 | and its pool, garden, elevator, floor and parking spaces |
| AdapterRefinement.ShownDescription | src/listings/adapters/database/property_listing_repository.py:651-653 | and its description and coordinates |
| AdapterRefinement.ShownSource | src/listings/adapters/database/property_listing_repository.py:654-655 | and its version and time |
| AdapterRefinement.CellsRead | src/listings/adapters/database/property_listing_repository.py:97-103 | the stored price cells read back as the prices the other adapter records, or neither can be read |
| AdapterRefinement.MediaRead | src/listings/adapters/database/property_listing_repository.py:84-106 | a row that shows an event can be read exactly when every image has key and position and every price its amount and type; then cover, images, prices, description and coordinates are the event's |
| AdapterRefinement.LocationWritten | src/listings/adapters/database/property_listing_repository.py:481-513 | the place read back after a location write is the parsed address, field by field, enriched now, with one attempt more |
| AdapterRefinement.EmbeddingWritten | src/listings/adapters/database/property_listing_repository.py:528-551 | the embedding record read back is the one written, marked indexed |
| AdapterRefinement.AgencyAfterUpsert | src/listings/adapters/database/property_listing_repository.py:659-666 | after an upsert that takes effect the agency contact is the one supplied, else the stored one, else none |
| AdapterRefinement.StampsAfterUpsert | src/listings/adapters/database/property_listing_repository.py:414-444 | an upsert that takes effect sets the update time, and creation time and id only for a new row |
| AdapterRefinement.UpsertRefines | src/listings/adapters/database/property_listing_repository.py:393-454 | an upsert that takes effect and can be read leaves a row that reads as the listing the other adapter records |
| AdapterRefinement.AddressRefines | src/listings/adapters/inmemory/inmemory_property_listing_repo.py:372-397 | the address handler's writes read back as the other adapter's |
| AdapterRefinement.EmbedderRefines | src/listings/adapters/inmemory/inmemory_property_listing_repo.py:399-425 | the embedding handler's writes read back as the other adapter's |
| AdapterRefinement.StepAgreesIff | src/listings/adapters/inmemory/inmemory_property_listing_repo.py:1-7 | one write on both adapters: they keep step iff it is not an effective upsert of an event that cannot be read back |
| AdapterRuns.AdaptersAgreeIff | src/listings/adapters/inmemory/inmemory_property_listing_repo.py:1-7 | over any sequence of writes: every row reads as the other adapter's listing after every write, iff every upsert that takes effect can be read back |
| ListingQueries.ActiveQueryExact | src/listings/adapters/database/property_listing_repository.py:146-164 | under three-valued logic the list query selects a row iff it is active and satisfies every filter, NULL satisfying none |
| ListingQueries.SearchExact | src/listings/adapters/database/property_listing_repository.py:267-386 | the pre-filter admits a row iff it is active, fits place, type and effective typology, and every other effective criterion is NULL or satisfied, route values first |
| ListingQueries.ListVersusSearch | src/listings/adapters/database/property_listing_repository.py:146-164 | list query = search with an empty parsed query minus the rows of unknown price when a price bound is set |
| ListingQueries.ShortResultIsComplete | src/listings/application/ports/repositories/property_listing_repository.py:130-135 | saturation: a result shorter than the limit is the complete admitted set |
| AdapterRuns.SearchesAgree | src/listings/adapters/inmemory/inmemory_property_listing_repo.py:147-200 | on a row that reads as a listing the search conditions select it iff the other adapter's `_matches` keeps the listing |
| AdapterRuns.ListsAgree | src/listings/adapters/inmemory/inmemory_property_listing_repo.py:42-61 | and the list conditions iff `_matches_filters` does |
| AdapterRuns.ScanAgreesIff | src/listings/adapters/inmemory/inmemory_property_listing_repo.py:202-208 | both adapters admit the same ids, and the scan is a result SQL could give iff the limit is not 0 or nothing matches |
| SearchEndToEnd.AmenitiesOfEvent | src/listings/adapters/database/property_listing_repository.py:324-381 | the amenity criteria on a row are criteria on the characteristics of the event it shows, the area cut toward zero |
| SearchEndToEnd.PriceOfEvent | src/listings/adapters/database/property_listing_repository.py:303-322 | a price bound on a row is a statement about the event's readable amounts: none below the lower, one up to the upper |
| SearchEndToEnd.LevelsAreTheLastParsed | src/listings/adapters/database/property_listing_repository.py:499-507 | parish, municipality and district are those of the last location write since the row was inserted, else NULL |
| SearchEndToEnd.DeliveredSearch | src/listings/adapters/database/property_listing_repository.py:267-386 | after any delivery with an upsert that no other outranks, the search returns the property iff the place last parsed is the wanted one and the winning event meets every criterion |
| SearchEndToEnd.DeliveredList | src/listings/adapters/database/property_listing_repository.py:146-164 | the same for the list query, where an unknown price meets no bound |
| KeysetPagination.KeysetQueryExact | src/listings/adapters/database/property_listing_repository.py:187-204 | the OR-expanded condition selects the matching rows strictly after the cursor |
| KeysetPagination.OrderedIsUnique | src/listings/adapters/database/property_listing_repository.py:205-208 | (created_at, id) descending orders a set of rows in one way only |
| KeysetPagination.PageFacts | src/listings/adapters/database/property_listing_repository.py:208-214 | a page is the first `limit` rows past the cursor, and `has_more` holds iff there are more than `limit` |
| KeysetPagination.NeverRevisited | src/listings/adapters/database/property_listing_repository.py:196-204 | an id at or before the cursor is on no later page, even if deleted and inserted again |
| KeysetPagination.NoIdTwice | src/listings/adapters/database/property_listing_repository.py:180-214 | a walk with arbitrary writes between its pages returns no id twice |
| KeysetPagination.StayersAreVisited | src/listings/adapters/database/property_listing_repository.py:180-214 | a finished walk returned every row that was present and matching throughout |
| KeysetPagination.Terminates | src/listings/adapters/database/property_listing_repository.py:205-214 | the rows ahead of the cursor shrink by `limit` a page, so the walk ends |
| KeysetPagination.KeysetWalk | src/listings/application/use_cases/list_properties.py:59-67 | the walk under concurrent writes: no id twice, only rows that matched when read, every stayer, and an end |
| KeysetPagination.OffsetPagesArePrefixes | src/listings/adapters/database/property_listing_repository.py:166-178 | concatenated limit/offset pages are a prefix of the filtered list in order |
| KeysetPagination.PaginationRefinement | src/listings/adapters/database/property_listing_repository.py:166-222 | on a fixed table keyset pages, offset pages and the sorted filtered list are one sequence, as long as `count_active` says |
| EventRouter.Router.On | src/shared/events/router.py:21-22 | appends the handler to its own type's list only |
| EventRouter.Router.Dispatch | src/shared/events/router.py:24-39 | succeeds iff no handler raises; otherwise the handlers before the first raise ran, in order, and no later one |
| EventWorker.InvKept | src/shared/events/worker.py:76-206 | every action keeps permits + running = `max_concurrency`, unfinished tasks in flight, one ledger entry a settled task, and the drain's promises |
| EventWorker.ConcurrencyBound | src/shared/events/worker.py:77-83 | in every reachable state at most `max_concurrency` handlers run and every unfinished task is in `_in_flight` |
| EventWorker.EveryMessageHasItsTask | src/shared/events/worker.py:112-120 | over any schedule the tasks are the messages of all polls, one each, in order: none is lost |
| EventWorker.PollsUntilSignal | src/shared/events/worker.py:110-134 | the loop goes on polling iff no signal has come; afterwards it returns at once iff nothing is in flight |
| EventWorker.BackoffGrows | src/shared/events/worker.py:102-126 | the backoff is half a second doubled for every failed poll since the last success, up to five |
| EventWorker.SettlementMeaning | src/shared/events/worker.py:182-201 | the i-th polled message, acked: every handler of its type returned, in order; nacked: a proper prefix of them did |
| EventWorker.OutcomeIsFinal | src/shared/events/worker.py:158-206 | an outcome, once reached, never changes |
| EventWorker.RaiseMeansNack | src/shared/events/worker.py:193-201 | after a handler raise the message is nacked for good, and the ledger never says otherwise |
| EventWorker.DrainConserves | src/shared/events/worker.py:134-152 | when `run` has returned no task is unfinished, and the messages of all polls are as many as acked + nacked + cancelled |
| EventWorker.EveryDrainReturns | src/shared/events/worker.py:136-152 | from the start of the drain every schedule is bounded in length, and one that cannot be continued has returned: no fairness needed |
| EventWorker.DrainStep | src/shared/events/worker.py:136-206 | every action of a draining worker leaves less to do |
| EventBusWorker.Worker.CheckLoop | src/shared/events/worker.py:110-142 | the loop test: poll again, return with nothing in flight, or wait on a snapshot |
| EventBusWorker.Worker.Spawn | src/shared/events/worker.py:112-120 | resets the backoff and adds one waiting task per message, in order, to the in-flight set |
| EventBusWorker.Worker.EndBackoff | src/shared/events/worker.py:102-126 | doubles the backoff up to the cap |
| EventBusWorker.Worker.End | src/shared/events/worker.py:154-206 | settles one task and gives its permit back iff it held one |
| EventBusWorker.Worker.CancelStragglers | src/shared/events/worker.py:142-147 | requests cancellation of exactly the unfinished tasks of the snapshot |
| EventBusWorker.Worker.Perform | src/shared/events/worker.py:85-206 | each action does to the worker's fields what the state machine says, and keeps its invariant |
| BoundedGather.GatherIsBounded | src/shared/utils/concurrency.py:26-32 | for every schedule at most `limit` run at once, 2n steps finish all, and result i is coroutine i's |
| BoundedGather.NeverStuck | src/shared/utils/concurrency.py:26-30 | an unfinished gather can take a step iff the limit is positive |
| BoundedGather.Gathering.Gathered | src/shared/utils/concurrency.py:26-32 | however the semaphore was entered and left, once every task is done the list is the coroutines' values in argument order |
| BoundedGather.Collect | src/shared/utils/concurrency.py:32 | results are listed in argument order |
| Bookings.BookingSystem.CreateSlot | src/bookings/application/services/slot_service.py:24-40 | a valid time range and a fresh id give an available slot, anything else changes nothing |
| Bookings.BookingSystem.MarkBooked | src/bookings/adapters/database/repositories.py:88-96 | compare-and-set: books the slot iff it was available, and says so |
| Bookings.BookingSystem.Create | src/bookings/application/services/booking_service.py:29-64 | slot and booking change together or not at all, with the error of the first failing check |
| Bookings.BookingSystem.CancelByApplicant | src/bookings/application/services/booking_service.py:85-103 | owner only, confirmed only; booking cancelled and slot freed together |
| Bookings.BookingSystem.CancelByAgent | src/bookings/application/services/booking_service.py:105-123 | same organization only, confirmed only; booking cancelled and slot freed together |
| Bookings.BookingSystem.CancelSlot | src/bookings/application/services/slot_service.py:73-96 | the agent's own slot is cancelled from any status, with its confirmed booking |
| Bookings.SerialInvariant | src/bookings/application/services/booking_service.py:29-123 | over all serial runs: booked iff a confirmed booking exists, one booking a slot, agreement on property and organization |
| Bookings.CancellationIsFinal | src/bookings/application/services/booking_service.py:93-101 | over all serial runs a cancelled slot is never left, a cancelled booking never changes, no row disappears |
| Bookings.SlotIsBookableOnce | src/bookings/adapters/database/models.py:69 | a slot that ever had a booking cannot be booked again by any later request |
| BookingOwnership.BookingChange | src/bookings/application/services/booking_service.py:46-56 | a request cancels a booking iff it is its applicant's, its organization's or its slot's agent's, in that one's name, and changes nothing else of it; a booking appears confirmed with the caller's id and notes and the slot's property and organization, on a slot that was free |
| BookingOwnership.SlotChange | src/bookings/application/services/slot_service.py:73-96 | a slot becomes cancelled iff its own agent asks, free again iff an owner cancels its confirmed booking, booked iff a booking of it appears |
| BookingOwnership.RefusedIff | src/bookings/application/services/booking_service.py:85-123 | which refusal a request gets: not found, somebody else's, already cancelled, not available, bad time range, or a constraint |
| BookingOwnership.BookingHistory | src/bookings/application/services/booking_service.py:29-123 | in any run, every booking was made by its own applicant's request on a free slot, and is cancelled, in whoever's name, iff one who may cancelled it |
| BookingOwnership.SlotHistory | src/bookings/application/services/slot_service.py:24-96 | in any run, every slot was opened as its request says, and is cancelled iff its own agent cancelled it |
| SerialAgreement.AloneIsSerial | src/bookings/application/services/booking_service.py:29-123 | a transaction that runs alone, statement by statement, leaves slot, booking and locks as the service's request does in the serial model |
| DoubleBooking.NoDoubleBooking | src/bookings/application/services/booking_service.py:29-59 | in every interleaving at most one `create` on a slot commits, it moved the slot from available itself, and none does once a booking row exists |
| DoubleBooking.InvKept | src/bookings/adapters/database/repositories.py:88-112 | every statement keeps: each row lock is held by the one transaction between its update and its end, and under a `create`'s lock the slot is available |
| DoubleBooking.StepCouplesIff | src/bookings/application/services/slot_service.py:73-96 | a statement breaks "booked iff confirmed" exactly when it commits a slot cancellation over a confirmed booking it has not seen |
| DoubleBooking.CoupledIff | src/bookings/application/services/slot_service.py:73-96 | over every interleaving the coupling holds throughout iff no such commit occurs |
| DoubleBooking.CoupledWithoutSlotCancels | src/bookings/application/services/booking_service.py:29-123 | creates and booking cancellations alone keep the coupling in every interleaving |
| DoubleBooking.CoupledWhenReadsStayFresh | src/bookings/application/services/slot_service.py:75-93 | with slot cancellations it is enough that no `create` commits between one's read and its commit |
| DoubleBooking.StaleSlotCancelDecouples | src/bookings/application/services/slot_service.py:75-93 | a schedule where the unlocked read leaves a cancelled slot with a confirmed booking |
| DoubleBooking.StaleBookingCancelReopens | src/bookings/application/services/booking_service.py:85-103 | a schedule where a booking cancellation re-opens a cancelled slot |
| DoubleBooking.CancelledForGoodIff | src/bookings/adapters/database/repositories.py:98-112 | from any reachable state with the slot cancelled, every schedule keeps it cancelled throughout iff no booking cancellation has seen its booking confirmed or still can |
| DoubleBooking.CancelledForGoodWhenCoupled | src/bookings/application/services/booking_service.py:85-123 | where slot and booking agree, it is decided by who had read before the cancellation committed |
| DoubleBooking.Freed | src/bookings/adapters/database/repositories.py:98-104 | otherwise that reader is driven to its commit, rolling back whoever holds a row it waits for, and the slot is available again |
| ContractLifecycle.SourceDocument.Move | src/contract_intelligence/domain/entities/source_document.py:439-468 | the status changes iff the table allows the move; a refused move leaves it as it was |
| ContractLifecycle.SourceRun.Move | src/contract_intelligence/domain/entities/source_document.py:270-291 | the same for parse and analysis runs |
| ContractLifecycle.SourceRun.Start | src/contract_intelligence/domain/entities/source_document.py:264-272 | a started run is RUNNING |
| ContractLifecycle.ContractServices.UploadSourceDocument | src/contract_intelligence/application/services/source_document_service.py:57-81 | finishes iff id and hash are new and no call fails; then the effects are the commit of UPLOADED and right after it the ingestion request; a failed publish leaves the commit alone, any other error nothing |
| ContractLifecycle.ContractServices.RetryDocument | src/contract_intelligence/application/services/source_document_service.py:165-184 | finishes iff the document FAILED and no call fails; then only its status changes, to UPLOADED, and the same two effects follow |
| ContractLifecycle.ContractServices.IngestDocument | src/contract_intelligence/application/services/ingestion_service.py:45-144 | the whole call with any failure: what is committed and then published, in that order, and when the `except` block itself raises |
| ContractLifecycle.ContractServices.AnalyzeDocument | src/contract_intelligence/application/services/section_analysis_service.py:36-140 | the whole call with any failure: it never finishes a run, and raises the transition error exactly when everything went well |
| ContractLifecycle.StoreInvariant | src/contract_intelligence/domain/entities/source_document.py:40-53 | over all runs: no committed run is pending or running, PARSED has a succeeded parse, section counts add up, hashes are unique, published analyses are parsed, ANALYZED never occurs |
| ContractLifecycle.ContractServices.Send | src/contract_intelligence/application/services/ingestion_service.py:134-142 | a message is published only with the commit of the status it announces right behind it, and the outbox is what was published |
| ContractLifecycle.StatusMovesAlongTheTable | src/contract_intelligence/domain/entities/source_document.py:40-46 | a committed status takes four of the table's moves only: UPLOADED to PARSED or FAILED, PARSED to FAILED, FAILED to UPLOADED; documents are never removed |
| ContractLifecycle.SuccessfulAnalysisRollsBack | src/contract_intelligence/application/services/section_analysis_service.py:124-138 | the store is unchanged exactly when the LLM answered for a real section and no call failed; otherwise FAILED is committed |
| ContractLifecycle.AnalyzeCommitsOnlyFailures | src/contract_intelligence/application/services/section_analysis_service.py:132-138 | whatever an analysis commits is a failed run on a failed document, and it publishes nothing |
| ContractLifecycle.AnalyzedOnlyFromExtracted | src/contract_intelligence/domain/entities/source_document.py:43 | the one status `mark_analyzed` accepts is never committed, so ANALYZED is unreachable |
| ContractLifecycle.IngestFailures | src/contract_intelligence/application/services/ingestion_service.py:93-132 | a failure before the run succeeded commits FAILED, a failure after it leaves no trace |
| ContractRuns.EntersIff | src/contract_intelligence/application/services/ingestion_service.py:45-132 | which requests bring a document to which status, with the failures that prevent it |
| ContractRuns.DocumentChange | src/contract_intelligence/application/services/ingestion_service.py:93-116 | what one request adds to a document: sections and page count of a successful ingestion, the run it ended with, the analyses saved before a failure; an upload makes an empty one |
| ContractRuns.ContentsKept | src/contract_intelligence/application/services/ingestion_service.py:103-116 | over any run a document's sections grow by those of its successful ingestions, in order, its page count is the last reported, its hash stays |
| ContractRuns.DocumentContents | src/contract_intelligence/application/services/source_document_service.py:51-71 | for a document uploaded in the run: its hash is an upload's, its sections and page count those of its ingestions alone |
| ContractRuns.EveryEntryIsAnnounced | src/contract_intelligence/application/services/source_document_service.py:73-81 | over any run as many ingestion requests of a document go out as times it became UPLOADED, and as many analysis requests as times it became PARSED, leaving out those that could not be published |
| ContractRuns.SavedUpTo | src/contract_intelligence/application/services/section_analysis_service.py:82-107 | a failed analysis leaves the answers about real sections up to the first save that raised, in order |
| Billing.CatalogRoundTrip | src/billing/application/use_cases/price_catalog.py:21-39 | a sold price reads back as its plan, unless an enterprise price is also a pro price |
| BillingMeaning.CatalogTable | src/billing/application/use_cases/price_catalog.py:21-39 | the four prices by plan and cadence, none for freemium, and the plan of a price, a pro price first |
| BillingMeaning.StatusTable | src/billing/application/use_cases/handle_stripe_webhook.py:50-61 | Active iff "active", Trialing iff "trialing", PastDue iff "past_due" or "unpaid", Cancelled iff "canceled", else Inactive |
| BillingMeaning.EventMeaning | src/billing/application/use_cases/handle_stripe_webhook.py:107-231 | an event raises iff it is about a row and carries nothing valid to apply; otherwise the newest row of its customer takes the plan of the sold price, the status of the table, and each period bound from the top level or the first item -- or just the status of its kind -- and every other row stays |
| BillingMeaning.DeliveryRecords | src/billing/application/use_cases/handle_stripe_webhook.py:78-105 | a recorded event is a no-op; otherwise its id, and no other, is recorded iff applying did not raise and recording did not fail |
| Billing.Subscription.Update | src/billing/domain/models/subscription.py:42-70 | None keeps a field, a value replaces it, and the update time moves |
| Billing.BillingService.FindByCustomer | src/billing/adapters/database/subscription_repository.py:77-85 | the newest row of the customer: none of the customer's is newer; None iff there is none |
| Billing.BillingService.ApplySubscription | src/billing/application/use_cases/handle_stripe_webhook.py:107-156 | raises iff there is no known price or the database fails; otherwise one row takes plan, price, status and periods |
| Billing.BillingService.SetStatus | src/billing/application/use_cases/handle_stripe_webhook.py:197-231 | one row takes the status, or nothing changes |
| Billing.BillingService.Handle | src/billing/application/use_cases/handle_stripe_webhook.py:158-231 | a handler applies its event completely or raises with the rows unchanged |
| Billing.BillingService.Execute | src/billing/application/use_cases/handle_stripe_webhook.py:78-105 | a recorded event is a no-op; a raise while applying changes neither rows nor record; a raise while recording is reported and leaves the event applied and unrecorded |
| Billing.SeedingIsFound | src/billing/application/use_cases/seed_freemium_subscription.py:29-46 | an organization without a subscription is found afterwards with an active freemium one without price or customer, and no other organization's or customer's lookup notices |
| Billing.BillingService.StartCheckout | src/billing/application/use_cases/start_checkout_session.py:59-115 | reuses a known customer, else stores the new customer id on the organization's row or a new inactive one; succeeds iff plan, customer and session do, and a refused session leaves the row written |
| Billing.CheckoutStoresTheCustomer | src/billing/application/use_cases/start_checkout_session.py:70-98 | afterwards the organization has a customer iff it had one or the gateway's answer was usable; a changed row only gets that answer as its customer, a new one is freemium, inactive and without price or period |
| BillingRuns.ApplyIsIdempotent | src/billing/application/use_cases/handle_stripe_webhook.py:107-231 | applying an event a second time changes nothing |
| BillingRuns.ApplyIsNeutralIff | src/billing/application/use_cases/handle_stripe_webhook.py:107-231 | applying an event changes nothing iff the customer's newest row already shows it, kind by kind: past due, not past due, cancelled, or plan, price, status and what the subscription carries |
| BillingRuns.ElsewhereKeepsFixed | src/billing/application/use_cases/handle_stripe_webhook.py:158-231 | an event of another customer does not make an event that changed nothing change something |
| BillingRuns.CollapseIff | src/billing/application/use_cases/handle_stripe_webhook.py:78-105 | over every log: at every moment the rows are those of applying each event that took effect once, iff every retry of such an event finds the customer's newest row still showing it |
| BillingRuns.RetriesCollapse | src/billing/application/use_cases/handle_stripe_webhook.py:78-105 | when no other event of the same customer comes between an attempt that took effect unrecorded and the next one, any log of failures, crashes, redeliveries and other events leaves the rows of applying each event that took effect once |
| BillingRuns.RecordedHasLanded | src/billing/application/use_cases/handle_stripe_webhook.py:98-105 | a recorded event did take effect |
| BillingRuns.RecordIs | src/billing/application/use_cases/handle_stripe_webhook.py:98-105 | an id is recorded after a log iff it was before or one of its deliveries took effect and was recorded |
| BillingRuns.InterleavedRetryDiffers | src/billing/application/use_cases/handle_stripe_webhook.py:209-231 | the failing side: a payment failure retried after the payment leaves the row past due |
| BillingRuns.EitherEventProvisions | src/billing/application/use_cases/handle_stripe_webhook.py:158-195 | checkout completion and subscription update lead to the same rows |
| BillingRuns.BillingInvariant | src/billing/application/use_cases/handle_stripe_webhook.py:107-156 | over all runs of seed, checkout and webhooks: a price means Stripe and its plan, a paid plan means a price, a customer id is never changed or lost |
| BillingRuns.EventTouchesOneCustomer | src/billing/application/use_cases/start_checkout_session.py:70-98 | with fresh customer ids, an event changes its own customer's row only |
| UuidText.UuidRoundTrip | src/listings/adapters/cache/listing_codec.py:63-72 | reading a printed UUID gives it back exactly for 128-bit values |
| UuidText.HexIsCanonical | src/listings/adapters/cache/listing_codec.py:63-72 | a lower-case hexadecimal text is the print of what it reads as |
| UuidText.PrintShape | src/listings/adapters/cache/listing_codec.py:63-72 | 36 characters, hyphens at four places, lower-case hexadecimal digits everywhere else |
| UuidText.PrintIsInjective | src/listings/adapters/cache/listing_codec.py:11-15 | two UUIDs with one text are one UUID |
| DecimalText.DecimalRoundTrip | src/listings/adapters/cache/listing_codec.py:208-213 | every finite decimal comes back from its text, plain or scientific, with sign, digits and exponent |
| DecimalText.PlainIff | src/listings/adapters/cache/listing_codec.py:208-213 | the text has no exponent part iff the exponent is not positive and the first digit is at most six places behind the point |
| DateTimeText.DateTimeRoundTrip | src/listings/adapters/cache/listing_codec.py:86-91 | every datetime comes back from its ISO text: date, time to the microsecond, and UTC offset or none |
| DateTimeText.IsoShape | src/listings/adapters/cache/listing_codec.py:86-91 | year, month, day, hour, minute and second are at their places in the text; 19 characters without fraction and offset |
| ListingCodec.PoiRoundTrip | src/listings/domain/poi_category.py:23-43 | every category value reads back as its member |
| ListingCodec.ImageRoundTrip | src/listings/adapters/cache/listing_codec.py:63-72 | an image comes back whole |
| ListingCodec.PriceRoundTrip | src/listings/adapters/cache/listing_codec.py:75-83 | a price comes back whole |
| ListingCodec.PoiDictRoundTrip | src/listings/adapters/cache/listing_codec.py:41-60 | a point of interest comes back whole |
| ListingCodec.ReadAllInverts | src/listings/adapters/cache/listing_codec.py:177-179 | a list comes back element by element in order |
| ListingCodec.ListingRoundTrip | src/listings/adapters/cache/listing_codec.py:86-185 | a listing comes back with the agency contact removed and a falsy title replaced, every other field as it was |
| ListingCodec.ListingIdentityIff | src/listings/adapters/cache/listing_codec.py:7-9 | the promised identity holds iff there is no agency contact and the title is not empty |
| ListingCodec.PageRoundTrip | src/listings/adapters/cache/listing_codec.py:191-205 | a page comes back in order with its cursor, and is the identity iff each item is |
| ListingCodec.ParsedQueryRoundTrip | src/listings/adapters/cache/listing_codec.py:216-253 | a parsed query comes back whole |
| ListingCodec.SearchResultRoundTrip | src/listings/adapters/cache/listing_codec.py:256-267 | a search result comes back whole with its ranking |

## Left out

- HTTP routes, middleware, tokens, object storage, caches, brokers, Stripe and LLM clients: their answers and
  failures are parameters; identifiers from `uuid4` and times from `now()` are parameters too.
- ListingProjection.EventToRow: prices in the `NUMERIC(12, 2)` column are exact reals, NaN and infinite amounts are
  not numbers, and the extra keys of image and POI payloads are not kept.
- AdapterRefinement.MediaRead: what `Decimal` reads from the text of an amount is a parameter; an image or price key
  that is present but null counts as absent.
- InMemoryListings.InMemoryPropertyListingRepository.UpdateLocation: listings are values; the code changes the stored
  object, so a caller that kept an earlier result sees the change. The clocks of both adapters give the same time.
- ListingProjection.PropertyListingRepository.UpsertFromEvent: the stored row is returned as it is; reading it as a
  listing, which may raise after the commit, is `AdapterRefinement`.
- ListingProjection.PropertyListingRepository.DeleteIfNewer: the read and the delete are one atomic step; the code
  runs them as two statements of one session.
- KeysetPagination.KeysetWalk: rows inserted during the walk get a `created_at` later than all rows present at its
  start, and a page is read at one moment.
- The cursor token of the list endpoint and the page cache in front of it; the per-organization list queries, which
  add one more equality.
- EventWorker.RaiseMeansNack: ack and nack do not fail; heartbeats, a second signal (`os._exit`), and messages whose
  `event` or `message_id` raise are not modelled. The worker's fields change action by action between suspension
  points; the `await` machinery itself is the choice of the next action.
- BoundedGather.GatherIsBounded: coroutines that raise are left out; the event loop is the choice of the
  next step.
- DoubleBooking.NoDoubleBooking: one slot and its booking under read-committed isolation; transactions are values,
  not sessions; ownership is not looked at, and a cancellation by an agent differs from the applicant's only in the
  status it writes.
- ConvergenceExact.ConvergenceIff: does not cover the agency columns, which are looked up at delivery time and so
  are not a function of the version.
- Listing, finding and applicant methods of the booking services, and the notifications they send after the
  commit; applicants are a fixed set behind a foreign key; `created_at` and `updated_at` of slots and bookings.
- Two unit-of-work calls for one document at the same time; extraction, review, template and generated-contract
  services; the contents of sections and analyses beyond their ids.
- Billing.BillingService.StartCheckout: each write takes effect at once, as with the PostgREST repository the service
  is wired with; the SQLAlchemy one would leave that to its session.
- Billing.BillingService.FindByCustomer: rows with equal creation times are told apart by id; the database may pick
  either.
- Billing.BillingService.Execute: malformed timestamps and payloads without the expected keys count as calls that
  raise; the gateway answers a given subscription id the same way every time.
- ListingCodec.ListingRoundTrip: decimals are finite; the readers accept the printed forms (and, for decimals and
  UUIDs, signs, letter case and hyphens), not every form Python's readers take; dictionary keys are named, not
  spelled; msgpack is not modelled.
